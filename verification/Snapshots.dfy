/** The vhost queue snapshot shared between the kernel probe and the agent
    (internal/watch/model.go, agent/wire.h). */
module Snapshots {
  import opened Words

  const VIRTIO_F_ACCESS_PLATFORM: nat := 0x2_0000_0000
  const VIRTIO_F_RING_PACKED: nat := 0x4_0000_0000
  const VHOST_WORK_QUEUED: nat := 2

  /** The three reserved bytes of the wire layout are kept as one word. */
  datatype Snapshot = Snapshot(
    timestampNS: u64, vq: u64, kickFile: u64, context: u64, avail: u64, used: u64,
    backend: u64, features: u64, workFlags: u64, work: u64, wait: u64, pollWQH: u64, contextWQH: u64,
    num: u32, eventID: u32,
    lastAvail: u16, lastUsed: u16,
    littleEndian: u8,
    reserved: u32)

  /** The cleared map slot. */
  const ZERO := Snapshot(0, 0, 0, 0, 0, 0, 0, 0, 0, 0, 0, 0, 0, 0, 0, 0, 0, 0, 0)

  function Identity(s: Snapshot): Snapshot {
    s.(timestampNS := 0, workFlags := 0, lastAvail := 0, lastUsed := 0)
  }

  /** Two snapshots show the same attachment exactly when they differ at most in the time, the work flags and the two
      counters. */
  lemma IdentityExact(a: Snapshot, b: Snapshot)
    ensures Identity(a) == Identity(b) <==>
            && a.vq == b.vq && a.kickFile == b.kickFile && a.context == b.context && a.avail == b.avail && a.used == b.used
            && a.backend == b.backend && a.features == b.features && a.work == b.work && a.wait == b.wait
            && a.pollWQH == b.pollWQH && a.contextWQH == b.contextWQH && a.num == b.num && a.eventID == b.eventID
            && a.littleEndian == b.littleEndian && a.reserved == b.reserved
  {
  }

  datatype Validity = Valid | Unconfigured | WaiterMismatch | BadRingSize | UnsupportedRing

  function Validate(s: Snapshot): Validity {
    if s.vq == 0 || s.kickFile == 0 || s.context == 0 || s.avail == 0 || s.used == 0 || s.backend == 0 then
      Unconfigured
    else if s.pollWQH == 0 || s.pollWQH != s.contextWQH then
      WaiterMismatch
    else if s.num < 1 || s.num > 32768 || And(s.num, s.num - 1) != 0 then
      BadRingSize
    else if And(s.features, VIRTIO_F_RING_PACKED) != 0 || And(s.features, VIRTIO_F_ACCESS_PLATFORM) != 0
            || s.littleEndian != 1 then
      UnsupportedRing
    else
      Valid
  }

  const BATCH_LIMIT := 512

  /** The snapshots NewRingBatch accepts (internal/watch/target_linux.go). */
  predicate Batchable(snapshots: seq<Snapshot>) {
    1 <= |snapshots| <= BATCH_LIMIT && forall i :: 0 <= i < |snapshots| ==> Validate(snapshots[i]).Valid?
  }

  predicate Busy(s: Snapshot) {
    And(s.workFlags, VHOST_WORK_QUEUED) != 0
  }

  /** The bit at position `k` of `x`. */
  predicate Bit(x: nat, k: nat) {
    if k == 0 then x % 2 == 1 else Bit(x / 2, k - 1)
  }

  lemma {:induction false} AndPow2(x: nat, k: nat)
    ensures And(x, Pow2(k)) != 0 <==> Bit(x, k)
  {
    if k == 0 {
      assert x > 0 ==> And(x, 1) == x % 2 + 2 * And(x / 2, 0);
    } else {
      AndPow2(x / 2, k - 1);
      assert x > 0 ==> And(x, Pow2(k)) == 2 * And(x / 2, Pow2(k - 1));
    }
  }

  /** Validation accepts exactly the attached, little-endian split rings of a power-of-two
      size up to 32768 that use neither the packed layout (feature bit 34) nor an IOMMU
      (feature bit 33). */
  lemma ValidateExact(s: Snapshot)
    ensures Validate(s).Valid? <==>
            && s.vq != 0 && s.kickFile != 0 && s.context != 0 && s.avail != 0 && s.used != 0 && s.backend != 0
            && s.pollWQH == s.contextWQH != 0
            && 1 <= s.num <= 32768 && (exists k: nat :: s.num == Pow2(k))
            && !Bit(s.features, 34) && !Bit(s.features, 33) && s.littleEndian == 1
    ensures Busy(s) <==> Bit(s.workFlags, 1)
  {
    if s.num >= 1 {
      PowerOfTwoTrick(s.num);
    }
    FeatureBits();
    AndPow2(s.features, 34);
    AndPow2(s.features, 33);
    AndPow2(s.workFlags, 1);
  }

  /** A snapshot of an ordinary queue. */
  const SAMPLE := ZERO.(vq := 1, kickFile := 2, context := 3, avail := 4, used := 5, backend := 6, pollWQH := 7,
                        contextWQH := 7, num := 256, eventID := 5, littleEndian := 1)

  lemma SampleIsValid()
    ensures Validate(SAMPLE).Valid?
  {
    assert Pow2(8) == 256;
    PowerOfTwoTrick(256);
  }

  /** vhost has work queued exactly when bit 1 of the work flags is set. */
  lemma BusyExact(s: Snapshot)
    ensures Busy(s) <==> Bit(s.workFlags, 1)
  {
    FeatureBits();
    AndPow2(s.workFlags, 1);
  }

  lemma FeatureBits()
    ensures Pow2(33) == VIRTIO_F_ACCESS_PLATFORM && Pow2(34) == VIRTIO_F_RING_PACKED
    ensures Pow2(1) == VHOST_WORK_QUEUED
  {
    assert Pow2(8) == 256;
    assert Pow2(16) == 0x1_0000;
    assert Pow2(24) == 0x100_0000;
    assert Pow2(32) == 0x1_0000_0000;
  }
}
