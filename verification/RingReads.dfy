/** Reading ring indices out of QEMU's memory, one queue at a time or all queues in one vectored read
    (internal/watch/target_linux.go: Target.Ring, NewRingBatch, RingBatch.Read, RingBatch.Indices). */
module RingReads {
  import opened Words
  import opened Snapshots

  /** The mapped bytes of the remote process. */
  type Memory = map<int, u8>

  datatype Iovec = Iovec(base: int, len: nat)

  function Total(remote: seq<Iovec>): nat {
    if remote == [] then 0 else remote[0].len + Total(remote[1..])
  }

  /** The address of the k-th byte of a vectored read. */
  function AddressAt(remote: seq<Iovec>, k: nat): int
    requires k < Total(remote)
  {
    if k < remote[0].len then remote[0].base + k else AddressAt(remote[1..], k - remote[0].len)
  }

  /** process_vm_readv may move any number of bytes, in order, as far as the remote bytes are mapped. */
  predicate Moves(mem: Memory, remote: seq<Iovec>, n: nat) {
    n <= Total(remote) && forall k: nat :: k < n ==> AddressAt(remote, k) in mem
  }

  /** Address arithmetic on uint64 wraps. */
  function IndexAddress(ring: u64): u64 {
    (ring + 2) % 0x1_0000_0000_0000_0000
  }

  function LittleEndian16(lo: u8, hi: u8): u16 {
    lo + 0x100 * hi
  }

  /** The iovecs of one queue: the index fields of the available and the used ring. */
  function QueueVector(s: Snapshot): seq<Iovec> {
    [Iovec(IndexAddress(s.avail), 2), Iovec(IndexAddress(s.used), 2)]
  }

  function BatchVector(snapshots: seq<Snapshot>): seq<Iovec> {
    if snapshots == [] then [] else QueueVector(snapshots[0]) + BatchVector(snapshots[1..])
  }

  // ----- One queue

  /** Target.Ring: two local buffers of two bytes each, filled by one read; `moved` is the syscall's result. */
  method Ring(mem: Memory, s: Snapshot, moved: Option<nat>) returns (r: Option<(u16, u16)>)
    requires moved.Some? ==> Moves(mem, QueueVector(s), moved.value)
    ensures r.Some? <==> moved == Some(4)
    ensures r.Some? ==> Mapped(mem, s) && r.value == RingWords(mem, s)
  {
    if moved != Some(4) {
      return None;
    }
    var remote := QueueVector(s);
    QueueBytes(s);
    assert forall k: nat :: k < 4 ==> AddressAt(remote, k) in mem;
    var data := new u8[4];
    for k := 0 to 4
      invariant forall j: nat :: j < k ==> data[j] == mem[AddressAt(remote, j)]
    {
      data[k] := mem[AddressAt(remote, k)];
    }
    r := Some((LittleEndian16(data[0], data[1]), LittleEndian16(data[2], data[3])));
  }

  /** The index fields of a queue are readable. */
  predicate Mapped(mem: Memory, s: Snapshot) {
    var a, u := IndexAddress(s.avail), IndexAddress(s.used);
    a in mem && a + 1 in mem && u in mem && u + 1 in mem
  }

  /** What they hold. */
  function RingWords(mem: Memory, s: Snapshot): (u16, u16)
    requires Mapped(mem, s)
  {
    var a, u := IndexAddress(s.avail), IndexAddress(s.used);
    (LittleEndian16(mem[a], mem[a + 1]), LittleEndian16(mem[u], mem[u + 1]))
  }

  /** The ring words, byte by byte: the index field stands two bytes into each ring, at an address that wraps at 2^64,
      low byte first (VIRTIO 1.2, sections 2.7.6 and 2.7.8). */
  lemma WordsExact(mem: Memory, s: Snapshot, a: u64, u: u64)
    requires (s.avail + 2 - a) % 0x1_0000_0000_0000_0000 == 0 && (s.used + 2 - u) % 0x1_0000_0000_0000_0000 == 0
    ensures Mapped(mem, s) <==> a in mem && a + 1 in mem && u in mem && u + 1 in mem
    ensures Mapped(mem, s) ==>
              var (avail, used) := RingWords(mem, s);
              && avail % 256 == mem[a] && avail / 256 == mem[a + 1]
              && used % 256 == mem[u] && used / 256 == mem[u + 1]
  {
    SameAddress(s.avail + 2, a);
    SameAddress(s.used + 2, u);
  }

  lemma SameAddress(x: nat, a: u64)
    requires (x - a) % 0x1_0000_0000_0000_0000 == 0
    ensures x % 0x1_0000_0000_0000_0000 == a
  {
  }

  lemma QueueBytes(s: Snapshot)
    ensures var v := QueueVector(s);
            && Total(v) == 4
            && AddressAt(v, 0) == IndexAddress(s.avail) && AddressAt(v, 1) == IndexAddress(s.avail) + 1
            && AddressAt(v, 2) == IndexAddress(s.used) && AddressAt(v, 3) == IndexAddress(s.used) + 1
  {
    var v := QueueVector(s);
    assert v[1..] == [v[1]];
    assert v[1..][1..] == [];
    assert Total(v[1..]) == 2;
  }

  // ----- All queues at once

  class RingBatch {
    var data: array<u8>
    var remote: seq<Iovec>

    /** The batch reads these queues, in this order. */
    ghost predicate Over(snapshots: seq<Snapshot>)
      reads this
    {
      remote == BatchVector(snapshots) && data.Length == 4 * |snapshots|
    }

    constructor (size: nat)
      ensures remote == [] && data.Length == size && fresh(data)
    {
      data := new u8[size];
      remote := [];
    }

    /** Fails unless every byte arrived; a short read leaves the bytes that did arrive, and the old ones after them. */
    method Read(mem: Memory, moved: Option<nat>) returns (ok: bool)
      requires data.Length <= Total(remote)
      requires moved.Some? ==> moved.value <= data.Length && Moves(mem, remote, moved.value)
      modifies data
      ensures ok <==> moved == Some(data.Length)
      ensures ok ==> Holds(mem, remote, data[..])
      ensures var n := if moved.Some? then moved.value else 0;
              Holds(mem, remote, data[..n]) && data[n..] == old(data[n..])
    {
      if moved.None? {
        return false;
      }
      for k := 0 to moved.value
        invariant forall j: nat :: j < k ==> data[j] == mem[AddressAt(remote, j)]
        invariant forall j :: k <= j < data.Length ==> data[j] == old(data[j])
      {
        data[k] := mem[AddressAt(remote, k)];
      }
      ok := moved.value == data.Length;
    }

    method Indices(index: nat) returns (avail: u16, used: u16)
      requires 4 * index + 4 <= data.Length
      ensures avail == LittleEndian16(data[4 * index], data[4 * index + 1])
      ensures used == LittleEndian16(data[4 * index + 2], data[4 * index + 3])
    {
      var slice := data[4 * index..4 * index + 4];
      avail, used := LittleEndian16(slice[0], slice[1]), LittleEndian16(slice[2], slice[3]);
    }
  }

  method NewRingBatch(snapshots: seq<Snapshot>) returns (b: RingBatch?)
    ensures b != null <==>
            1 <= |snapshots| <= 512 && forall i :: 0 <= i < |snapshots| ==> Validate(snapshots[i]).Valid?
    ensures b != null ==> fresh(b) && fresh(b.data) && b.Over(snapshots)
  {
    if |snapshots| == 0 || |snapshots| > 512 {
      return null;
    }
    var batch := new RingBatch(4 * |snapshots|);
    for i := 0 to |snapshots|
      invariant forall k :: 0 <= k < i ==> Validate(snapshots[k]).Valid?
      invariant batch.remote == BatchVector(snapshots[..i])
      invariant fresh(batch) && fresh(batch.data) && batch.data.Length == 4 * |snapshots|
    {
      if !Validate(snapshots[i]).Valid? {
        return null;
      }
      VectorGrows(snapshots[..i], snapshots[i]);
      assert snapshots[..i + 1] == snapshots[..i] + [snapshots[i]];
      batch.remote := batch.remote + QueueVector(snapshots[i]);
    }
    assert snapshots[..|snapshots|] == snapshots;
    b := batch;
  }

  lemma {:induction false} VectorGrows(snapshots: seq<Snapshot>, s: Snapshot)
    ensures BatchVector(snapshots + [s]) == BatchVector(snapshots) + QueueVector(s)
  {
    if snapshots == [] {
      assert [s][1..] == [];
    } else {
      VectorGrows(snapshots[1..], s);
      assert (snapshots + [s])[1..] == snapshots[1..] + [s];
    }
  }

  /** The first queue fills the first four bytes of a batch. */
  lemma BatchShift(snapshots: seq<Snapshot>, n: nat)
    requires n < 4 * |snapshots|
    ensures Total(BatchVector(snapshots)) == 4 * |snapshots| && Total(BatchVector(snapshots[1..])) == 4 * |snapshots| - 4
    ensures Total(QueueVector(snapshots[0])) == 4
    ensures AddressAt(BatchVector(snapshots), n) ==
            if n < 4 then AddressAt(QueueVector(snapshots[0]), n) else AddressAt(BatchVector(snapshots[1..]), n - 4)
  {
    QueueBytes(snapshots[0]);
    BatchTotal(snapshots);
    BatchTotal(snapshots[1..]);
    var v, rest := BatchVector(snapshots), BatchVector(snapshots[1..]);
    assert v[1..] == [v[1]] + rest && v[1..][1..] == rest;
  }

  /** Byte 4i + j of the batch is byte j of queue i. */
  lemma {:induction false} BatchBytes(snapshots: seq<Snapshot>, i: nat, j: nat)
    requires i < |snapshots| && j < 4
    ensures Total(BatchVector(snapshots)) == 4 * |snapshots|
    ensures Total(QueueVector(snapshots[i])) == 4
    ensures AddressAt(BatchVector(snapshots), 4 * i + j) == AddressAt(QueueVector(snapshots[i]), j)
  {
    BatchShift(snapshots, 4 * i + j);
    if i > 0 {
      BatchBytes(snapshots[1..], i - 1, j);
    }
  }

  lemma {:induction false} BatchTotal(snapshots: seq<Snapshot>)
    ensures Total(BatchVector(snapshots)) == 4 * |snapshots|
  {
    if snapshots != [] {
      BatchTotal(snapshots[1..]);
      var v := BatchVector(snapshots);
      assert v[1..] == [v[1]] + BatchVector(snapshots[1..]);
      assert v[1..][1..] == BatchVector(snapshots[1..]);
    }
  }

  /** Over fixed memory, a complete batched read gives at each index what the read of that queue alone gives. */
  method ReadAll(mem: Memory, snapshots: seq<Snapshot>, moved: Option<nat>) returns (r: Option<seq<(u16, u16)>>)
    requires moved.Some? ==> moved.value <= 4 * |snapshots| && Moves(mem, BatchVector(snapshots), moved.value)
    ensures r.Some? <==> Batchable(snapshots) && moved == Some(4 * |snapshots|)
    ensures r.Some? ==> |r.value| == |snapshots|
    ensures r.Some? ==> forall i :: 0 <= i < |snapshots| ==>
              Mapped(mem, snapshots[i]) && r.value[i] == RingWords(mem, snapshots[i])
  {
    var b := NewRingBatch(snapshots);
    if b == null {
      return None;
    }
    BatchTotal(snapshots);
    var ok := b.Read(mem, moved);
    if !ok {
      return None;
    }
    var words := [];
    ghost var bytes := b.data[..];
    for i := 0 to |snapshots|
      modifies {}
      invariant |words| == i && b.data.Length == 4 * |snapshots| && b.data[..] == bytes
      invariant forall k :: 0 <= k < i ==> Mapped(mem, snapshots[k]) && words[k] == RingWords(mem, snapshots[k])
    {
      var avail, used := b.Indices(i);
      AgreesAt(mem, snapshots, bytes, i);
      words := words + [(avail, used)];
    }
    r := Some(words);
  }

  /** The buffer holds the remote bytes, in order. */
  ghost predicate Holds(mem: Memory, remote: seq<Iovec>, data: seq<u8>) {
    |data| <= Total(remote) &&
    forall k: nat {:trigger data[k]} :: k < |data| ==> AddressAt(remote, k) in mem && data[k] == mem[AddressAt(remote, k)]
  }

  lemma AgreesAt(mem: Memory, snapshots: seq<Snapshot>, data: seq<u8>, i: nat)
    requires i < |snapshots| && |data| == 4 * |snapshots| && Holds(mem, BatchVector(snapshots), data)
    ensures Mapped(mem, snapshots[i])
    ensures RingWords(mem, snapshots[i]) ==
            (LittleEndian16(data[4 * i], data[4 * i + 1]), LittleEndian16(data[4 * i + 2], data[4 * i + 3]))
  {
    var s := snapshots[i];
    assert IndexAddress(s.avail) in mem && data[4 * i] == mem[IndexAddress(s.avail)] by {
      ByteAt(mem, snapshots, data, i, 0);
    }
    assert IndexAddress(s.avail) + 1 in mem && data[4 * i + 1] == mem[IndexAddress(s.avail) + 1] by {
      ByteAt(mem, snapshots, data, i, 1);
    }
    assert IndexAddress(s.used) in mem && data[4 * i + 2] == mem[IndexAddress(s.used)] by {
      ByteAt(mem, snapshots, data, i, 2);
    }
    assert IndexAddress(s.used) + 1 in mem && data[4 * i + 3] == mem[IndexAddress(s.used) + 1] by {
      ByteAt(mem, snapshots, data, i, 3);
    }
  }

  lemma ByteAt(mem: Memory, snapshots: seq<Snapshot>, data: seq<u8>, i: nat, j: nat)
    requires i < |snapshots| && j < 4 && |data| == 4 * |snapshots| && Holds(mem, BatchVector(snapshots), data)
    ensures var base := if j < 2 then IndexAddress(snapshots[i].avail) else IndexAddress(snapshots[i].used);
            base + j % 2 in mem && data[4 * i + j] == mem[base + j % 2]
  {
    QueueBytes(snapshots[i]);
    BatchBytes(snapshots, i, j);
    var k, byte := 4 * i + j, data[4 * i + j];
    assert AddressAt(BatchVector(snapshots), k) in mem && byte == mem[AddressAt(BatchVector(snapshots), k)];
  }
}
