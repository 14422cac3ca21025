/** Candidate detection from user-ring indices alone (internal/watch/progress.go). */
module Progress {
  import opened Words

  /** The fields of a RingProgress. `used` is the last word read; the same machine is also run
      over unbounded counters, so it is an `int` here. */
  datatype State = State(since: real, used: int, eligible: bool)

  const INITIAL := State(0.0, 0, false)

  datatype Event =
    | Seen(used: int, eligible: bool, now: real)
    | Reset(now: real)

  /** A nonempty backlog that fits the ring. */
  predicate Eligible(avail: u16, used: u16, num: u32) {
    0 < Sub16(avail, used) <= num
  }

  function Reading(avail: u16, used: u16, num: u32, now: real): Event {
    Seen(used, Eligible(avail, used, num), now)
  }

  function Next(p: State, e: Event): State {
    match e
    case Reset(now) => p.(since := now, eligible := false)
    case Seen(used, eligible, now) =>
      State(if !p.eligible || !eligible || p.used != used then now else p.since, used, eligible)
  }

  /** The verdict returned together with the new state. */
  predicate Ready(p: State, now: real, threshold: real) {
    p.eligible && now - p.since >= threshold
  }

  class RingProgress {
    var since: real
    var used: u16
    var eligible: bool

    ghost function Value(): State
      reads this
    {
      State(since, used, eligible)
    }

    constructor ()
      ensures Value() == INITIAL
    {
      since, used, eligible := 0.0, 0, false;
    }

    method Observe(avail: u16, used: u16, num: u32, now: real, threshold: real) returns (ready: bool)
      modifies this
      ensures Value() == Next(old(Value()), Reading(avail, used, num, now))
      ensures ready == Ready(Value(), now, threshold)
    {
      var outstanding := Sub16(avail, used);
      var fits := outstanding > 0 && outstanding <= num;
      if !this.eligible || !fits || this.used != used {
        since := now;
      }
      this.used, this.eligible := used, fits;
      ready := fits && now - since >= threshold;
    }

    method Reset(now: real)
      modifies this
      ensures Value() == Next(old(Value()), Event.Reset(now))
    {
      since, eligible := now, false;
    }
  }

  // ----- Every run

  /** The state after the first `n` events. */
  function After(es: seq<Event>, n: nat): State
    requires n <= |es|
  {
    if n == 0 then INITIAL else Next(After(es, n - 1), es[n - 1])
  }

  /** Every event from `i` up to and including `n` is an eligible reading of one `used` value. */
  predicate Unbroken(es: seq<Event>, i: nat, n: nat)
    requires i <= n < |es|
  {
    es[n].Seen? && forall k :: i <= k <= n ==> es[k].Seen? && es[k].eligible && es[k].used == es[n].used
  }

  /** The timer anchor is the first reading of the longest unbroken run ending at `n`. */
  lemma {:induction false} Anchor(es: seq<Event>, n: nat) returns (a: nat)
    requires n < |es| && es[n].Seen? && es[n].eligible
    ensures a <= n && Unbroken(es, a, n)
    ensures a == 0 || !Unbroken(es, a - 1, n)
    ensures After(es, n + 1).since == es[a].now
  {
    if n > 0 && es[n - 1].Seen? && es[n - 1].eligible && es[n - 1].used == es[n].used {
      a := Anchor(es, n - 1);
      assert Unbroken(es, a, n);
    } else {
      a := n;
    }
  }

  predicate Ordered(es: seq<Event>) {
    forall i, j :: 0 <= i <= j < |es| ==> es[i].now <= es[j].now
  }

  /** Observe answers yes exactly when an unbroken run of eligible readings of one `used` value,
      with no reset inside it, began at least `threshold` ago. */
  lemma ReadyExact(es: seq<Event>, n: nat, threshold: real)
    requires Ordered(es) && n < |es| && es[n].Seen?
    ensures Ready(After(es, n + 1), es[n].now, threshold) <==>
            exists i: nat :: i <= n && Unbroken(es, i, n) && es[n].now - es[i].now >= threshold
  {
    if es[n].eligible {
      var a := Anchor(es, n);
      forall i: nat | i <= n && Unbroken(es, i, n) ensures a <= i {
        if i < a {
          assert Unbroken(es, a - 1, n);
        }
      }
    } else {
      forall i: nat | i <= n ensures !Unbroken(es, i, n) {
        assert !es[n].eligible;
      }
    }
  }

  // ----- Wrapped indices against unbounded counters

  /** One sampling of the true, free-running counters, or a reset. */
  datatype Tally =
    | Counted(avail: int, used: int, now: real)
    | Cleared(now: real)

  /** What the agent sees: the low 16 bits. */
  function Wrapped(t: Tally, num: u32): Event {
    match t
    case Cleared(now) => Reset(now)
    case Counted(avail, used, now) => Reading(Low16(avail), Low16(used), num, now)
  }

  /** What an observer with unbounded counters would see. */
  function Exact(t: Tally, num: u32): Event {
    match t
    case Cleared(now) => Reset(now)
    case Counted(avail, used, now) => Seen(used, 0 < avail - used <= num, now)
  }

  /** Sampled counters stay within a lap of each other (a torn read may show `used` ahead by up to
      65535 - num); consecutive samples may be any distance apart. */
  predicate BacklogsWithinALap(ts: seq<Tally>, num: u32) {
    forall i :: 0 <= i < |ts| && ts[i].Counted? ==> num - 0x1_0000 < ts[i].avail - ts[i].used < 0x1_0000
  }

  /** In addition, consecutive samples are less than a lap apart. */
  predicate WithinALap(ts: seq<Tally>, num: u32) {
    && BacklogsWithinALap(ts, num)
    && (forall i :: 0 < i < |ts| && ts[i].Counted? && ts[i - 1].Counted? ==>
          -0x1_0000 < ts[i].used - ts[i - 1].used < 0x1_0000)
  }

  function WrappedRun(ts: seq<Tally>, num: u32): seq<Event> {
    seq(|ts|, i requires 0 <= i < |ts| => Wrapped(ts[i], num))
  }

  function ExactRun(ts: seq<Tally>, num: u32): seq<Event> {
    seq(|ts|, i requires 0 <= i < |ts| => Exact(ts[i], num))
  }

  /** At every step of every run the 16-bit machine gives the verdict of the unbounded one. */
  lemma {:induction false} WrapTransparent(ts: seq<Tally>, num: u32, n: nat, threshold: real)
    requires num <= 32768 && WithinALap(ts, num) && n < |ts|
    ensures var p := After(WrappedRun(ts, num), n + 1);
            var q := After(ExactRun(ts, num), n + 1);
            && p.since == q.since && p.eligible == q.eligible
            && (ts[n].Counted? ==> p.used == Low16(ts[n].used) && q.used == ts[n].used)
            && Ready(p, ts[n].now, threshold) == Ready(q, ts[n].now, threshold)
  {
    if n > 0 {
      WrapTransparent(ts, num, n - 1, threshold);
    }
    if ts[n].Counted? {
      WrappedBacklog(ts[n].avail, ts[n].used, num);
      if n > 0 && ts[n - 1].Counted? {
        WrappedEquality(ts[n].used, ts[n - 1].used);
      }
    }
  }

  /** A torn read that shows `used` ahead of `avail` by up to 32767 is never eligible, so it restarts
      the timer whatever the state before it. */
  lemma TornReadRestarts(p: State, avail: u16, ahead: nat, num: u32, now: real, threshold: real)
    requires 1 <= ahead <= 32767 && num <= 32768 && threshold > 0.0
    ensures var p' := Next(p, Reading(avail, Low16(avail + ahead), num, now));
            p'.since == now && !p'.eligible && !Ready(p', now, threshold)
  {
    WrappedBacklog(avail, avail + ahead, num);
  }

  /** The reading keeps the running timer. */
  predicate Keeps(p: State, e: Event) {
    e.Seen? && p.eligible && e.eligible && p.used == e.used
  }

  predicate Backlogged(t: Tally, num: u32) {
    t.Counted? && 0 < t.avail - t.used <= num
  }

  /** Samples `k - 1` and `k` both have a backlog, and a nonzero number of whole laps of completions lies between. */
  predicate MissedAt(ts: seq<Tally>, num: u32, k: nat)
    requires k < |ts|
  {
    && k > 0 && Backlogged(ts[k - 1], num) && Backlogged(ts[k], num)
    && ts[k].used != ts[k - 1].used && (ts[k].used - ts[k - 1].used) % 0x1_0000 == 0
  }

  /** The two machines judge backlogs alike and remember the same sample, one of them by its word. */
  lemma SameSample(ts: seq<Tally>, num: u32, n: nat)
    requires num <= 32768 && BacklogsWithinALap(ts, num) && n < |ts|
    ensures var p, q := After(WrappedRun(ts, num), n + 1), After(ExactRun(ts, num), n + 1);
            && p.eligible == q.eligible == Backlogged(ts[n], num)
            && (ts[n].Counted? ==> p.used == Low16(ts[n].used) && q.used == ts[n].used)
  {
    if ts[n].Counted? {
      WrappedBacklog(ts[n].avail, ts[n].used, num);
    }
  }

  /** At any step of any run the 16-bit machine and the unbounded one disagree on keeping the timer exactly when
      that step misses whole laps of progress. */
  lemma DecisionExact(ts: seq<Tally>, num: u32, k: nat)
    requires num <= 32768 && BacklogsWithinALap(ts, num) && k < |ts|
    ensures var w, x := WrappedRun(ts, num), ExactRun(ts, num);
            (Keeps(After(w, k), w[k]) != Keeps(After(x, k), x[k])) <==> MissedAt(ts, num, k)
  {
    SameSample(ts, num, k);
    if k > 0 {
      SameSample(ts, num, k - 1);
      if ts[k].Counted? && ts[k - 1].Counted? {
        SameWord(ts[k].used, ts[k - 1].used);
      }
    }
  }

  predicate StrictlyOrdered(ts: seq<Tally>) {
    forall i, j :: 0 <= i < j < |ts| ==> ts[i].now < ts[j].now
  }

  ghost predicate SameTimers(ts: seq<Tally>, num: u32, n: nat)
    requires n <= |ts|
  {
    forall k: nat :: k <= n ==> After(WrappedRun(ts, num), k).since == After(ExactRun(ts, num), k).since
  }

  /** A timer that runs was started no later than the last event. */
  lemma {:induction false} SinceIsPast(ts: seq<Tally>, num: u32, n: nat)
    requires StrictlyOrdered(ts) && 0 < n <= |ts|
    ensures After(WrappedRun(ts, num), n).since <= ts[n - 1].now
  {
    if n > 1 {
      SinceIsPast(ts, num, n - 1);
    }
  }

  /** The lap bound is exact: over every run, the timers of the two machines agree at every step up to `n` if and
      only if no step up to `n` misses whole laps of progress. */
  lemma {:induction false} LapBoundExact(ts: seq<Tally>, num: u32, n: nat)
    requires num <= 32768 && BacklogsWithinALap(ts, num) && StrictlyOrdered(ts) && n <= |ts|
    ensures SameTimers(ts, num, n) <==> forall k: nat :: k < n ==> !MissedAt(ts, num, k)
  {
    if n > 0 {
      LapBoundExact(ts, num, n - 1);
      DecisionExact(ts, num, n - 1);
      if n > 1 {
        SinceIsPast(ts, num, n - 1);
      }
      var w, x := WrappedRun(ts, num), ExactRun(ts, num);
      assert SameTimers(ts, num, n) <==> SameTimers(ts, num, n - 1) && After(w, n).since == After(x, n).since;
    }
  }

  /** Without the lap bound the machines differ: exactly 65536 completions between two samples are
      invisible to the agent, which then reports a stall that is not there. */
  lemma FullLapIsInvisible()
    ensures var ts := [Counted(1, 0, 0.0), Counted(0x1_0001, 0x1_0000, 1.0)];
            && Ready(After(WrappedRun(ts, 256), 2), 1.0, 1.0)
            && !Ready(After(ExactRun(ts, 256), 2), 1.0, 1.0)
  {
    var ts := [Counted(1, 0, 0.0), Counted(0x1_0001, 0x1_0000, 1.0)];
    var w, x := WrappedRun(ts, 256), ExactRun(ts, 256);
    assert w[0] == Seen(0, true, 0.0) && w[1] == Seen(0, true, 1.0);
    assert After(w, 1) == State(0.0, 0, true);
    assert After(w, 2) == State(0.0, 0, true);
    assert x[0] == Seen(0, true, 0.0) && x[1] == Seen(0x1_0000, true, 1.0);
    assert After(x, 2).since == 1.0;
  }
}
