/** The stall detector of the plain loop (internal/watch/model.go). */
module Detectors {
  import opened Words
  import opened Snapshots
  import opened Budgets

  /** One sample of a queue: the live snapshot, the ring words and the busy flag. */
  datatype Sample = Sample(s: Snapshot, avail: u16, used: u16, busy: bool)

  function Pending(x: Sample): u16 {
    Sub16(x.avail, x.s.lastAvail)
  }

  function Outstanding(x: Sample): u16 {
    Sub16(x.avail, x.used)
  }

  /** Unconsumed work that fits the ring, with vhost idle. */
  predicate Eligible(x: Sample) {
    0 < Pending(x) <= x.s.num && Outstanding(x) <= x.s.num && !x.busy
  }

  /** What the timer looks at. The machine is also run over unbounded counters, so the two counters
      are `int`s. */
  datatype Reading = Reading(identity: Snapshot, used: int, consumed: int, eligible: bool)

  function Read(x: Sample): Reading {
    Reading(Identity(x.s), x.used, x.s.lastAvail, Eligible(x))
  }

  datatype Timer = Timer(since: real, reported: bool, identity: Snapshot, used: int, consumed: int, have: bool)

  const UNSTARTED := Timer(0.0, false, ZERO, 0, 0, false)

  /** A successful sample, or a failed one: the error path restarts the timer but keeps the remembered
      sample (internal/watch/run_linux.go:316-319). */
  datatype Event =
    | Seen(r: Reading, now: real)
    | Failed(now: real)

  predicate Unchanged(t: Timer, r: Reading) {
    t.have && t.identity == r.identity && t.used == r.used && t.consumed == r.consumed
  }

  function Observed(t: Timer, r: Reading, now: real): Timer {
    var keep := Unchanged(t, r) && r.eligible;
    Timer(if keep then t.since else now, keep && t.reported, r.identity, r.used, r.consumed, true)
  }

  /** The verdict Observe returns, given the timer it leaves. */
  predicate Stalled(t: Timer, r: Reading, now: real, threshold: real) {
    r.eligible && now - t.since >= threshold
  }

  function Interrupted(t: Timer, now: real): Timer {
    t.(since := now, reported := false)
  }

  // ----- The object

  class Detector {
    const threshold: real
    const limits: Limits
    var since: real
    var lastKick: Stamp
    var reported: bool
    var identity: Snapshot
    var used: u16
    var consumed: u16
    var have: bool
    var buffer: array<real>
    var count: nat

    ghost predicate Valid()
      reads this
    {
      count <= buffer.Length
    }

    ghost function TimerValue(): Timer
      reads this
    {
      Timer(since, reported, identity, used, consumed, have)
    }

    ghost function BudgetValue(): Budget
      requires Valid()
      reads this, buffer
    {
      Budget(lastKick, buffer[..count])
    }

    constructor (threshold: real, limits: Limits)
      ensures Valid() && fresh(buffer)
      ensures this.threshold == threshold && this.limits == limits
      ensures TimerValue() == UNSTARTED && BudgetValue() == FRESH
    {
      this.threshold, this.limits := threshold, limits;
      since, reported, identity, used, consumed, have := 0.0, false, ZERO, 0, 0, false;
      lastKick := NegInf;
      buffer := new real[0];
      count := 0;
    }

    method Observe(s: Snapshot, avail: u16, used: u16, busy: bool, now: real) returns (stalled: bool)
      requires Valid()
      modifies this
      ensures Valid() && buffer == old(buffer) && BudgetValue() == old(BudgetValue())
      ensures TimerValue() == Observed(old(TimerValue()), Read(Sample(s, avail, used, busy)), now)
      ensures stalled == Stalled(TimerValue(), Read(Sample(s, avail, used, busy)), now, threshold)
    {
      var pending, outstanding := Sub16(avail, s.lastAvail), Sub16(avail, used);
      var invalid := pending > s.num || outstanding > s.num;
      if !have || identity != Identity(s) || this.used != used || consumed != s.lastAvail
         || pending == 0 || busy || invalid {
        since, reported := now, false;
      }
      identity, this.used, consumed, have := Identity(s), used, s.lastAvail, true;
      stalled := pending > 0 && !invalid && !busy && now - since >= threshold;
    }

    /** Compacts the attempts in place: `kept` shares the buffer it is filtered from. */
    method Allowed(now: real) returns (allowed: bool)
      requires Valid()
      modifies this, buffer
      ensures Valid() && buffer == old(buffer) && TimerValue() == old(TimerValue())
      ensures BudgetValue() == Pruned(old(BudgetValue()), now)
      ensures allowed == Budgets.Allowed(old(BudgetValue()), now, limits)
    {
      ghost var was := buffer[..count];
      var kept := 0;
      for i := 0 to count
        modifies buffer
        invariant kept <= i
        invariant buffer[..kept] == Prune(was[..i], now)
        invariant forall k :: i <= k < count ==> buffer[k] == was[k]
      {
        var t := buffer[i];
        assert t == was[i] && was[..i + 1][..i] == was[..i];
        if now - t < WINDOW {
          buffer[kept] := t;
          kept := kept + 1;
        }
      }
      assert was[..count] == was;
      count := kept;
      allowed := Elapsed(lastKick, now, limits.cooldown) && count < limits.maximum;
    }

    method Kicked(now: real)
      requires Valid()
      modifies this, buffer
      ensures Valid() && (buffer == old(buffer) || fresh(buffer)) && TimerValue() == old(TimerValue())
      ensures BudgetValue() == Budgets.Kicked(old(BudgetValue()), now)
    {
      lastKick := At(now);
      if count == buffer.Length {
        var old' := buffer;
        var grown := new real[2 * count + 1];
        forall i | 0 <= i < count {
          grown[i] := old'[i];
        }
        buffer := grown;
      }
      buffer[count] := now;
      count := count + 1;
    }
  }

  // ----- Every run

  /** The events a detector goes through. A verdict is reported once per timer interval
      (internal/watch/run_linux.go:261-266). */
  function Next(t: Timer, e: Event, threshold: real): Timer {
    match e
    case Failed(now) => Interrupted(t, now)
    case Seen(r, now) =>
      var t' := Observed(t, r, now);
      if Stalled(t', r, now, threshold) then t'.(reported := true) else t'
  }

  function After(es: seq<Event>, n: nat, threshold: real): Timer
    requires n <= |es|
  {
    if n == 0 then UNSTARTED else Next(After(es, n - 1, threshold), es[n - 1], threshold)
  }

  lemma {:induction false} AfterPrefix(es: seq<Event>, more: seq<Event>, n: nat, threshold: real)
    requires n <= |es|
    ensures After(es + more, n, threshold) == After(es, n, threshold)
  {
    if n > 0 {
      AfterPrefix(es, more, n - 1, threshold);
      assert (es + more)[n - 1] == es[n - 1];
    }
  }

  /** The timer moved on by further events. */
  function Continued(t: Timer, more: seq<Event>, threshold: real): Timer {
    if more == [] then t
    else Next(Continued(t, more[..|more| - 1], threshold), more[|more| - 1], threshold)
  }

  lemma {:induction false} AfterConcat(es: seq<Event>, more: seq<Event>, threshold: real)
    ensures After(es + more, |es + more|, threshold) == Continued(After(es, |es|, threshold), more, threshold)
  {
    if more == [] {
      assert es + more == es;
    } else {
      var init := more[..|more| - 1];
      AfterConcat(es, init, threshold);
      assert es + more == (es + init) + [more[|more| - 1]];
      AfterPrefix(es + init, [more[|more| - 1]], |es + init|, threshold);
    }
  }

  predicate Ordered(es: seq<Event>) {
    forall i, j :: 0 <= i <= j < |es| ==> es[i].now <= es[j].now
  }

  /** Observe answers yes at event `n`. */
  predicate StallsAt(es: seq<Event>, n: nat, threshold: real)
    requires n < |es|
  {
    && es[n].Seen?
    && Stalled(Observed(After(es, n, threshold), es[n].r, es[n].now), es[n].r, es[n].now, threshold)
  }

  /** The "stall" event is emitted at event `n`. */
  predicate ReportsAt(es: seq<Event>, n: nat, threshold: real)
    requires n < |es|
  {
    StallsAt(es, n, threshold) && !Observed(After(es, n, threshold), es[n].r, es[n].now).reported
  }

  /** The latest sample before event `n`. */
  function LastSample(es: seq<Event>, n: nat): (r: Option<nat>)
    requires n <= |es|
    ensures r.Some? ==> r.value < n && es[r.value].Seen?
  {
    if n == 0 then None else if es[n - 1].Seen? then Some(n - 1) else LastSample(es, n - 1)
  }

  /** Event `n` is a resetting one, in terms of the samples alone: a failed sample, the first sample,
      an ineligible one, or one that changed identity, used or consumed since the sample before. */
  predicate Restarts(es: seq<Event>, n: nat)
    requires n < |es|
  {
    match es[n]
    case Failed(_) => true
    case Seen(r, _) =>
      var p := LastSample(es, n);
      p.None? || !r.eligible || es[p.value].r.(eligible := r.eligible) != r
  }

  /** No event after `i` up to and including `n` restarts the timer. */
  predicate QuietSince(es: seq<Event>, i: nat, n: nat)
    requires i <= n < |es|
  {
    forall k :: i < k <= n ==> !Restarts(es, k)
  }

  /** The timer remembers the latest sample. */
  lemma {:induction false} RemembersLastSample(es: seq<Event>, n: nat, threshold: real)
    requires n <= |es|
    ensures var t := After(es, n, threshold);
            match LastSample(es, n)
            case None => !t.have
            case Some(p) => t.have && Reading(t.identity, t.used, t.consumed, es[p].r.eligible) == es[p].r
  {
    if n > 0 {
      RemembersLastSample(es, n - 1, threshold);
    }
  }

  /** The anchor of the timer is the latest resetting event. */
  lemma {:induction false} Anchor(es: seq<Event>, n: nat, threshold: real) returns (a: nat)
    requires n < |es|
    ensures a <= n && Restarts(es, a) && QuietSince(es, a, n)
    ensures After(es, n + 1, threshold).since == es[a].now
  {
    RemembersLastSample(es, n, threshold);
    if Restarts(es, n) {
      a := n;
    } else {
      a := Anchor(es, n - 1, threshold);
    }
  }

  /** A stall verdict holds exactly when the current sample is eligible and some event at least
      `threshold` ago was followed by no resetting event at all. */
  lemma StallVerdictExact(es: seq<Event>, n: nat, threshold: real)
    requires Ordered(es) && n < |es| && es[n].Seen?
    ensures StallsAt(es, n, threshold) <==>
            && es[n].r.eligible
            && exists i: nat :: i <= n && QuietSince(es, i, n) && es[n].now - es[i].now >= threshold
  {
    var a := Anchor(es, n, threshold);
    assert After(es, n + 1, threshold).since == Observed(After(es, n, threshold), es[n].r, es[n].now).since;
    forall i: nat | i <= n && QuietSince(es, i, n) ensures a <= i {
    }
  }

  /** Event `i` was judged stalled and nothing has restarted the timer since. */
  predicate ToldSince(es: seq<Event>, i: nat, n: nat, threshold: real)
    requires i <= n < |es|
  {
    StallsAt(es, i, threshold) && QuietSince(es, i, n)
  }

  /** The stall that may be judged at event `n` was judged by event `m` already. */
  predicate ToldBy(es: seq<Event>, m: nat, n: nat, threshold: real)
    requires m <= n < |es|
  {
    exists i: nat :: i <= m && ToldSince(es, i, n, threshold)
  }

  /** A restart clears what was told before it, and nothing else does. */
  lemma ToldGrows(es: seq<Event>, m: nat, n: nat, threshold: real)
    requires m + 1 == n < |es|
    ensures ToldBy(es, m, n, threshold) <==> !Restarts(es, n) && ToldBy(es, m, m, threshold)
  {
    forall i: nat | i <= m
      ensures ToldSince(es, i, n, threshold) <==> !Restarts(es, n) && ToldSince(es, i, m, threshold)
    {
      assert QuietSince(es, i, n) ==> !Restarts(es, n);
    }
  }

  lemma {:induction false} ReportedExact(es: seq<Event>, n: nat, threshold: real)
    requires n < |es|
    ensures After(es, n + 1, threshold).reported <==> ToldBy(es, n, n, threshold)
  {
    RemembersLastSample(es, n, threshold);
    assert StallsAt(es, n, threshold) <==> ToldSince(es, n, n, threshold);
    if n > 0 {
      ReportedExact(es, n - 1, threshold);
      ToldGrows(es, n - 1, n, threshold);
    }
  }

  /** A stall is reported exactly when it is judged and no judgement since the latest restart came before it. */
  lemma ReportExact(es: seq<Event>, n: nat, threshold: real)
    requires n < |es|
    ensures ReportsAt(es, n, threshold) <==>
            StallsAt(es, n, threshold) && forall i: nat :: i < n ==> !ToldSince(es, i, n, threshold)
  {
    RemembersLastSample(es, n, threshold);
    if n > 0 {
      ReportedExact(es, n - 1, threshold);
      ToldGrows(es, n - 1, n, threshold);
    }
  }

  /** Two stall reports are at least a threshold apart and the timer was restarted between them. */
  lemma StallReportsSpaced(es: seq<Event>, i: nat, j: nat, threshold: real)
    requires Ordered(es) && threshold > 0.0 && i < j < |es|
    requires ReportsAt(es, i, threshold) && ReportsAt(es, j, threshold)
    ensures exists k: nat :: i < k < j && Restarts(es, k) && es[j].now - es[k].now >= threshold
    ensures es[j].now - es[i].now >= threshold
  {
    var a := Anchor(es, j, threshold);
    ReportExact(es, j, threshold);
    assert !ToldSince(es, i, j, threshold);
    assert es[i].now <= es[a].now;
  }

  // ----- Wrapped indices against unbounded counters

  /** One sampling of the true counters: published, completed and consumed. */
  datatype Tally =
    | Counted(s: Snapshot, avail: int, used: int, consumed: int, busy: bool, now: real)
    | Lost(now: real)

  function WrappedSample(t: Tally): Sample
    requires t.Counted?
  {
    Sample(t.s.(lastAvail := Low16(t.consumed)), Low16(t.avail), Low16(t.used), t.busy)
  }

  function Wrapped(t: Tally): Event {
    if t.Lost? then Failed(t.now) else Seen(Read(WrappedSample(t)), t.now)
  }

  function Exact(t: Tally): Event {
    match t
    case Lost(now) => Failed(now)
    case Counted(s, avail, used, consumed, busy, now) =>
      Seen(Reading(Identity(s), used, consumed,
                   0 < avail - consumed <= s.num && 0 <= avail - used <= s.num && !busy), now)
  }

  function WrappedRun(ts: seq<Tally>): seq<Event> {
    seq(|ts|, i requires 0 <= i < |ts| => Wrapped(ts[i]))
  }

  function ExactRun(ts: seq<Tally>): seq<Event> {
    seq(|ts|, i requires 0 <= i < |ts| => Exact(ts[i]))
  }

  /** Every sample has its counters within a lap of each other; consecutive samples may be any distance apart. */
  ghost predicate BacklogsWithinALap(ts: seq<Tally>) {
    forall i :: 0 <= i < |ts| && ts[i].Counted? ==>
      && ts[i].s.num <= 32768
      && ts[i].s.num - 0x1_0000 < ts[i].avail - ts[i].used < 0x1_0000
      && ts[i].s.num - 0x1_0000 < ts[i].avail - ts[i].consumed < 0x1_0000
  }

  /** In addition, consecutive samples of one attachment are less than a lap apart. */
  ghost predicate WithinALap(ts: seq<Tally>) {
    && BacklogsWithinALap(ts)
    && (forall i: nat, p: nat ::
          (i < |ts| && ts[i].Counted? && LastSample(ExactRun(ts), i) == Some(p)
           && Identity(ts[p].s) == Identity(ts[i].s)) ==>
          && -0x1_0000 < ts[i].used - ts[p].used < 0x1_0000
          && -0x1_0000 < ts[i].consumed - ts[p].consumed < 0x1_0000)
  }

  lemma {:induction false} SameLastSample(ts: seq<Tally>, n: nat)
    requires n <= |ts|
    ensures LastSample(WrappedRun(ts), n) == LastSample(ExactRun(ts), n)
  {
    if n > 0 {
      SameLastSample(ts, n - 1);
    }
  }

  /** Two counts a whole number of laps apart. */
  predicate WholeLaps(a: int, b: int) {
    (a - b) % 0x1_0000 == 0
  }

  /** Sample `n` is eligible and of the attachment of the sample before it; both counters moved by whole laps
      only, and at least one of them moved. */
  ghost predicate MissedAt(ts: seq<Tally>, n: nat)
    requires n < |ts|
  {
    && ts[n].Counted? && Exact(ts[n]).r.eligible
    && var last := LastSample(ExactRun(ts), n);
       && last.Some?
       && var t, p := ts[n], ts[last.value];
          && Identity(p.s) == Identity(t.s)
          && WholeLaps(t.used, p.used) && WholeLaps(t.consumed, p.consumed)
          && (t.used != p.used || t.consumed != p.consumed)
  }

  lemma SameEligibility(ts: seq<Tally>, n: nat)
    requires BacklogsWithinALap(ts) && n < |ts| && ts[n].Counted?
    ensures Wrapped(ts[n]).r.eligible == Exact(ts[n]).r.eligible
  {
    WrappedBacklog(ts[n].avail, ts[n].used, ts[n].s.num);
    WrappedBacklog(ts[n].avail, ts[n].consumed, ts[n].s.num);
  }

  /** At any step of any run the 16-bit detector and the unbounded one disagree on restarting the timer exactly
      when that step misses whole laps of progress. */
  lemma DecisionExact(ts: seq<Tally>, n: nat)
    requires BacklogsWithinALap(ts) && n < |ts|
    ensures (Restarts(WrappedRun(ts), n) != Restarts(ExactRun(ts), n)) <==> MissedAt(ts, n)
  {
    SameLastSample(ts, n);
    if ts[n].Counted? {
      SameEligibility(ts, n);
      var p := LastSample(ExactRun(ts), n);
      if p.Some? {
        SameWord(ts[n].used, ts[p.value].used);
        SameWord(ts[n].consumed, ts[p.value].consumed);
      }
    }
  }

  /** Within a lap no progress is missed. */
  lemma SameReading(ts: seq<Tally>, n: nat)
    requires WithinALap(ts) && n < |ts|
    ensures Restarts(WrappedRun(ts), n) == Restarts(ExactRun(ts), n)
    ensures ts[n].Counted? ==> Wrapped(ts[n]).r.eligible == Exact(ts[n]).r.eligible
  {
    DecisionExact(ts, n);
    if ts[n].Counted? {
      SameEligibility(ts, n);
    }
  }

  /** At every step of every run the 16-bit detector gives the verdict and the report of the unbounded one. */
  lemma {:induction false} WrapTransparent(ts: seq<Tally>, n: nat, threshold: real)
    requires WithinALap(ts) && n < |ts|
    ensures var w, x := WrappedRun(ts), ExactRun(ts);
            && StallsAt(w, n, threshold) == StallsAt(x, n, threshold)
            && ReportsAt(w, n, threshold) == ReportsAt(x, n, threshold)
            && After(w, n + 1, threshold).since == After(x, n + 1, threshold).since
            && After(w, n + 1, threshold).reported == After(x, n + 1, threshold).reported
  {
    var w, x := WrappedRun(ts), ExactRun(ts);
    if n > 0 {
      WrapTransparent(ts, n - 1, threshold);
    }
    SameReading(ts, n);
    RemembersLastSample(w, n, threshold);
    RemembersLastSample(x, n, threshold);
  }

  predicate StrictlyOrdered(ts: seq<Tally>) {
    forall i, j :: 0 <= i < j < |ts| ==> ts[i].now < ts[j].now
  }

  ghost predicate SameTimers(ts: seq<Tally>, n: nat, threshold: real)
    requires n <= |ts|
  {
    forall k: nat :: k <= n ==> SameTimer(ts, k, threshold)
  }

  ghost predicate SameTimer(ts: seq<Tally>, k: nat, threshold: real)
    requires k <= |ts|
  {
    After(WrappedRun(ts), k, threshold).since == After(ExactRun(ts), k, threshold).since
  }

  /** A restart sets the timer to the time of the event; anything else leaves it. */
  lemma SinceStep(es: seq<Event>, n: nat, threshold: real)
    requires n < |es|
    ensures After(es, n + 1, threshold).since == if Restarts(es, n) then es[n].now else After(es, n, threshold).since
  {
    RemembersLastSample(es, n, threshold);
  }

  lemma {:induction false} SinceIsPast(ts: seq<Tally>, n: nat, threshold: real)
    requires StrictlyOrdered(ts) && 0 < n <= |ts|
    ensures After(WrappedRun(ts), n, threshold).since <= ts[n - 1].now
  {
    if n > 1 {
      SinceIsPast(ts, n - 1, threshold);
    }
    SinceStep(WrappedRun(ts), n - 1, threshold);
  }

  /** The lap bound is exact: over every run, the timers of the two detectors agree at every step up to `n` if and
      only if no step up to `n` misses whole laps of progress. */
  lemma {:induction false} LapBoundExact(ts: seq<Tally>, n: nat, threshold: real)
    requires BacklogsWithinALap(ts) && StrictlyOrdered(ts) && n <= |ts|
    ensures SameTimers(ts, n, threshold) <==> forall k: nat :: k < n ==> !MissedAt(ts, k)
  {
    if n > 0 {
      LapBoundExact(ts, n - 1, threshold);
      if SameTimer(ts, n - 1, threshold) {
        TimerStep(ts, n - 1, threshold);
      }
    }
  }

  /** Timers that agree before an event agree after it exactly when it misses no progress. */
  lemma TimerStep(ts: seq<Tally>, m: nat, threshold: real)
    requires BacklogsWithinALap(ts) && StrictlyOrdered(ts) && m < |ts|
    requires SameTimer(ts, m, threshold)
    ensures SameTimer(ts, m + 1, threshold) <==> !MissedAt(ts, m)
  {
    var w, x := WrappedRun(ts), ExactRun(ts);
    assert w[m].now == ts[m].now && x[m].now == ts[m].now;
    SinceStep(w, m, threshold);
    SinceStep(x, m, threshold);
    assert Restarts(w, m) != Restarts(x, m) <==> MissedAt(ts, m) by {
      DecisionExact(ts, m);
    }
    if m > 0 {
      SinceIsPast(ts, m, threshold);
    }
  }

  /** Two samples of an ordinary queue, with exactly 65536 packets consumed and completed in between. */
  function FullLap(): seq<Tally> {
    [Counted(SAMPLE, 1, 0, 0, false, 0.0), Counted(SAMPLE, 0x1_0001, 0x1_0000, 0x1_0000, false, 1.0)]
  }

  /** What the two detectors read. */
  lemma FullLapReadings()
    ensures var r := Reading(Identity(SAMPLE), 0, 0, true);
            && WrappedRun(FullLap()) == [Seen(r, 0.0), Seen(r, 1.0)]
            && ExactRun(FullLap()) == [Seen(r, 0.0), Seen(r.(used := 0x1_0000, consumed := 0x1_0000), 1.0)]
  {
    var ts, r := FullLap(), Reading(Identity(SAMPLE), 0, 0, true);
    assert Wrapped(ts[0]) == Seen(r, 0.0) && Wrapped(ts[1]) == Seen(r, 1.0);
    assert Exact(ts[0]) == Seen(r, 0.0);
  }

  /** A second eligible sample is a stall exactly when it shows what the first one showed. */
  lemma SecondSample(r: Reading, r': Reading)
    requires r.eligible && r'.eligible
    ensures StallsAt([Seen(r, 0.0), Seen(r', 1.0)], 1, 1.0) <==> r == r'
  {
    var es := [Seen(r, 0.0), Seen(r', 1.0)];
    assert After(es, 1, 1.0) == Next(UNSTARTED, es[0], 1.0);
  }

  /** Without the lap bound the detectors differ: the lap is invisible to the agent, which then reports a stall that is
      not there. */
  lemma FullLapIsInvisible()
    ensures Validate(SAMPLE).Valid? && BacklogsWithinALap(FullLap())
    ensures StallsAt(WrappedRun(FullLap()), 1, 1.0) && !StallsAt(ExactRun(FullLap()), 1, 1.0)
  {
    assert Validate(SAMPLE).Valid? by {
      SampleIsValid();
    }
    var r := Reading(Identity(SAMPLE), 0, 0, true);
    FullLapReadings();
    SecondSample(r, r);
    SecondSample(r, r.(used := 0x1_0000, consumed := 0x1_0000));
  }

  /** A torn read with `used` ahead of `avail` by up to 32767 is rejected and restarts the timer. */
  lemma TornReadRestarts(t: Timer, s: Snapshot, avail: u16, ahead: nat, busy: bool, now: real, threshold: real)
    requires 1 <= ahead <= 32767 && s.num <= 32768
    ensures var r := Read(Sample(s, avail, Low16(avail + ahead), busy));
            var t' := Observed(t, r, now);
            t'.since == now && !t'.reported && !Stalled(t', r, now, threshold)
  {
    WrappedBacklog(avail, avail + ahead, s.num);
  }
}
