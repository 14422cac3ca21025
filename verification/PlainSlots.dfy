/** One FD slot of the plain loop (internal/watch/run_linux.go): the entries of its maps `snapshots`,
    `states` and `pending`. */
module PlainSlots {
  import opened Words
  import opened Snapshots
  import opened Budgets
  import opened Policies
  import opened Detectors

  /** A Detector, seen as its stall timer and its recovery budget. */
  datatype Watch = Watch(timer: Timer, budget: Budget)

  const FRESH_WATCH := Watch(UNSTARTED, FRESH)

  datatype Slot = Slot(snapshot: Option<Snapshot>, watch: Option<Watch>, pending: Option<Verification>)

  const VACANT := Slot(None, None, None)

  /** The counters consulted for busyness; the handler time is in seconds. */
  datatype Counters = Counters(active: u64, lastHandler: real)

  /** What the environment answers while one listed FD is visited. `second` answers the snapshot taken
      again after an identity change; `logged` says whether the log still accepts events when it is
      checked before recovery; the last four fields answer the recovery attempt. */
  datatype Visit = Visit(
    now: real, duplicated: bool, first: Option<Snapshot>, second: Option<Snapshot>,
    ring: Option<(u16, u16)>, counters: Option<Counters>, logged: bool,
    cancelled: bool, listed: Option<bool>, reduplicated: bool, rekicked: bool)

  datatype Input =
    | Visited(v: Visit)
    /** The FD is not in the current inventory. */
    | Unlisted(at: real)

  function Time(i: Input): real {
    match i
    case Visited(v) => v.now
    case Unlisted(at) => at
  }

  datatype Ending = Progressed(stalled: bool) | TimedOut | Abandoned

  /** What one step does besides moving the slot: whether it sampled the queue and with which verdict, the
      log events, and the verification that ended or started. */
  datatype Emitted = Emitted(
    sampled: bool, stalled: bool, stall: bool, kick: bool, ended: Option<Ending>, started: bool, unavailable: bool)

  const SILENT := Emitted(false, false, false, false, None, false, false)

  datatype Outcome = Outcome(slot: Slot, emitted: Emitted, events: seq<Event>)

  /** The error path: the timer restarts, an outstanding verification is abandoned. */
  function Failing(slot: Slot, e: Emitted, events: seq<Event>, now: real): Outcome {
    Outcome(
      slot.(watch := if slot.watch.None? then None
                     else Some(slot.watch.value.(timer := Interrupted(slot.watch.value.timer, now))),
            pending := None),
      e.(unavailable := true, ended := if slot.pending.Some? then Some(Abandoned) else e.ended),
      if slot.watch.None? then events else events + [Failed(now)])
  }

  predicate IdentityChanged(slot: Slot, v: Visit) {
    slot.snapshot.Some? && v.first.Some? && Identity(slot.snapshot.value) != Identity(v.first.value)
  }

  function SampleOf(c: Policy, s: Snapshot, ring: (u16, u16), k: Counters, now: real): Sample {
    Sample(s, ring.0, ring.1, Busy(s) || k.active != 0 || now - k.lastHandler < c.interval)
  }

  function Judged(c: Policy, v: Option<Verification>, x: Sample, now: real): Option<Ending> {
    if v.None? then None
    else if x.used != v.value.used && x.s.lastAvail != v.value.consumed then Some(Progressed(v.value.stalled))
    else if now - v.value.at >= c.verifyTimeout then Some(TimedOut)
    else None
  }

  /** The recovery decision for a sampled queue. */
  function Recovering(c: Policy, slot: Slot, e: Emitted, events: seq<Event>, x: Sample, v: Visit): Outcome
    requires slot.watch.Some?
  {
    var w := slot.watch.value;
    var periodic := c.mode.Periodic? && Elapsed(w.budget.lastKick, v.now, c.kickInterval);
    var asks := c.mode.Guarded? && e.stalled;
    var guarded := asks && Allowed(w.budget, v.now, c.limits);
    var slot' := slot.(watch := Some(w.(budget := if asks then Pruned(w.budget, v.now) else w.budget)));
    if !(periodic || guarded) || v.cancelled then
      Outcome(slot', e, events)
    else if (guarded && v.listed != Some(true)) || !v.reduplicated || !v.rekicked then
      Failing(slot', e, events, v.now)
    else
      var b := if guarded then Kicked(slot'.watch.value.budget, v.now)
               else w.budget.(lastKick := At(v.now));
      var starts := Pending(x) > 0 && slot.pending.None?;
      Outcome(
        slot'.(watch := Some(w.(budget := b)),
               pending := if starts then Some(Verification(v.now, x.used, x.s.lastAvail, guarded || e.stalled))
                          else slot.pending),
        e.(kick := true, started := starts),
        events)
  }

  /** Observe, judge the outstanding verification, report a stall, then recover. */
  function Sampled(c: Policy, slot: Slot, e0: Emitted, x: Sample, v: Visit): Outcome
    requires slot.watch.Some?
  {
    var w, r := slot.watch.value, Read(x);
    var t := Observed(w.timer, r, v.now);
    var stalled := Stalled(t, r, v.now, c.threshold);
    var ended := Judged(c, slot.pending, x, v.now);
    var slot' := slot.(watch := Some(w.(timer := if stalled then t.(reported := true) else t)),
                       pending := if ended.Some? then None else slot.pending);
    var e := e0.(sampled := true, stalled := stalled, stall := stalled && !t.reported,
                 ended := if ended.Some? then ended else e0.ended);
    var events := [Seen(r, v.now)];
    if !v.logged then Failing(slot', e, events, v.now)
    else Recovering(c, slot', e, events, x, v)
  }

  function Visiting(c: Policy, slot: Slot, v: Visit): Outcome {
    if !v.duplicated || v.first.None? then Failing(slot, SILENT, [], v.now)
    else
      var changed := IdentityChanged(slot, v);
      var e := SILENT.(ended := if changed && slot.pending.Some? then Some(Abandoned) else None);
      var slot' := if changed then slot.(pending := None) else slot;
      if changed && v.second.None? then Failing(slot', e, [], v.now)
      else
        var s := if changed then v.second.value else v.first.value;
        var slot'' := slot'.(snapshot := Some(s),
                             watch := Some(if slot.watch.Some? then slot.watch.value else FRESH_WATCH));
        if v.ring.None? || v.counters.None? then Failing(slot'', e, [], v.now)
        else Sampled(c, slot'', e, SampleOf(c, s, v.ring.value, v.counters.value, v.now), v)
  }

  /** A visit that gets as far as sampling. */
  predicate Samples(slot: Slot, v: Visit) {
    v.duplicated && v.first.Some? && (IdentityChanged(slot, v) ==> v.second.Some?) && v.ring.Some? && v.counters.Some?
  }

  /** The snapshot it samples, the slot it samples into and what it has emitted by then. */
  function Pictured(slot: Slot, v: Visit): Snapshot
    requires Samples(slot, v)
  {
    if IdentityChanged(slot, v) then v.second.value else v.first.value
  }

  function Admitted(slot: Slot, v: Visit): (r: Slot)
    requires Samples(slot, v)
    ensures r.watch.Some?
  {
    (if IdentityChanged(slot, v) then slot.(pending := None) else slot).(
      snapshot := Some(Pictured(slot, v)),
      watch := Some(if slot.watch.Some? then slot.watch.value else FRESH_WATCH))
  }

  function Opening(slot: Slot, v: Visit): Emitted {
    SILENT.(ended := if IdentityChanged(slot, v) && slot.pending.Some? then Some(Abandoned) else None)
  }

  /** The sample it takes. */
  function Taking(c: Policy, slot: Slot, v: Visit): Sample
    requires Samples(slot, v)
  {
    SampleOf(c, Pictured(slot, v), v.ring.value, v.counters.value, v.now)
  }

  lemma VisitSamples(c: Policy, slot: Slot, v: Visit)
    requires Samples(slot, v)
    ensures Visiting(c, slot, v) ==
            Sampled(c, Admitted(slot, v), Opening(slot, v), Taking(c, slot, v), v)
  {
  }

  function Leaving(slot: Slot): Outcome {
    if slot.snapshot.None? then Outcome(slot, SILENT, [])
    else Outcome(slot.(snapshot := None, pending := None),
                 SILENT.(ended := if slot.pending.Some? then Some(Abandoned) else None), [])
  }

  function Step(c: Policy, slot: Slot, i: Input): Outcome {
    match i
    case Visited(v) => Visiting(c, slot, v)
    case Unlisted(_) => Leaving(slot)
  }

  // ----- Runs

  /** One step of a run, with what it did. */
  datatype Turn = Turn(before: Slot, input: Input, o: Outcome)

  ghost predicate Legal(c: Policy, t: Turn) {
    t.o == Step(c, t.before, t.input)
  }

  ghost predicate Linked(tr: seq<Turn>, n: nat)
    requires n < |tr|
  {
    tr[n].before == if n == 0 then VACANT else tr[n - 1].o.slot
  }

  /** A run of one slot: any inputs at nondecreasing times, from the vacant slot on. */
  ghost predicate IsRun(c: Policy, tr: seq<Turn>) {
    && (forall n: nat {:trigger Legal(c, tr[n])} :: n < |tr| ==> Legal(c, tr[n]))
    && (forall n: nat {:trigger Linked(tr, n)} :: n < |tr| ==> Linked(tr, n))
    && (forall i, j :: 0 <= i <= j < |tr| ==> Time(tr[i].input) <= Time(tr[j].input))
  }

  /** The slot a run has reached. */
  ghost function Reached(tr: seq<Turn>): Slot {
    if tr == [] then VACANT else tr[|tr| - 1].o.slot
  }

  lemma RunGrows(c: Policy, tr: seq<Turn>, i: Input)
    requires IsRun(c, tr) && (tr == [] || Time(tr[|tr| - 1].input) <= Time(i))
    ensures IsRun(c, tr + [Turn(Reached(tr), i, Step(c, Reached(tr), i))])
  {
    var t := Turn(Reached(tr), i, Step(c, Reached(tr), i));
    var tr' := tr + [t];
    forall n: nat | n < |tr'| ensures Legal(c, tr'[n]) && Linked(tr', n) {
      if n < |tr| {
        assert Legal(c, tr[n]) && Linked(tr, n);
      }
    }
  }

  // ----- The stall timer

  function TimerOf(slot: Slot): Timer {
    if slot.watch.Some? then slot.watch.value.timer else UNSTARTED
  }

  /** The outcome moves the timer by exactly the events it lists, all at `now`; a sample, if any, comes first
      and carries the verdict and the report. */
  predicate Timed(c: Policy, t: Timer, now: real, o: Outcome) {
    && TimerOf(o.slot) == Continued(t, o.events, c.threshold)
    && (forall k :: 0 <= k < |o.events| ==> o.events[k].now == now)
    && (o.emitted.sampled <==> |o.events| > 0 && o.events[0].Seen?)
    && (o.emitted.stalled <==>
        o.emitted.sampled && Stalled(Observed(t, o.events[0].r, now), o.events[0].r, now, c.threshold))
    && (o.emitted.stall <==> o.emitted.stalled && !Observed(t, o.events[0].r, now).reported)
  }

  lemma OneEvent(t: Timer, e: Event, threshold: real)
    ensures Continued(t, [e], threshold) == Next(t, e, threshold)
  {
    assert [e][..0] == [];
  }

  lemma TwoEvents(t: Timer, e: Event, e': Event, threshold: real)
    ensures Continued(t, [e, e'], threshold) == Next(Next(t, e, threshold), e', threshold)
  {
    assert [e, e'][..1] == [e];
    OneEvent(t, e, threshold);
  }

  lemma SampledTimed(c: Policy, slot: Slot, e0: Emitted, x: Sample, v: Visit)
    requires slot.watch.Some?
    ensures Timed(c, TimerOf(slot), v.now, Sampled(c, slot, e0, x, v))
  {
    var r := Seen(Read(x), v.now);
    OneEvent(TimerOf(slot), r, c.threshold);
    TwoEvents(TimerOf(slot), r, Failed(v.now), c.threshold);
    assert [r] + [Failed(v.now)] == [r, Failed(v.now)];
    var o := Sampled(c, slot, e0, x, v);
    assert o.events == [r] || o.events == [r, Failed(v.now)];
  }

  lemma StepTimed(c: Policy, slot: Slot, i: Input)
    ensures Timed(c, TimerOf(slot), Time(i), Step(c, slot, i))
  {
    OneEvent(TimerOf(slot), Failed(Time(i)), c.threshold);
    if i.Visited? && Samples(slot, i.v) {
      var v := i.v;
      VisitSamples(c, slot, v);
      SampledTimed(c, Admitted(slot, v), Opening(slot, v), Taking(c, slot, v), v);
    } else {
      var o := Step(c, slot, i);
      assert [] + [Failed(Time(i))] == [Failed(Time(i))];
      assert o.events == [] || o.events == [Failed(Time(i))];
    }
  }

  /** The detector events of the first `n` turns. */
  function Events(tr: seq<Turn>, n: nat): seq<Event>
    requires n <= |tr|
  {
    if n == 0 then [] else Events(tr, n - 1) + tr[n - 1].o.events
  }

  /** The timer the first `n` turns lead to. */
  ghost function TimerAt(tr: seq<Turn>, n: nat): Timer
    requires n <= |tr|
  {
    if n == 0 then UNSTARTED else TimerOf(tr[n - 1].o.slot)
  }

  lemma TurnTimed(c: Policy, tr: seq<Turn>, n: nat)
    requires IsRun(c, tr) && n < |tr|
    ensures Timed(c, TimerAt(tr, n), Time(tr[n].input), tr[n].o)
  {
    assert Legal(c, tr[n]) && Linked(tr, n);
    StepTimed(c, tr[n].before, tr[n].input);
  }

  /** The slot's timer is the detector run over all its events. */
  lemma {:induction false} TimerFollows(c: Policy, tr: seq<Turn>, n: nat)
    requires IsRun(c, tr) && n <= |tr|
    ensures TimerAt(tr, n) == Detectors.After(Events(tr, n), |Events(tr, n)|, c.threshold)
  {
    if n > 0 {
      TimerFollows(c, tr, n - 1);
      TurnTimed(c, tr, n - 1);
      AfterConcat(Events(tr, n - 1), tr[n - 1].o.events, c.threshold);
    }
  }

  lemma {:induction false} EventsOrdered(c: Policy, tr: seq<Turn>, n: nat)
    requires IsRun(c, tr) && n <= |tr|
    ensures Detectors.Ordered(Events(tr, n))
    ensures forall k :: 0 <= k < |Events(tr, n)| ==> n > 0 && Events(tr, n)[k].now <= Time(tr[n - 1].input)
  {
    if n > 0 {
      EventsOrdered(c, tr, n - 1);
      TurnTimed(c, tr, n - 1);
    }
  }

  lemma {:induction false} EventsPrefix(tr: seq<Turn>, m: nat, n: nat)
    requires m <= n <= |tr|
    ensures |Events(tr, m)| <= |Events(tr, n)|
    ensures Events(tr, m) == Events(tr, n)[..|Events(tr, m)|]
  {
    if m < n {
      EventsPrefix(tr, m, n - 1);
    }
  }

  /** Seen from any later point `j` of the run, the verdict and the report of turn `n` are those of the
      detector at the sample it contributed. */
  lemma SampleIsEvent(c: Policy, tr: seq<Turn>, n: nat, j: nat)
    requires IsRun(c, tr) && n <= j < |tr| && tr[n].o.emitted.sampled
    ensures var es, p := Events(tr, j + 1), |Events(tr, n)|;
            && p < |Events(tr, n + 1)| <= |es| && es[p].Seen? && es[p].now == Time(tr[n].input)
            && |tr[n].o.events| > 0 && es[p] == tr[n].o.events[0]
            && (tr[n].o.emitted.stalled <==> StallsAt(es, p, c.threshold))
            && (tr[n].o.emitted.stall <==> ReportsAt(es, p, c.threshold))
  {
    TimerFollows(c, tr, n);
    TurnTimed(c, tr, n);
    EventsPrefix(tr, n, j + 1);
    EventsPrefix(tr, n + 1, j + 1);
    SampleAt(Events(tr, n), tr[n].o.events, Events(tr, j + 1), c.threshold);
  }

  /** The detector before an event does not depend on what follows. */
  lemma SampleAt(before: seq<Event>, more: seq<Event>, es: seq<Event>, threshold: real)
    requires |more| > 0 && |before + more| <= |es|
    requires before == es[..|before|] && before + more == es[..|before + more|]
    ensures es[|before|] == more[0]
    ensures Detectors.After(es, |before|, threshold) == Detectors.After(before, |before|, threshold)
  {
    assert es[|before|] == (before + more)[|before|];
    assert es == before + es[|before|..];
    Detectors.AfterPrefix(before, es[|before|..], |before|, threshold);
  }

  /** A turn samples exactly when its calls succeed, and what it samples is what they returned. */
  lemma StepSample(c: Policy, slot: Slot, i: Input)
    ensures var o := Step(c, slot, i);
            && (o.emitted.sampled <==> i.Visited? && Samples(slot, i.v))
            && (o.emitted.sampled ==>
                  |o.events| > 0 && o.events[0] == Seen(Read(Taking(c, slot, i.v)), i.v.now))
  {
    if i.Visited? && Samples(slot, i.v) {
      VisitSamples(c, slot, i.v);
    }
  }

  /** A queue worth waking: unconsumed work that fits the ring, no work queued in vhost, no handler active, and none
      within the last interval. */
  predicate Idle(c: Policy, s: Snapshot, ring: (u16, u16), k: Counters, now: real) {
    && 0 < Sub16(ring.0, s.lastAvail) <= s.num && Sub16(ring.0, ring.1) <= s.num
    && !Bit(s.workFlags, 1) && k.active == 0 && now - k.lastHandler >= c.interval
  }

  /** What a visit that samples shows, from the answers it got. */
  function Showing(c: Policy, slot: Slot, v: Visit): Event
    requires Samples(slot, v)
  {
    var s := Pictured(slot, v);
    Seen(Reading(Identity(s), v.ring.value.1, s.lastAvail, Idle(c, s, v.ring.value, v.counters.value, v.now)), v.now)
  }

  lemma SampleExact(c: Policy, slot: Slot, v: Visit)
    requires Samples(slot, v)
    ensures Seen(Read(Taking(c, slot, v)), v.now) == Showing(c, slot, v)
  {
    BusyExact(Pictured(slot, v));
  }

  /** Turn `n` samples an idle queue with work, and at least a threshold has passed since the last resetting event of
      that FD: its first sample, an ineligible one, a change of identity, used or consumed, or a failed sample. */
  ghost predicate StalledAt(c: Policy, tr: seq<Turn>, n: nat)
    requires n < |tr|
  {
    && tr[n].input.Visited? && Samples(tr[n].before, tr[n].input.v)
    && var v, s := tr[n].input.v, Pictured(tr[n].before, tr[n].input.v);
       && Idle(c, s, v.ring.value, v.counters.value, v.now)
       && var es, p := Events(tr, n + 1), |Events(tr, n)|;
          exists i: nat :: i <= p < |es| && QuietSince(es, i, p) && v.now - es[i].now >= c.threshold
  }

  /** In every run of the plain loop a turn is judged stalled exactly then; and the event it adds for the turns after
      it is what its own calls showed. */
  lemma StallVerdictExact(c: Policy, tr: seq<Turn>, n: nat)
    requires IsRun(c, tr) && n < |tr|
    ensures tr[n].o.emitted.stalled <==> StalledAt(c, tr, n)
    ensures tr[n].o.emitted.sampled <==> tr[n].input.Visited? && Samples(tr[n].before, tr[n].input.v)
    ensures tr[n].o.emitted.sampled ==>
              var es, p := Events(tr, n + 1), |Events(tr, n)|;
              p < |es| && es[p] == Showing(c, tr[n].before, tr[n].input.v)
  {
    assert Legal(c, tr[n]);
    StepSample(c, tr[n].before, tr[n].input);
    TurnTimed(c, tr, n);
    if tr[n].o.emitted.sampled {
      SampleExact(c, tr[n].before, tr[n].input.v);
      SampleIsEvent(c, tr, n, n);
      EventsOrdered(c, tr, n + 1);
      Detectors.StallVerdictExact(Events(tr, n + 1), |Events(tr, n)|, c.threshold);
    }
  }

  /** The FD has a detector by the end of the visit: it had one, or its snapshot was taken. */
  predicate Watched(slot: Slot, v: Visit) {
    slot.watch.Some? || (v.duplicated && v.first.Some? && (IdentityChanged(slot, v) ==> v.second.Some?))
  }

  lemma StepEvents(c: Policy, slot: Slot, i: Input)
    ensures var o := Step(c, slot, i);
            o.events ==
            (if i.Visited? && Samples(slot, i.v) then [Showing(c, slot, i.v)] else [])
            + (if i.Visited? && o.emitted.unavailable && Watched(slot, i.v) then [Failed(i.v.now)] else [])
  {
    if i.Visited? && Samples(slot, i.v) {
      VisitSamples(c, slot, i.v);
      SampleExact(c, slot, i.v);
    }
  }

  /** The events that restart or keep the timer are exactly the samples of a turn, as its calls showed them, followed
      by a failure when the turn was unavailable. */
  lemma TurnEventsExact(c: Policy, tr: seq<Turn>, n: nat)
    requires IsRun(c, tr) && n < |tr|
    ensures var i := tr[n].input;
            Events(tr, n + 1) == Events(tr, n)
            + (if i.Visited? && Samples(tr[n].before, i.v) then [Showing(c, tr[n].before, i.v)] else [])
            + (if i.Visited? && tr[n].o.emitted.unavailable && Watched(tr[n].before, i.v) then [Failed(i.v.now)] else [])
  {
    assert Legal(c, tr[n]);
    StepEvents(c, tr[n].before, tr[n].input);
  }

  /** Every sample among the events is that of a turn. */
  lemma {:induction false} SeenIsSample(c: Policy, tr: seq<Turn>, i: nat, n: nat) returns (m: nat)
    requires IsRun(c, tr) && n <= |tr| && i < |Events(tr, n)| && Events(tr, n)[i].Seen?
    ensures m < n && |Events(tr, m)| == i && tr[m].o.emitted.sampled
  {
    if i < |Events(tr, n - 1)| {
      m := SeenIsSample(c, tr, i, n - 1);
    } else {
      m := n - 1;
      TurnEventsExact(c, tr, m);
      TurnTimed(c, tr, m);
    }
  }

  /** The timer restarted after the sample of turn `m`, no later than with the sample of turn `n`. */
  ghost predicate RestartedSince(tr: seq<Turn>, m: nat, n: nat)
    requires m < n < |tr|
  {
    var es := Events(tr, n + 1);
    exists k: nat :: |Events(tr, m)| < k <= |Events(tr, n)| && k < |es| && Restarts(es, k)
  }

  /** A stall is reported exactly when it is judged and the timer restarted since every earlier judgement. */
  lemma ReportExact(c: Policy, tr: seq<Turn>, n: nat)
    requires IsRun(c, tr) && n < |tr|
    ensures tr[n].o.emitted.stall <==>
            StalledAt(c, tr, n) && forall m: nat :: m < n && tr[m].o.emitted.stalled ==> RestartedSince(tr, m, n)
  {
    StallVerdictExact(c, tr, n);
    TurnTimed(c, tr, n);
    if tr[n].o.emitted.stalled {
      var es, p := Events(tr, n + 1), |Events(tr, n)|;
      SampleIsEvent(c, tr, n, n);
      Detectors.ReportExact(es, p, c.threshold);
      forall m: nat | m < n && tr[m].o.emitted.stalled
        ensures |Events(tr, m)| < p && (RestartedSince(tr, m, n) <==> !ToldSince(es, |Events(tr, m)|, p, c.threshold))
      {
        JudgedBefore(c, tr, m, n);
      }
      forall i: nat | i < p && ToldSince(es, i, p, c.threshold)
        ensures exists m: nat :: m < n && tr[m].o.emitted.stalled && i == |Events(tr, m)|
      {
        EventsPrefix(tr, n, n + 1);
        var m := SeenIsSample(c, tr, i, n);
        SampleIsEvent(c, tr, m, n);
      }
    }
  }

  lemma JudgedBefore(c: Policy, tr: seq<Turn>, m: nat, n: nat)
    requires IsRun(c, tr) && m < n < |tr| && tr[m].o.emitted.stalled && tr[n].o.emitted.sampled
    ensures var es, i, p := Events(tr, n + 1), |Events(tr, m)|, |Events(tr, n)|;
            i < p < |es| && (RestartedSince(tr, m, n) <==> !ToldSince(es, i, p, c.threshold))
  {
    TurnTimed(c, tr, m);
    SampleIsEvent(c, tr, m, n);
    SampleIsEvent(c, tr, n, n);
    EventsPrefix(tr, m + 1, n);
  }

  /** The timer restarts strictly between events `p` and `q`, no later than `latest`. */
  ghost predicate RestartsBetween(es: seq<Event>, p: nat, q: nat, latest: real) {
    exists k: nat :: p < k < q && k < |es| && Restarts(es, k) && es[k].now <= latest
  }

  /** Two stall reports of one FD slot are at least a threshold apart, with a resetting event between them. */
  lemma StallReportsSpaced(c: Policy, tr: seq<Turn>, i: nat, j: nat)
    requires ProperPolicy(c) && IsRun(c, tr) && i < j < |tr|
    requires tr[i].o.emitted.stall && tr[j].o.emitted.stall
    ensures Time(tr[j].input) - Time(tr[i].input) >= c.threshold
    ensures RestartsBetween(Events(tr, j + 1), |Events(tr, i)|, |Events(tr, j)|, Time(tr[j].input) - c.threshold)
  {
    var es, p, q := Events(tr, j + 1), |Events(tr, i)|, |Events(tr, j)|;
    assert p < |es| && ReportsAt(es, p, c.threshold) && es[p].now == Time(tr[i].input) by {
      TurnTimed(c, tr, i);
      SampleIsEvent(c, tr, i, j);
    }
    assert q < |es| && ReportsAt(es, q, c.threshold) && es[q].now == Time(tr[j].input) by {
      TurnTimed(c, tr, j);
      SampleIsEvent(c, tr, j, j);
    }
    assert p < q by {
      TurnTimed(c, tr, i);
      SampleIsEvent(c, tr, i, i);
      EventsPrefix(tr, i + 1, j);
    }
    assert Detectors.Ordered(es) by {
      EventsOrdered(c, tr, j + 1);
    }
    Detectors.StallReportsSpaced(es, p, q, c.threshold);
  }

  // ----- Recovery limits

  /** The times of the kicks written by the first `n` turns. */
  function KickTimes(tr: seq<Turn>, n: nat): seq<real>
    requires n <= |tr|
  {
    if n == 0 then []
    else KickTimes(tr, n - 1) + if tr[n - 1].o.emitted.kick then [Time(tr[n - 1].input)] else []
  }

  lemma SampledSpends(c: Policy, slot: Slot, e: Emitted, x: Sample, v: Visit)
    requires c.mode.Guarded? && slot.watch.Some? && !e.kick
    ensures var o := Sampled(c, slot, e, x, v);
            && o.slot.watch.Some?
            && Spends(slot.watch.value.budget, o.slot.watch.value.budget, v.now, o.emitted.kick, c.limits)
  {
  }

  lemma StepSpends(c: Policy, slot: Slot, i: Input)
    requires c.mode.Guarded?
    ensures var o := Step(c, slot, i);
            var b := if slot.watch.Some? then slot.watch.value.budget else FRESH;
            && (slot.watch.Some? ==> o.slot.watch.Some?)
            && (o.slot.watch.None? ==> !o.emitted.kick)
            && (o.slot.watch.Some? ==> Spends(b, o.slot.watch.value.budget, Time(i), o.emitted.kick, c.limits))
  {
    if i.Visited? && Samples(slot, i.v) {
      var v := i.v;
      VisitSamples(c, slot, v);
      SampledSpends(c, Admitted(slot, v), Opening(slot, v), Taking(c, slot, v), v);
    }
  }

  /** The budget behind a slot, spent on `ks` so far, as of `seen`. */
  ghost predicate Accounted(c: Policy, slot: Slot, ks: seq<real>, seen: real) {
    if slot.watch.None? then ks == [] else Tracks(slot.watch.value.budget, ks, seen)
  }

  lemma StepKeepsLimits(c: Policy, slot: Slot, i: Input, ks: seq<real>, seen: real)
    requires ProperPolicy(c) && c.mode.Guarded? && seen <= Time(i)
    requires Accounted(c, slot, ks, seen) && WithinLimits(ks, c.limits)
    ensures var o := Step(c, slot, i);
            var ks' := ks + if o.emitted.kick then [Time(i)] else [];
            Accounted(c, o.slot, ks', Time(i)) && WithinLimits(ks', c.limits)
  {
    var o := Step(c, slot, i);
    StepSpends(c, slot, i);
    if o.slot.watch.Some? {
      var b := if slot.watch.Some? then slot.watch.value.budget else FRESH;
      SpendKeepsLimits(b, o.slot.watch.value.budget, ks, seen, Time(i), o.emitted.kick, c.limits);
    } else {
      assert ks + [] == [];
    }
  }

  /** In guarded mode the budget of an FD slot tracks every kick, and the limits hold, through errors,
      identity changes and the FD vanishing and returning. */
  lemma {:induction false} LimitsHold(c: Policy, tr: seq<Turn>, n: nat)
    requires ProperPolicy(c) && c.mode.Guarded? && IsRun(c, tr) && n <= |tr|
    ensures WithinLimits(KickTimes(tr, n), c.limits)
    ensures n > 0 ==> Accounted(c, tr[n - 1].o.slot, KickTimes(tr, n), Time(tr[n - 1].input))
  {
    if n > 0 {
      LimitsHold(c, tr, n - 1);
      var seen := if n == 1 then Time(tr[0].input) else Time(tr[n - 2].input);
      assert Legal(c, tr[n - 1]) && Linked(tr, n - 1);
      StepKeepsLimits(c, tr[n - 1].before, tr[n - 1].input, KickTimes(tr, n - 1), seen);
    }
  }

  lemma StepKicks(c: Policy, slot: Slot, i: Input)
    requires c.mode.Guarded?
    ensures var o := Step(c, slot, i);
            var b := if slot.watch.Some? then slot.watch.value.budget else FRESH;
            && (o.emitted.kick <==>
                && o.emitted.stalled && i.Visited? && i.v.logged && Allowed(b, i.v.now, c.limits)
                && !i.v.cancelled && i.v.listed == Some(true) && i.v.reduplicated && i.v.rekicked)
            && (o.emitted.unavailable <==>
                && i.Visited?
                && (|| !Samples(slot, i.v) || !i.v.logged
                    || (o.emitted.stalled && Allowed(b, i.v.now, c.limits) && !i.v.cancelled
                        && !(i.v.listed == Some(true) && i.v.reduplicated && i.v.rekicked))))
  {
    if i.Visited? && Samples(slot, i.v) {
      VisitSamples(c, slot, i.v);
    }
  }

  /** In guarded mode a kick is written exactly when the turn is stalled, one more kick keeps the limits, and log,
      context, listing, duplicate and write allow it; and a turn is unavailable exactly when it cannot sample, the log is
      broken, or a kick that is due is refused. */
  lemma KickExact(c: Policy, tr: seq<Turn>, n: nat)
    requires ProperPolicy(c) && c.mode.Guarded? && IsRun(c, tr) && n < |tr|
    ensures var now := Time(tr[n].input);
            var due := StalledAt(c, tr, n) && tr[n].input.v.logged && !tr[n].input.v.cancelled
                       && WithinLimits(KickTimes(tr, n) + [now], c.limits);
            && (tr[n].o.emitted.kick <==>
                  && due && tr[n].input.v.listed == Some(true) && tr[n].input.v.reduplicated && tr[n].input.v.rekicked)
            && (tr[n].o.emitted.unavailable <==>
                  && tr[n].input.Visited?
                  && (|| !Samples(tr[n].before, tr[n].input.v) || !tr[n].input.v.logged || (due && !tr[n].o.emitted.kick)))
  {
    var slot, now := tr[n].before, Time(tr[n].input);
    var b := if slot.watch.Some? then slot.watch.value.budget else FRESH;
    assert Legal(c, tr[n]) && Linked(tr, n);
    StepKicks(c, slot, tr[n].input);
    StallVerdictExact(c, tr, n);
    LimitsHold(c, tr, n);
    AllowedExact(b, KickTimes(tr, n), if n == 0 then now else Time(tr[n - 1].input), now, c.limits);
  }

  // ----- The other modes

  function LastKick(slot: Slot): Stamp {
    if slot.watch.Some? then slot.watch.value.budget.lastKick else NegInf
  }

  lemma StepOtherwise(c: Policy, slot: Slot, i: Input)
    requires !c.mode.Guarded?
    ensures var o := Step(c, slot, i);
            && (o.emitted.kick <==>
                && c.mode.Periodic? && i.Visited? && Samples(slot, i.v) && Elapsed(LastKick(slot), i.v.now, c.kickInterval)
                && i.v.logged && !i.v.cancelled && i.v.reduplicated && i.v.rekicked)
            && (o.emitted.unavailable <==>
                && i.Visited?
                && (|| !Samples(slot, i.v) || !i.v.logged
                    || (c.mode.Periodic? && Elapsed(LastKick(slot), i.v.now, c.kickInterval) && !i.v.cancelled
                        && !(i.v.reduplicated && i.v.rekicked))))
            && LastKick(o.slot) == if o.emitted.kick then At(Time(i)) else LastKick(slot)
  {
    if i.Visited? && Samples(slot, i.v) {
      VisitSamples(c, slot, i.v);
    }
  }

  /** Observe mode never writes. */
  lemma {:induction false} ObserveWritesNothing(c: Policy, tr: seq<Turn>, n: nat)
    requires c.mode.Observe? && IsRun(c, tr) && n <= |tr|
    ensures KickTimes(tr, n) == []
  {
    if n > 0 {
      ObserveWritesNothing(c, tr, n - 1);
      assert Legal(c, tr[n - 1]);
      StepOtherwise(c, tr[n - 1].before, tr[n - 1].input);
    }
  }

  /** An interval has passed since the last of `ks`. */
  predicate IntervalPassed(ks: seq<real>, now: real, interval: real) {
    ks == [] || now - ks[|ks| - 1] >= interval
  }

  predicate Spaced(ks: seq<real>, interval: real) {
    forall i, j :: 0 <= i < j < |ks| ==> ks[j] - ks[i] >= interval
  }

  lemma SpacedGrows(ks: seq<real>, now: real, interval: real)
    requires interval > 0.0 && Spaced(ks, interval) && IntervalPassed(ks, now, interval)
    ensures Spaced(ks + [now], interval)
  {
  }

  /** The slot remembers the last of its kicks `ks`. */
  predicate Remembers(slot: Slot, ks: seq<real>) {
    LastKick(slot) == if ks == [] then NegInf else At(ks[|ks| - 1])
  }

  lemma StepKeepsPeriod(c: Policy, slot: Slot, i: Input, ks: seq<real>)
    requires c.kickInterval > 0.0 && c.mode.Periodic? && Remembers(slot, ks) && Spaced(ks, c.kickInterval)
    ensures var o := Step(c, slot, i);
            var ks' := ks + if o.emitted.kick then [Time(i)] else [];
            Remembers(o.slot, ks') && Spaced(ks', c.kickInterval)
  {
    StepOtherwise(c, slot, i);
    if Step(c, slot, i).emitted.kick {
      SpacedGrows(ks, Time(i), c.kickInterval);
    } else {
      assert ks + [] == ks;
    }
  }

  /** In periodic mode the kicks of a slot are at least an interval apart, and the slot remembers the last one, through
      errors, identity changes and the FD vanishing and returning. */
  lemma {:induction false} PeriodicSpaced(c: Policy, tr: seq<Turn>, n: nat)
    requires ProperPolicy(c) && c.mode.Periodic? && IsRun(c, tr) && n <= |tr|
    ensures Spaced(KickTimes(tr, n), c.kickInterval)
    ensures Remembers(if n == 0 then VACANT else tr[n - 1].o.slot, KickTimes(tr, n))
  {
    if n > 0 {
      PeriodicSpaced(c, tr, n - 1);
      assert Legal(c, tr[n - 1]) && Linked(tr, n - 1);
      StepKeepsPeriod(c, tr[n - 1].before, tr[n - 1].input, KickTimes(tr, n - 1));
    }
  }

  /** In periodic mode a kick needs no stall: it is written exactly when the turn samples, an interval has passed since
      the slot's last kick, and the environment lets it through. */
  lemma PeriodicExact(c: Policy, tr: seq<Turn>, n: nat)
    requires ProperPolicy(c) && c.mode.Periodic? && IsRun(c, tr) && n < |tr|
    ensures tr[n].o.emitted.kick <==>
            && tr[n].input.Visited? && Samples(tr[n].before, tr[n].input.v)
            && IntervalPassed(KickTimes(tr, n), Time(tr[n].input), c.kickInterval)
            && var v := tr[n].input.v; v.logged && !v.cancelled && v.reduplicated && v.rekicked
    ensures tr[n].o.emitted.unavailable <==>
            && tr[n].input.Visited?
            && var v := tr[n].input.v;
               || !Samples(tr[n].before, v) || !v.logged
               || (IntervalPassed(KickTimes(tr, n), v.now, c.kickInterval) && !v.cancelled && !(v.reduplicated && v.rekicked))
  {
    assert Legal(c, tr[n]) && Linked(tr, n);
    PeriodicSpaced(c, tr, n);
    StepOtherwise(c, tr[n].before, tr[n].input);
  }

  // ----- Verification

  predicate Listed(slot: Slot) {
    slot.pending.Some? ==> slot.snapshot.Some?
  }

  /** The attachment that occupies a listed slot. */
  function Attached(slot: Slot): Snapshot
    requires slot.snapshot.Some?
  {
    Identity(slot.snapshot.value)
  }

  /** Whether the ring and the snapshot of a visit show both counters moved past the kick. */
  predicate Moved(was: Verification, v: Visit)
    requires v.ring.Some? && v.first.Some?
  {
    v.ring.value.1 != was.used && v.first.value.lastAvail != was.consumed
  }

  predicate VerificationStep(c: Policy, slot: Slot, i: Input, o: Outcome) {
    && Listed(o.slot)
    && (o.slot.pending.Some? && !o.emitted.started ==>
          slot.pending == o.slot.pending && o.emitted.ended.None? && slot.snapshot.Some?
          && Attached(slot) == Attached(o.slot))
    && (o.emitted.started ==>
          && i.Visited? && i.v.ring.Some? && o.emitted.kick && o.slot.pending.Some?
          && o.slot.pending.value.at == i.v.now && o.slot.pending.value.used == i.v.ring.value.1
          && o.slot.pending.value.consumed == o.slot.snapshot.value.lastAvail
          && o.slot.pending.value.stalled == o.emitted.stalled
          && (slot.pending.None? || o.emitted.ended.Some?))
    && (o.emitted.kick ==>
          && i.Visited? && i.v.ring.Some? && o.slot.snapshot.Some?
          && (o.emitted.started <==>
              Sub16(i.v.ring.value.0, o.slot.snapshot.value.lastAvail) != 0
              && (slot.pending.None? || o.emitted.ended.Some?)))
    && (slot.pending.Some? <==> o.emitted.ended.Some? || (o.slot.pending.Some? && !o.emitted.started))
    && (o.emitted.ended.Some? && !o.emitted.ended.value.Abandoned? ==>
          && slot.pending.Some? && slot.snapshot.Some?
          && i.Visited? && i.v.ring.Some? && i.v.first.Some?
          && Identity(i.v.first.value) == Attached(slot)
          && (o.emitted.ended.value.Progressed? <==> Moved(slot.pending.value, i.v))
          && (o.emitted.ended.value.TimedOut? ==> i.v.now - slot.pending.value.at >= c.verifyTimeout))
  }

  /** The sampled part of a visit keeps the attachment, and ends, keeps or starts the verification. */
  lemma SampledVerifies(c: Policy, slot: Slot, e0: Emitted, x: Sample, v: Visit)
    requires slot.watch.Some? && !e0.kick && !e0.started && (slot.pending.Some? ==> e0.ended.None?)
    ensures var o := Sampled(c, slot, e0, x, v);
            var ended := Judged(c, slot.pending, x, v.now);
            && o.slot.snapshot == slot.snapshot
            && (o.emitted.started ==>
                  o.emitted.kick && o.slot.pending.Some? && (slot.pending.None? || ended.Some?)
                  && o.slot.pending.value == Verification(v.now, x.used, x.s.lastAvail, o.emitted.stalled))
            && (o.emitted.kick ==>
                  (o.emitted.started <==> Sub16(x.avail, x.s.lastAvail) != 0 && (slot.pending.None? || ended.Some?)))
            && (!o.emitted.started ==> o.slot.pending.None? || (o.slot.pending == slot.pending && ended.None?))
            && (if ended.Some? then o.emitted.ended == ended
                else if slot.pending.Some? && o.slot.pending.None? then o.emitted.ended == Some(Abandoned)
                else o.emitted.ended == e0.ended)
  {
  }

  lemma StepVerifies(c: Policy, slot: Slot, i: Input)
    requires Listed(slot)
    ensures VerificationStep(c, slot, i, Step(c, slot, i))
  {
    if i.Visited? && Samples(slot, i.v) {
      var v := i.v;
      VisitSamples(c, slot, v);
      SampledVerifies(c, Admitted(slot, v), Opening(slot, v), Taking(c, slot, v), v);
    }
  }

  lemma {:induction false} TurnVerifies(c: Policy, tr: seq<Turn>, n: nat)
    requires IsRun(c, tr) && n < |tr|
    ensures Linked(tr, n) && Listed(tr[n].before) && VerificationStep(c, tr[n].before, tr[n].input, tr[n].o)
  {
    if n > 0 {
      TurnVerifies(c, tr, n - 1);
    }
    assert Legal(c, tr[n]) && Linked(tr, n);
    StepVerifies(c, tr[n].before, tr[n].input);
  }

  /** After turn `m` the slot awaits the verification that the kick of turn `k` started, on the attachment
      that was kicked. */
  predicate Awaits(tr: seq<Turn>, k: nat, m: nat)
    requires k <= m < |tr|
  {
    var kick, slot := tr[k].o.slot, tr[m].o.slot;
    && slot.pending.Some? && slot.pending == kick.pending
    && slot.snapshot.Some? && kick.snapshot.Some? && Attached(slot) == Attached(kick)
  }

  /** The verification outstanding before turn `n` was started by the kick of turn `k`, with the counters
      sampled there; nothing ended it, and no other was started, in between. */
  predicate Outstanding(tr: seq<Turn>, k: nat, n: nat)
    requires k < n <= |tr|
  {
    && tr[k].o.emitted.started && tr[k].o.emitted.kick
    && tr[k].input.Visited? && tr[k].input.v.ring.Some?
    && Awaits(tr, k, k) && (forall m :: k <= m < n ==> Awaits(tr, k, m))
    && (var p := tr[k].o.slot.pending.value;
        && p.at == tr[k].input.v.now && p.used == tr[k].input.v.ring.value.1
        && p.consumed == tr[k].o.slot.snapshot.value.lastAvail && p.stalled == tr[k].o.emitted.stalled)
    && (forall m :: k < m < n ==> !tr[m].o.emitted.started && tr[m].o.emitted.ended.None?)
  }

  lemma {:induction false} PendingIsAKick(c: Policy, tr: seq<Turn>, n: nat) returns (k: nat)
    requires IsRun(c, tr) && 0 < n <= |tr| && tr[n - 1].o.slot.pending.Some?
    ensures k < n && Outstanding(tr, k, n)
  {
    TurnVerifies(c, tr, n - 1);
    if tr[n - 1].o.emitted.started {
      k := n - 1;
    } else {
      k := PendingIsAKick(c, tr, n - 1);
      assert Awaits(tr, k, n - 2);
    }
    assert Outstanding(tr, k, n);
  }

  /** A kick starts a verification exactly when there was work to consume and no other is outstanding. */
  lemma StartExact(c: Policy, tr: seq<Turn>, n: nat)
    requires IsRun(c, tr) && n < |tr|
    ensures tr[n].o.emitted.started <==>
            && tr[n].o.emitted.kick && tr[n].input.Visited? && tr[n].input.v.ring.Some? && tr[n].o.slot.snapshot.Some?
            && Sub16(tr[n].input.v.ring.value.0, tr[n].o.slot.snapshot.value.lastAvail) != 0
            && (tr[n].before.pending.None? || tr[n].o.emitted.ended.Some?)
  {
    TurnVerifies(c, tr, n);
  }

  /** Every verification ends by progress of both counters, by timeout, or by being abandoned; a progress or
      timeout verdict compares the kicked attachment with itself. */
  lemma EndingJudgesItsKick(c: Policy, tr: seq<Turn>, n: nat) returns (k: nat)
    requires IsRun(c, tr) && n < |tr| && tr[n].o.emitted.ended.Some?
    ensures k < n && Outstanding(tr, k, n)
    ensures var ended, kick := tr[n].o.emitted.ended.value, tr[k].o.slot;
            !ended.Abandoned? ==>
              && tr[n].input.Visited? && tr[n].input.v.ring.Some? && tr[n].input.v.first.Some?
              && Identity(tr[n].input.v.first.value) == Attached(kick)
              && (ended.Progressed? <==> Moved(kick.pending.value, tr[n].input.v))
              && (ended.TimedOut? ==> tr[n].input.v.now - tr[k].input.v.now >= c.verifyTimeout)
  {
    TurnVerifies(c, tr, n);
    k := PendingIsAKick(c, tr, n);
    assert Awaits(tr, k, n - 1);
  }

  /** Conversely, a sample of the kicked attachment always ends the verification when both counters moved, or
      when the timeout has passed without that. */
  lemma OutstandingIsJudged(c: Policy, tr: seq<Turn>, k: nat, n: nat)
    requires IsRun(c, tr) && k < n < |tr| && Outstanding(tr, k, n) && tr[n].o.emitted.sampled
    requires tr[n].input.Visited? && tr[n].input.v.first.Some? && tr[n].input.v.ring.Some?
    requires Identity(tr[n].input.v.first.value) == Attached(tr[k].o.slot)
    ensures var kick, v := tr[k].o.slot.pending.value, tr[n].input.v;
            if Moved(kick, v) then tr[n].o.emitted.ended == Some(Progressed(kick.stalled))
            else if v.now - kick.at >= c.verifyTimeout then tr[n].o.emitted.ended == Some(TimedOut)
            else tr[n].o.emitted.ended.None? || tr[n].o.emitted.ended == Some(Abandoned)
  {
    assert Awaits(tr, k, n - 1) && Legal(c, tr[n]) && Linked(tr, n);
    StepDeservesEnding(c, tr[n].before, tr[n].input.v);
  }

  lemma StepDeservesEnding(c: Policy, slot: Slot, v: Visit)
    requires slot.pending.Some? && slot.snapshot.Some? && v.first.Some? && v.ring.Some?
    requires Identity(v.first.value) == Attached(slot) && Visiting(c, slot, v).emitted.sampled
    ensures var kick, ended := slot.pending.value, Visiting(c, slot, v).emitted.ended;
            if Moved(kick, v) then ended == Some(Progressed(kick.stalled))
            else if v.now - kick.at >= c.verifyTimeout then ended == Some(TimedOut)
            else ended.None? || ended == Some(Abandoned)
  {
  }

  lemma StepEnds(c: Policy, slot: Slot, i: Input)
    requires Listed(slot)
    ensures var o := Step(c, slot, i);
            o.emitted.ended ==
            if slot.pending.None? then None
            else if i.Unlisted? || !Samples(slot, i.v) || IdentityChanged(slot, i.v) then Some(Abandoned)
            else if Moved(slot.pending.value, i.v) then Some(Progressed(slot.pending.value.stalled))
            else if i.v.now - slot.pending.value.at >= c.verifyTimeout then Some(TimedOut)
            else if o.emitted.unavailable then Some(Abandoned)
            else None
    ensures i.Unlisted? ==> Step(c, slot, i).slot.snapshot.None? && Step(c, slot, i).slot.pending.None?
  {
    if i.Visited? && Samples(slot, i.v) {
      VisitSamples(c, slot, i.v);
    }
  }

  /** How an outstanding verification ends at turn `n`, if it does: abandoned when the FD is gone, cannot be sampled or
      shows another attachment; by progress of both counters; by timeout; or abandoned by a failure after the sample. */
  lemma EndingExact(c: Policy, tr: seq<Turn>, n: nat)
    requires IsRun(c, tr) && n < |tr|
    ensures var slot, i := tr[n].before, tr[n].input;
            tr[n].o.emitted.ended ==
            if slot.pending.None? then None
            else if i.Unlisted? || !Samples(slot, i.v) || IdentityChanged(slot, i.v) then Some(Abandoned)
            else if i.v.ring.value.1 != slot.pending.value.used && i.v.first.value.lastAvail != slot.pending.value.consumed
                 then Some(Progressed(slot.pending.value.stalled))
            else if i.v.now - slot.pending.value.at >= c.verifyTimeout then Some(TimedOut)
            else if tr[n].o.emitted.unavailable then Some(Abandoned)
            else None
  {
    TurnVerifies(c, tr, n);
    assert Legal(c, tr[n]);
    StepEnds(c, tr[n].before, tr[n].input);
  }

  function Started(tr: seq<Turn>, n: nat): nat
    requires n <= |tr|
  {
    if n == 0 then 0 else Started(tr, n - 1) + if tr[n - 1].o.emitted.started then 1 else 0
  }

  function Ended(tr: seq<Turn>, n: nat): nat
    requires n <= |tr|
  {
    if n == 0 then 0 else Ended(tr, n - 1) + if tr[n - 1].o.emitted.ended.Some? then 1 else 0
  }

  /** Every started verification ended exactly once or is the one still outstanding. */
  lemma {:induction false} EachVerificationEndsOnce(c: Policy, tr: seq<Turn>, n: nat)
    requires IsRun(c, tr) && n <= |tr|
    ensures Started(tr, n) == Ended(tr, n) + if n > 0 && tr[n - 1].o.slot.pending.Some? then 1 else 0
  {
    if n > 0 {
      EachVerificationEndsOnce(c, tr, n - 1);
      TurnVerifies(c, tr, n - 1);
    }
  }
}
