/** One FD slot of the batched loop (internal/watch/batched_linux.go): the cached queue object that
    occupies it, and the recovery budget that outlives the object. */
module BatchedSlots {
  import opened Words
  import opened Snapshots
  import opened Budgets
  import opened Policies
  import Progress
  import Detectors

  datatype Candidate = Candidate(snapshot: Snapshot, used: u16)

  datatype Queue = Queue(
    snapshot: Snapshot,
    progress: Progress.State,
    candidate: Option<Candidate>,
    verification: Option<Verification>,
    reported: bool)

  datatype Slot = Slot(queue: Option<Queue>, budget: Option<Budget>)

  const VACANT := Slot(None, None)

  /** A live row: a fresh snapshot and the ring words read through it. */
  datatype Live = Live(s: Snapshot, avail: u16, used: u16)

  /** Unconsumed work that fits the ring, with vhost idle. */
  predicate Stuck(l: Live) {
    Detectors.Eligible(Detectors.Sample(l.s, l.avail, l.used, Busy(l.s)))
  }

  /** What the environment answers when a recovery is attempted: cancellation, the refreshed inventory
      (None when it fails, else whether it lists the FD), the duplication and Rekick itself. */
  datatype Attempt = Attempt(cancelled: bool, listed: Option<bool>, duplicated: bool, rekicked: bool)

  predicate Writes(a: Attempt) {
    a.listed == Some(true) && a.duplicated && a.rekicked
  }

  /** What one tick brings to the slot. */
  datatype Input =
    /** A new inventory: the live snapshot of the FD, or None when it is not listed or not available. */
    | Inventory(now: real, found: Option<Snapshot>)
    /** The batched ring read failed. */
    | BatchFailed(now: real)
    /** The batched read gave these ring words; `live` and `attempt` answer the calls made after it. */
    | Polled(now: real, avail: u16, used: u16, live: Option<Live>, attempt: Attempt)

  datatype Verdict = Recovered | Unconfirmed

  /** The log events of one step; `restart` is the call of RingProgress.Reset, which is not logged. */
  datatype Emitted = Emitted(
    verdict: Option<Verdict>, candidate: bool, stall: bool, kick: bool, unavailable: bool, restart: bool)

  const SILENT := Emitted(None, false, false, false, false, false)

  datatype Outcome = Outcome(queue: Queue, budget: Budget, emitted: Emitted)

  function NewQueue(s: Snapshot): Queue {
    Queue(s, Progress.INITIAL, None, None, false)
  }

  function Restarted(q: Queue, now: real): Queue {
    q.(progress := Progress.Next(q.progress, Progress.Reset(now)), candidate := None, reported := false)
  }

  /** The error path: the outstanding verification is abandoned too. */
  function Abandoned(q: Queue, now: real): Queue {
    Restarted(q, now).(verification := None)
  }

  /** The ring words age the progress timer; a queue that is not ready loses its candidate. */
  function Aged(c: Policy, q: Queue, now: real, avail: u16, used: u16): Queue {
    var p := Progress.Next(q.progress, Progress.Reading(avail, used, q.snapshot.num, now));
    var ready := Progress.Ready(p, now, c.threshold);
    q.(progress := p, candidate := if ready then q.candidate else None, reported := ready && q.reported)
  }

  /** The outstanding verification, judged by a live row. */
  function Judged(c: Policy, v: Option<Verification>, l: Live, now: real): Option<Verdict> {
    if v.None? then None
    else if l.used != v.value.used && l.s.lastAvail != v.value.consumed then Some(Recovered)
    else if now - v.value.at >= c.verifyTimeout then Some(Unconfirmed)
    else None
  }

  /** Two live rows of one attachment that made no progress in between. */
  predicate Agrees(k: Candidate, l: Live) {
    Identity(k.snapshot) == Identity(l.s) && k.used == l.used && k.snapshot.lastAvail == l.s.lastAvail
  }

  /** A ready queue with a live row: become a candidate, or confirm, report and recover. */
  function Confirmed(c: Policy, q: Queue, b: Budget, now: real, used: u16, l: Live, a: Attempt, e: Emitted): Outcome {
    if l.used != used || !Stuck(l) then
      Outcome(Restarted(q, now), b, e.(restart := true))
    else if q.candidate.None? then
      Outcome(q.(candidate := Some(Candidate(l.s, l.used))), b, e.(candidate := true))
    else if !Agrees(q.candidate.value, l) then
      Outcome(Restarted(q, now), b, e.(restart := true))
    else
      var told := e.(stall := !q.reported);
      var q' := q.(reported := true);
      if !Allowed(b, now, c.limits) || a.cancelled then
        Outcome(q', Pruned(b, now), told)
      else if !Writes(a) then
        Outcome(Abandoned(q', now), Pruned(b, now), told.(unavailable := true, restart := true))
      else
        Outcome(q'.(verification := Some(Verification(now, l.used, l.s.lastAvail, true)), candidate := None),
                Kicked(Pruned(b, now), now), told.(kick := true))
  }

  function Poll(c: Policy, q: Queue, b: Budget, i: Input): Outcome
    requires i.Polled?
  {
    var q' := Aged(c, q, i.now, i.avail, i.used);
    var ready := Progress.Ready(q'.progress, i.now, c.threshold);
    if !ready && q.verification.None? then
      Outcome(q', b, SILENT)
    else if i.live.None? || Identity(i.live.value.s) != Identity(q.snapshot) then
      Outcome(Abandoned(q', i.now), b, SILENT.(unavailable := true, restart := true))
    else
      var verdict := Judged(c, q.verification, i.live.value, i.now);
      var q'' := if verdict.Some? then q'.(verification := None) else q';
      var e := SILENT.(verdict := verdict);
      if !ready then Outcome(q'', b, e)
      else Confirmed(c, q'', b, i.now, i.used, i.live.value, i.attempt, e)
  }

  /** An inventory keeps the object of an unchanged attachment and replaces any other. */
  function Inventoried(slot: Slot, found: Option<Snapshot>): Slot {
    if found.None? then slot.(queue := None)
    else
      var s := found.value;
      var kept := slot.queue.Some? && Identity(slot.queue.value.snapshot) == Identity(s);
      Slot(Some(if kept then slot.queue.value.(snapshot := s) else NewQueue(s)),
           Some(if slot.budget.Some? then slot.budget.value else FRESH))
  }

  predicate Budgeted(slot: Slot) {
    slot.queue.Some? ==> slot.budget.Some?
  }

  function Step(c: Policy, slot: Slot, i: Input): (r: (Slot, Emitted))
    requires Budgeted(slot)
    ensures Budgeted(r.0)
  {
    match i
    case Inventory(_, found) => (Inventoried(slot, found), SILENT)
    case BatchFailed(now) =>
      if slot.queue.None? then (slot, SILENT)
      else (slot.(queue := Some(Abandoned(slot.queue.value, now))), SILENT.(restart := true))
    case Polled(_, _, _, _, _) =>
      if slot.queue.None? then (slot, SILENT)
      else
        var o := Poll(c, slot.queue.value, slot.budget.value, i);
        (Slot(Some(o.queue), Some(o.budget)), o.emitted)
  }

  // ----- Runs

  /** One step of a run, with what it did. */
  datatype Turn = Turn(before: Slot, input: Input, after: Slot, emitted: Emitted)

  ghost predicate Legal(c: Policy, t: Turn) {
    Budgeted(t.before) && Step(c, t.before, t.input) == (t.after, t.emitted)
  }

  ghost predicate Linked(tr: seq<Turn>, n: nat)
    requires n < |tr|
  {
    tr[n].before == if n == 0 then VACANT else tr[n - 1].after
  }

  /** A run of one slot: any inputs at nondecreasing times, from the vacant slot on. */
  ghost predicate IsRun(c: Policy, tr: seq<Turn>) {
    && (forall n: nat {:trigger Legal(c, tr[n])} :: n < |tr| ==> Legal(c, tr[n]))
    && (forall n: nat {:trigger Linked(tr, n)} :: n < |tr| ==> Linked(tr, n))
    && (forall i, j :: 0 <= i <= j < |tr| ==> tr[i].input.now <= tr[j].input.now)
  }

  /** The slot a run has reached. */
  ghost function Reached(tr: seq<Turn>): Slot {
    if tr == [] then VACANT else tr[|tr| - 1].after
  }

  ghost function Taken(c: Policy, slot: Slot, i: Input): Turn {
    if Budgeted(slot) then var (after, e) := Step(c, slot, i); Turn(slot, i, after, e)
    else Turn(slot, i, slot, SILENT)
  }

  lemma RunGrows(c: Policy, tr: seq<Turn>, i: Input)
    requires IsRun(c, tr) && (tr == [] || tr[|tr| - 1].input.now <= i.now)
    ensures Budgeted(Reached(tr)) && IsRun(c, tr + [Taken(c, Reached(tr), i)])
  {
    if tr != [] {
      assert Legal(c, tr[|tr| - 1]);
    }
    var tr' := tr + [Taken(c, Reached(tr), i)];
    forall n: nat | n < |tr'| ensures Legal(c, tr'[n]) && Linked(tr', n) {
      if n < |tr| {
        assert Legal(c, tr[n]) && Linked(tr, n);
      }
    }
  }

  // ----- Which attachment occupies the slot

  function OccupantOf(slot: Slot): Option<Snapshot> {
    if slot.queue.None? then None else Some(Identity(slot.queue.value.snapshot))
  }

  /** The snapshot that the latest of the first `n` inputs to list or drop the FD showed. */
  function Cached(tr: seq<Turn>, n: nat): Option<Snapshot>
    requires n <= |tr|
  {
    if n == 0 then None
    else if tr[n - 1].input.Inventory? then tr[n - 1].input.found
    else Cached(tr, n - 1)
  }

  /** Its attachment. */
  function Attachment(tr: seq<Turn>, n: nat): Option<Snapshot>
    requires n <= |tr|
  {
    if Cached(tr, n).None? then None else Some(Identity(Cached(tr, n).value))
  }

  function SnapshotIn(slot: Slot): Option<Snapshot> {
    if slot.queue.None? then None else Some(slot.queue.value.snapshot)
  }

  lemma StepOccupant(c: Policy, t: Turn)
    requires Legal(c, t)
    ensures SnapshotIn(t.after) == if t.input.Inventory? then t.input.found else SnapshotIn(t.before)
  {
  }

  /** The queue object caches the snapshot of the latest inventory. */
  lemma {:induction false} CacheFollows(c: Policy, tr: seq<Turn>, n: nat)
    requires IsRun(c, tr) && n <= |tr|
    ensures SnapshotIn(if n == 0 then VACANT else tr[n - 1].after) == Cached(tr, n)
  {
    if n > 0 {
      CacheFollows(c, tr, n - 1);
      assert Legal(c, tr[n - 1]) && Linked(tr, n - 1);
      StepOccupant(c, tr[n - 1]);
    }
  }

  lemma OccupantFollows(c: Policy, tr: seq<Turn>, n: nat)
    requires IsRun(c, tr) && n < |tr|
    ensures OccupantOf(tr[n].before) == Attachment(tr, n)
  {
    assert Linked(tr, n);
    CacheFollows(c, tr, n);
  }

  // ----- How long the queue has made no progress

  /** An input that leaves the attachment in place and shows a valid, nonempty backlog at `used`. */
  predicate Quiet(i: Input, identity: Snapshot, used: int) {
    match i
    case Inventory(_, found) => found.Some? && Identity(found.value) == identity
    case BatchFailed(_) => false
    case Polled(_, avail, u, _, _) => u == used && Progress.Eligible(avail, u, identity.num)
  }

  /** From poll `a` until turn `n` the slot shows one attachment, and every turn kept it, its backlog and the value
      of `used`, without a restart. */
  predicate Aging(tr: seq<Turn>, a: nat, n: nat, identity: Snapshot, used: int)
    requires a <= n <= |tr|
  {
    && a < n && tr[a].input.Polled? && Attachment(tr, a) == Some(identity)
    && (forall k :: a <= k < n ==> Quiet(tr[k].input, identity, used) && !tr[k].emitted.restart)
  }

  /** The stretch from poll `a` to the poll of turn `n`. */
  predicate Stretch(tr: seq<Turn>, a: nat, n: nat)
    requires a <= n < |tr|
  {
    && tr[n].input.Polled? && Attachment(tr, n).Some?
    && Aging(tr, a, n, Attachment(tr, n).value, tr[n].input.used)
    && Quiet(tr[n].input, Attachment(tr, n).value, tr[n].input.used)
  }

  /** The poll of turn `n` finds the queue unchanged for at least a threshold. */
  ghost predicate ReadyAt(c: Policy, tr: seq<Turn>, n: nat)
    requires n < |tr|
  {
    exists a: nat :: a <= n && Stretch(tr, a, n) && tr[n].input.now - tr[a].input.now >= c.threshold
  }

  lemma {:induction false} AgingAttachment(tr: seq<Turn>, a: nat, m: nat, n: nat, identity: Snapshot, used: int)
    requires a <= m <= n <= |tr| && Aging(tr, a, n, identity, used)
    ensures Attachment(tr, m) == Some(identity)
  {
    if a < m {
      AgingAttachment(tr, a, m - 1, n, identity, used);
      assert Quiet(tr[m - 1].input, identity, used);
    }
  }

  /** The slot's timer runs on `used`, since `at` or longer. */
  predicate Running(slot: Slot, identity: Snapshot, used: int, at: real) {
    slot.queue.Some?
    && var q := slot.queue.value;
       Identity(q.snapshot) == identity && q.progress.eligible && q.progress.used == used && q.progress.since <= at
  }

  lemma StepRuns(c: Policy, t: Turn, identity: Snapshot, used: int, at: real)
    requires Legal(c, t) && Quiet(t.input, identity, used) && !t.emitted.restart
    requires Running(t.before, identity, used, at)
    ensures Running(t.after, identity, used, at)
  {
  }

  lemma StepStarts(c: Policy, t: Turn, identity: Snapshot, used: int)
    requires Legal(c, t) && t.input.Polled? && Quiet(t.input, identity, used) && !t.emitted.restart
    requires OccupantOf(t.before) == Some(identity)
    requires t.before.queue.value.progress.eligible ==> t.before.queue.value.progress.since <= t.input.now
    ensures Running(t.after, identity, used, t.input.now)
  {
  }

  predicate Ticking(slot: Slot) {
    slot.queue.Some? && slot.queue.value.progress.eligible
  }

  /** A running timer after a step either started in that step or was running before it. */
  lemma StepAges(c: Policy, t: Turn)
    requires Legal(c, t) && Ticking(t.after)
    ensures var q := t.after.queue.value;
            && !t.emitted.restart && OccupantOf(t.before) == Some(Identity(q.snapshot))
            && Quiet(t.input, Identity(q.snapshot), q.progress.used)
            && ((t.input.Polled? && q.progress.since == t.input.now)
                || t.before.queue.value.progress == q.progress)
  {
  }

  lemma {:induction false} SinceIsPast(c: Policy, tr: seq<Turn>, n: nat)
    requires IsRun(c, tr) && n < |tr| && Ticking(tr[n].before)
    ensures tr[n].before.queue.value.progress.since <= tr[n].input.now
  {
    assert Linked(tr, n);
    if n > 0 {
      assert Legal(c, tr[n - 1]);
      StepAges(c, tr[n - 1]);
      if Ticking(tr[n - 1].before) {
        SinceIsPast(c, tr, n - 1);
      }
    }
  }

  /** An aging stretch has the timer running since its first poll or longer. */
  lemma {:induction false} AgingRuns(c: Policy, tr: seq<Turn>, a: nat, n: nat, identity: Snapshot, used: int)
    requires IsRun(c, tr) && a < n < |tr| && Aging(tr, a, n, identity, used)
    ensures Running(tr[n].before, identity, used, tr[a].input.now)
  {
    assert Legal(c, tr[n - 1]) && Linked(tr, n);
    if n - 1 == a {
      OccupantFollows(c, tr, a);
      if Ticking(tr[a].before) {
        SinceIsPast(c, tr, a);
      }
      StepStarts(c, tr[a], identity, used);
    } else {
      AgingRuns(c, tr, a, n - 1, identity, used);
      StepRuns(c, tr[n - 1], identity, used, tr[a].input.now);
    }
  }

  /** A running timer was started by a poll, and has been aging since. */
  lemma {:induction false} AnchorExists(c: Policy, tr: seq<Turn>, n: nat) returns (a: nat)
    requires IsRun(c, tr) && n < |tr| && Ticking(tr[n].before)
    ensures a < n
    ensures var q := tr[n].before.queue.value;
            Aging(tr, a, n, Identity(q.snapshot), q.progress.used) && q.progress.since == tr[a].input.now
  {
    var q := tr[n].before.queue.value;
    assert Linked(tr, n) && Legal(c, tr[n - 1]);
    StepAges(c, tr[n - 1]);
    if tr[n - 1].before.queue.value.progress == q.progress {
      a := AnchorExists(c, tr, n - 1);
    } else {
      a := n - 1;
      OccupantFollows(c, tr, n - 1);
    }
    assert Aging(tr, a, n, Identity(q.snapshot), q.progress.used);
  }

  /** What the poll's Observe answers. */
  predicate Ready(c: Policy, slot: Slot, i: Input)
    requires i.Polled? && slot.queue.Some?
  {
    Progress.Ready(Aged(c, slot.queue.value, i.now, i.avail, i.used).progress, i.now, c.threshold)
  }

  lemma ReadyKeepsTimer(c: Policy, slot: Slot, i: Input)
    requires ProperPolicy(c) && i.Polled? && slot.queue.Some?
    ensures var q := slot.queue.value;
            Ready(c, slot, i) <==>
            && Quiet(i, Identity(q.snapshot), i.used) && q.progress.eligible && q.progress.used == i.used
            && i.now - q.progress.since >= c.threshold
  {
  }

  /** Observe answers yes exactly when the queue was unchanged for a threshold, by the trace alone. */
  lemma ReadyExact(c: Policy, tr: seq<Turn>, n: nat)
    requires ProperPolicy(c) && IsRun(c, tr) && n < |tr| && tr[n].input.Polled?
    ensures tr[n].before.queue.Some? && Ready(c, tr[n].before, tr[n].input) <==> ReadyAt(c, tr, n)
  {
    OccupantFollows(c, tr, n);
    if tr[n].before.queue.Some? {
      var q, i := tr[n].before.queue.value, tr[n].input;
      ReadyKeepsTimer(c, tr[n].before, i);
      if Ready(c, tr[n].before, i) {
        var a := AnchorExists(c, tr, n);
        assert Stretch(tr, a, n);
      }
      forall a: nat | a <= n && Stretch(tr, a, n) && i.now - tr[a].input.now >= c.threshold
        ensures q.progress.eligible && q.progress.used == i.used && i.now - q.progress.since >= c.threshold
      {
        AgingRuns(c, tr, a, n, Identity(q.snapshot), i.used);
      }
    }
  }

  // ----- The candidate

  /** The poll of turn `n` read a live row of the cached attachment. */
  predicate SameRow(tr: seq<Turn>, n: nat)
    requires n < |tr|
  {
    tr[n].input.Polled? && tr[n].input.live.Some? && Attachment(tr, n) == Some(Identity(tr[n].input.live.value.s))
  }

  function CandidateOf(i: Input): Candidate
    requires i.Polled? && i.live.Some?
  {
    Candidate(i.live.value.s, i.live.value.used)
  }

  /** The candidate taken at turn `i` is still held before turn `n`: every turn since was quiet, and none restarted
      the timer or kicked. */
  predicate HeldFrom(tr: seq<Turn>, i: nat, n: nat)
    requires i <= n <= |tr|
  {
    && i < n && tr[i].emitted.candidate && SameRow(tr, i)
    && var k := CandidateOf(tr[i].input);
       forall m :: i < m < n ==>
         Quiet(tr[m].input, Identity(k.snapshot), k.used) && !tr[m].emitted.restart && !tr[m].emitted.kick
  }

  /** The slot holds `k` as its candidate, on a timer that had aged a threshold at `at`. */
  predicate Holding(c: Policy, slot: Slot, k: Candidate, at: real) {
    slot.queue.Some?
    && var q := slot.queue.value;
       && q.candidate == Some(k) && Identity(q.snapshot) == Identity(k.snapshot)
       && q.progress.eligible && q.progress.used == k.used && at - q.progress.since >= c.threshold
  }

  lemma StepTakes(c: Policy, t: Turn)
    requires Legal(c, t) && t.emitted.candidate
    ensures t.input.Polled? && t.input.live.Some? && OccupantOf(t.before) == Some(Identity(t.input.live.value.s))
    ensures Holding(c, t.after, CandidateOf(t.input), t.input.now)
  {
  }

  /** A held candidate stays exactly through quiet turns that neither restart nor kick; a live row read on the way
      agrees with it. */
  lemma StepHolding(c: Policy, t: Turn, k: Candidate, at: real)
    requires ProperPolicy(c) && Legal(c, t) && Holding(c, t.before, k, at) && at <= t.input.now
    ensures !t.emitted.candidate
    ensures Holding(c, t.after, k, t.input.now) <==>
            Quiet(t.input, Identity(k.snapshot), k.used) && !t.emitted.restart && !t.emitted.kick
    ensures t.after.queue.Some? && t.after.queue.value.candidate.Some? ==> Holding(c, t.after, k, t.input.now)
    ensures Holding(c, t.after, k, t.input.now) && t.input.Polled? ==>
              t.input.live.Some? && Agrees(k, t.input.live.value) && Stuck(t.input.live.value)
  {
  }

  lemma StepTakesNone(c: Policy, t: Turn)
    requires Legal(c, t) && !t.emitted.candidate && (t.before.queue.Some? ==> t.before.queue.value.candidate.None?)
    ensures t.after.queue.Some? ==> t.after.queue.value.candidate.None?
  {
  }

  /** What is held by the trace is held by the slot; and every live row read since agrees with it. */
  lemma {:induction false} HeldIsHolding(c: Policy, tr: seq<Turn>, i: nat, n: nat)
    requires ProperPolicy(c) && IsRun(c, tr) && i < n < |tr| && HeldFrom(tr, i, n)
    ensures Holding(c, tr[n].before, CandidateOf(tr[i].input), tr[n - 1].input.now)
    ensures forall m :: i < m < n && tr[m].input.Polled? ==>
              && tr[m].input.live.Some? && Agrees(CandidateOf(tr[i].input), tr[m].input.live.value)
              && Stuck(tr[m].input.live.value)
  {
    assert Linked(tr, n) && Legal(c, tr[n - 1]);
    if n - 1 == i {
      StepTakes(c, tr[i]);
    } else {
      HeldIsHolding(c, tr, i, n - 1);
      StepHolding(c, tr[n - 1], CandidateOf(tr[i].input), tr[n - 2].input.now);
    }
  }

  /** A candidate the slot holds is held by the trace. */
  lemma {:induction false} CandidateExists(c: Policy, tr: seq<Turn>, n: nat) returns (i: nat)
    requires ProperPolicy(c) && IsRun(c, tr) && n < |tr|
    requires tr[n].before.queue.Some? && tr[n].before.queue.value.candidate.Some?
    ensures i < n && HeldFrom(tr, i, n) && tr[n].before.queue.value.candidate == Some(CandidateOf(tr[i].input))
  {
    assert Linked(tr, n) && Legal(c, tr[n - 1]);
    var t := tr[n - 1];
    if t.emitted.candidate {
      i := n - 1;
      StepTakes(c, t);
      OccupantFollows(c, tr, i);
    } else {
      if t.before.queue.None? || t.before.queue.value.candidate.None? {
        StepTakesNone(c, t);
        assert false;
      }
      i := CandidateExists(c, tr, n - 1);
      HeldIsHolding(c, tr, i, n - 1);
      StepHolding(c, t, CandidateOf(tr[i].input), tr[n - 2].input.now);
    }
  }

  // ----- What a poll does, by the state before it

  /** The live row confirms the poll: same attachment, same `used`, and stuck. */
  predicate Confirms(slot: Slot, i: Input)
    requires i.Polled? && slot.queue.Some?
  {
    && i.live.Some? && Identity(i.live.value.s) == Identity(slot.queue.value.snapshot)
    && i.live.value.used == i.used && Stuck(i.live.value)
  }

  /** A second confirmation, with nothing changed since the first. */
  predicate Repeats(slot: Slot, i: Input)
    requires i.Polled? && slot.queue.Some?
  {
    Confirms(slot, i) && slot.queue.value.candidate.Some? && Agrees(slot.queue.value.candidate.value, i.live.value)
  }

  lemma StepEvents(c: Policy, t: Turn)
    requires Legal(c, t) && t.input.Polled? && t.before.queue.Some?
    ensures var q, i, e := t.before.queue.value, t.input, t.emitted;
            var ready := Ready(c, t.before, i);
            var same := i.live.Some? && Identity(i.live.value.s) == Identity(q.snapshot);
            var may := Allowed(t.before.budget.value, i.now, c.limits) && !i.attempt.cancelled;
            && (e.candidate <==> ready && Confirms(t.before, i) && q.candidate.None?)
            && (e.kick <==> ready && Repeats(t.before, i) && may && Writes(i.attempt))
            && (e.stall <==> ready && Repeats(t.before, i) && !q.reported)
            && (e.restart <==>
                || ((ready || q.verification.Some?) && !same)
                || (ready && same && !Confirms(t.before, i))
                || (ready && Confirms(t.before, i) && q.candidate.Some? && !Repeats(t.before, i))
                || (ready && Repeats(t.before, i) && may && !Writes(i.attempt)))
            && (e.unavailable <==>
                ((ready || q.verification.Some?) && !same) || (ready && Repeats(t.before, i) && may && !Writes(i.attempt)))
            && e.verdict == if same then Judged(c, q.verification, i.live.value, i.now) else None
  {
  }

  /** Only a poll of an occupied slot does anything but restart. */
  lemma StepSilent(c: Policy, t: Turn)
    requires Legal(c, t) && (!t.input.Polled? || t.before.queue.None?)
    ensures t.emitted == SILENT.(restart := t.emitted.restart)
    ensures t.emitted.restart ==> t.input.BatchFailed?
  {
  }

  // ----- Recovery limits

  /** The times of the kicks written by the first `n` turns. */
  function KickTimes(tr: seq<Turn>, n: nat): seq<real>
    requires n <= |tr|
  {
    if n == 0 then []
    else KickTimes(tr, n - 1) + if tr[n - 1].emitted.kick then [tr[n - 1].input.now] else []
  }

  lemma StepSpends(c: Policy, t: Turn)
    requires Legal(c, t)
    ensures if t.before.budget.None? then !t.emitted.kick && (t.after.budget.None? || t.after.budget == Some(FRESH))
            else t.after.budget.Some?
                 && Spends(t.before.budget.value, t.after.budget.value, t.input.now, t.emitted.kick, c.limits)
  {
  }

  /** The budget behind a slot, spent on `ks` so far, as of `seen`. */
  ghost predicate Accounted(slot: Slot, ks: seq<real>, seen: real) {
    if slot.budget.None? then ks == [] else Tracks(slot.budget.value, ks, seen)
  }

  lemma StepKeepsLimits(c: Policy, t: Turn, ks: seq<real>, seen: real)
    requires ProperPolicy(c) && Legal(c, t) && seen <= t.input.now
    requires Accounted(t.before, ks, seen) && WithinLimits(ks, c.limits)
    ensures var ks' := ks + if t.emitted.kick then [t.input.now] else [];
            Accounted(t.after, ks', t.input.now) && WithinLimits(ks', c.limits)
  {
    StepSpends(c, t);
    if t.before.budget.Some? {
      SpendKeepsLimits(t.before.budget.value, t.after.budget.value, ks, seen, t.input.now, t.emitted.kick, c.limits);
    } else {
      assert ks + [] == [];
    }
  }

  /** Whatever happens to the FD in between, its budget tracks every kick and the limits hold. */
  lemma {:induction false} LimitsHold(c: Policy, tr: seq<Turn>, n: nat)
    requires ProperPolicy(c) && IsRun(c, tr) && n <= |tr|
    ensures WithinLimits(KickTimes(tr, n), c.limits)
    ensures n > 0 ==> Accounted(tr[n - 1].after, KickTimes(tr, n), tr[n - 1].input.now)
  {
    if n > 0 {
      LimitsHold(c, tr, n - 1);
      var seen := if n == 1 then tr[0].input.now else tr[n - 2].input.now;
      assert Legal(c, tr[n - 1]) && Linked(tr, n - 1);
      StepKeepsLimits(c, tr[n - 1], KickTimes(tr, n - 1), seen);
    }
  }

  /** One more kick at turn `j` keeps the limits, and the context is live. */
  ghost predicate Permitted(c: Policy, tr: seq<Turn>, j: nat)
    requires j < |tr| && tr[j].input.Polled?
  {
    WithinLimits(KickTimes(tr, j) + [tr[j].input.now], c.limits) && !tr[j].input.attempt.cancelled
  }

  /** The slot's budget decides by the kicks of the run so far. */
  lemma AllowedByHistory(c: Policy, tr: seq<Turn>, j: nat)
    requires ProperPolicy(c) && IsRun(c, tr) && j < |tr| && tr[j].before.budget.Some?
    ensures Allowed(tr[j].before.budget.value, tr[j].input.now, c.limits) <==>
            WithinLimits(KickTimes(tr, j) + [tr[j].input.now], c.limits)
  {
    assert Linked(tr, j);
    LimitsHold(c, tr, j);
    AllowedExact(tr[j].before.budget.value, KickTimes(tr, j), tr[j - 1].input.now, tr[j].input.now, c.limits);
  }

  // ----- Every event of a run, by the inputs and the events before it

  /** The row of turn `j` confirms its poll. */
  predicate ConfirmsAt(tr: seq<Turn>, j: nat)
    requires j < |tr|
  {
    SameRow(tr, j) && tr[j].input.live.value.used == tr[j].input.used && Stuck(tr[j].input.live.value)
  }

  /** Some candidate is held, and the row of turn `j` agrees with it or not. */
  ghost predicate AgreeingAt(tr: seq<Turn>, j: nat, agrees: bool)
    requires j < |tr| && SameRow(tr, j)
  {
    exists i: nat :: i <= j && HeldFrom(tr, i, j) && Agrees(CandidateOf(tr[i].input), tr[j].input.live.value) == agrees
  }

  /** The slot's candidate, by the trace. */
  lemma CandidateByTrace(c: Policy, tr: seq<Turn>, j: nat, agrees: bool)
    requires ProperPolicy(c) && IsRun(c, tr) && j < |tr| && SameRow(tr, j)
    ensures tr[j].before.queue.Some?
    ensures AgreeingAt(tr, j, agrees) <==>
            && tr[j].before.queue.value.candidate.Some?
            && Agrees(tr[j].before.queue.value.candidate.value, tr[j].input.live.value) == agrees
  {
    OccupantFollows(c, tr, j);
    var k := tr[j].before.queue.value.candidate;
    if k.Some? {
      var i := CandidateExists(c, tr, j);
    }
    forall i: nat | i <= j && HeldFrom(tr, i, j) ensures k == Some(CandidateOf(tr[i].input)) {
      HeldIsHolding(c, tr, i, j);
    }
  }

  /** The state before an occupied poll, by the trace. */
  lemma PollByTrace(c: Policy, tr: seq<Turn>, j: nat)
    requires ProperPolicy(c) && IsRun(c, tr) && j < |tr| && tr[j].input.Polled? && Attachment(tr, j).Some?
    ensures var t := tr[j];
            && Legal(c, t) && t.before.queue.Some? && t.before.budget.Some?
            && Ready(c, t.before, t.input) == ReadyAt(c, tr, j)
            && Confirms(t.before, t.input) == ConfirmsAt(tr, j)
            && (t.input.live.Some? && Identity(t.input.live.value.s) == Identity(t.before.queue.value.snapshot)) == SameRow(tr, j)
            && Allowed(t.before.budget.value, t.input.now, c.limits) ==
               WithinLimits(KickTimes(tr, j) + [t.input.now], c.limits)
  {
    assert Legal(c, tr[j]);
    OccupantFollows(c, tr, j);
    ReadyExact(c, tr, j);
    AllowedByHistory(c, tr, j);
  }

  /** A candidate is taken exactly when a ready queue's row confirms and none is held. */
  lemma CandidateExact(c: Policy, tr: seq<Turn>, j: nat)
    requires ProperPolicy(c) && IsRun(c, tr) && j < |tr|
    ensures tr[j].emitted.candidate <==>
            ReadyAt(c, tr, j) && ConfirmsAt(tr, j) && !AgreeingAt(tr, j, true) && !AgreeingAt(tr, j, false)
  {
    assert Legal(c, tr[j]);
    OccupantFollows(c, tr, j);
    if tr[j].input.Polled? && Attachment(tr, j).Some? {
      PollByTrace(c, tr, j);
      StepEvents(c, tr[j]);
      if SameRow(tr, j) {
        CandidateByTrace(c, tr, j, true);
        CandidateByTrace(c, tr, j, false);
      }
    } else {
      StepSilent(c, tr[j]);
    }
  }

  /** A kick is written exactly when a ready queue's row confirms, agrees with the held candidate, one more kick
      keeps the limits, the context is live and the write is verified: the loop neither kicks without reason nor
      withholds a kick it should write. */
  lemma KickExact(c: Policy, tr: seq<Turn>, j: nat)
    requires ProperPolicy(c) && IsRun(c, tr) && j < |tr|
    ensures tr[j].emitted.kick <==>
            && ReadyAt(c, tr, j) && ConfirmsAt(tr, j) && AgreeingAt(tr, j, true)
            && WithinLimits(KickTimes(tr, j) + [tr[j].input.now], c.limits)
            && var a := tr[j].input.attempt; !a.cancelled && a.listed == Some(true) && a.duplicated && a.rekicked
  {
    assert Legal(c, tr[j]);
    OccupantFollows(c, tr, j);
    if tr[j].input.Polled? && Attachment(tr, j).Some? {
      PollByTrace(c, tr, j);
      StepEvents(c, tr[j]);
      if SameRow(tr, j) {
        CandidateByTrace(c, tr, j, true);
      }
    } else {
      StepSilent(c, tr[j]);
    }
  }

  /** Turn `j` needs a live row of the cached attachment and does not get one. */
  ghost predicate RowMissing(c: Policy, tr: seq<Turn>, j: nat)
    requires j < |tr|
  {
    tr[j].input.Polled? && (ReadyAt(c, tr, j) || VerifyingAt(tr, j)) && !SameRow(tr, j)
  }

  /** Turn `j` attempts a justified, permitted kick and the write is refused. */
  ghost predicate KickRefused(c: Policy, tr: seq<Turn>, j: nat)
    requires j < |tr|
  {
    && ReadyAt(c, tr, j) && ConfirmsAt(tr, j) && AgreeingAt(tr, j, true)
    && Permitted(c, tr, j) && !Writes(tr[j].input.attempt)
  }

  /** The timer of an occupied slot is restarted exactly by a failed batch read; by a row that is missing or of
      another attachment when the queue is ready or verifying; by a refused kick; and, when the queue is ready, by
      a row that does not confirm or does not agree with the held candidate. The first two kinds of poll, and no
      others, are reported as unavailable. */
  lemma RestartExact(c: Policy, tr: seq<Turn>, j: nat)
    requires ProperPolicy(c) && IsRun(c, tr) && j < |tr| && Attachment(tr, j).Some?
    ensures tr[j].emitted.restart <==>
            || tr[j].input.BatchFailed? || RowMissing(c, tr, j) || KickRefused(c, tr, j)
            || (ReadyAt(c, tr, j) && SameRow(tr, j) && (!ConfirmsAt(tr, j) || AgreeingAt(tr, j, false)))
    ensures tr[j].emitted.unavailable <==> RowMissing(c, tr, j) || KickRefused(c, tr, j)
  {
    assert Legal(c, tr[j]);
    OccupantFollows(c, tr, j);
    if tr[j].input.Polled? {
      PollByTrace(c, tr, j);
      VerificationByTrace(c, tr, j);
      StepEvents(c, tr[j]);
      if SameRow(tr, j) {
        CandidateByTrace(c, tr, j, true);
        CandidateByTrace(c, tr, j, false);
      }
    } else {
      StepSilent(c, tr[j]);
      StepRestarts(c, tr[j]);
    }
  }

  lemma StepRestarts(c: Policy, t: Turn)
    requires Legal(c, t) && !t.input.Polled? && t.before.queue.Some?
    ensures t.emitted.restart <==> t.input.BatchFailed?
  {
  }

  // ----- Why a kick was written

  /** The full reason for a kick at `j`: one attachment from `a` to `j`; a valid, nonempty backlog and a fixed
      `used` in every batched read and no restart; live rows from `i` to `j`, the first of them a threshold or more
      after `a`, that agree in identity, used and consumed and are all stuck. */
  predicate Justified(c: Policy, tr: seq<Turn>, a: nat, i: nat, j: nat)
    requires a <= i < j < |tr|
  {
    && SameRow(tr, i) && SameRow(tr, j)
    && var k := CandidateOf(tr[i].input);
       && Aging(tr, a, j, Identity(k.snapshot), k.used)
       && Quiet(tr[j].input, Identity(k.snapshot), k.used)
       && tr[i].input.now - tr[a].input.now >= c.threshold
       && (forall m :: i <= m <= j && tr[m].input.Polled? ==>
             && tr[m].input.live.Some?
             && var l := tr[m].input.live.value;
                && Identity(l.s) == Identity(k.snapshot) && l.used == k.used && l.s.lastAvail == k.snapshot.lastAvail
                && 0 < Sub16(l.avail, l.s.lastAvail) <= l.s.num && Sub16(l.avail, l.used) <= l.s.num
                && !Bit(l.s.workFlags, 1))
  }

  /** The tests on live rows, field by field. */
  lemma RowsExact(k: Candidate, l: Live)
    ensures Agrees(k, l) <==>
            Identity(l.s) == Identity(k.snapshot) && l.used == k.used && l.s.lastAvail == k.snapshot.lastAvail
    ensures Stuck(l) <==>
            && 0 < Sub16(l.avail, l.s.lastAvail) <= l.s.num && Sub16(l.avail, l.used) <= l.s.num
            && !Bit(l.s.workFlags, 1)
  {
    BusyExact(l.s);
  }

  /** A held candidate continues the aging it was taken on. */
  lemma HeldAges(c: Policy, tr: seq<Turn>, i: nat, j: nat) returns (a: nat)
    requires ProperPolicy(c) && IsRun(c, tr) && i < j < |tr| && HeldFrom(tr, i, j)
    ensures a <= i && tr[i].input.now - tr[a].input.now >= c.threshold && ConfirmsAt(tr, i)
    ensures var k := CandidateOf(tr[i].input); Aging(tr, a, j, Identity(k.snapshot), k.used)
  {
    CandidateExact(c, tr, i);
    var k := CandidateOf(tr[i].input);
    a :| a <= i && Stretch(tr, a, i) && tr[i].input.now - tr[a].input.now >= c.threshold;
    assert !tr[i].emitted.restart by {
      assert Legal(c, tr[i]);
      StepTakesQuietly(c, tr[i]);
    }
    assert Aging(tr, a, j, Identity(k.snapshot), k.used);
  }

  lemma StepTakesQuietly(c: Policy, t: Turn)
    requires Legal(c, t) && t.emitted.candidate
    ensures !t.emitted.restart
  {
  }

  /** Every kick of every run is justified by an earlier tick on the same queue object. */
  lemma KickJustified(c: Policy, tr: seq<Turn>, j: nat)
    requires ProperPolicy(c) && IsRun(c, tr) && j < |tr| && tr[j].emitted.kick
    ensures exists a: nat, i: nat :: a <= i < j && HeldFrom(tr, i, j) && Justified(c, tr, a, i, j)
  {
    KickExact(c, tr, j);
    var i: nat :| i <= j && HeldFrom(tr, i, j) && Agrees(CandidateOf(tr[i].input), tr[j].input.live.value) == true;
    HeldIsHolding(c, tr, i, j);
    var a := HeldAges(c, tr, i, j);
    forall m | i <= m <= j && tr[m].input.Polled? && tr[m].input.live.Some?
      ensures Agrees(CandidateOf(tr[i].input), tr[m].input.live.value) && Stuck(tr[m].input.live.value)
    {
      RowsExact(CandidateOf(tr[i].input), tr[m].input.live.value);
    }
    assert Justified(c, tr, a, i, j) by {
      forall m | i <= m <= j && tr[m].input.Polled? && tr[m].input.live.Some? {
        RowsExact(CandidateOf(tr[i].input), tr[m].input.live.value);
      }
    }
  }

  // ----- Stall reports

  /** The stall reported at turn `r` is still the present one before turn `n`: nothing restarted or changed. */
  predicate ReportedFrom(tr: seq<Turn>, r: nat, n: nat)
    requires r <= n <= |tr|
  {
    && r < n && tr[r].emitted.stall && !tr[r].emitted.restart && tr[r].input.Polled? && Attachment(tr, r).Some?
    && forall m :: r < m < n ==>
         Quiet(tr[m].input, Attachment(tr, r).value, tr[r].input.used) && !tr[m].emitted.restart
  }

  /** The slot is marked as reported, on a timer that had aged a threshold at `at`. */
  predicate Reported(c: Policy, slot: Slot, identity: Snapshot, used: int, at: real) {
    slot.queue.Some?
    && var q := slot.queue.value;
       && q.reported && Identity(q.snapshot) == identity
       && q.progress.eligible && q.progress.used == used && at - q.progress.since >= c.threshold
  }

  lemma StepStalls(c: Policy, t: Turn)
    requires Legal(c, t) && t.emitted.stall
    ensures t.input.Polled? && t.before.queue.Some?
    ensures if t.emitted.restart then t.after.queue.Some? ==> !t.after.queue.value.reported
            else Reported(c, t.after, OccupantOf(t.before).value, t.input.used, t.input.now)
  {
  }

  lemma StepReported(c: Policy, t: Turn, identity: Snapshot, used: int, at: real)
    requires ProperPolicy(c) && Legal(c, t) && Reported(c, t.before, identity, used, at) && at <= t.input.now
    ensures !t.emitted.stall
    ensures Reported(c, t.after, identity, used, t.input.now) <==>
            Quiet(t.input, identity, used) && !t.emitted.restart
    ensures t.after.queue.Some? && t.after.queue.value.reported ==>
              Reported(c, t.after, identity, used, t.input.now)
  {
  }

  lemma StepUnreported(c: Policy, t: Turn)
    requires Legal(c, t) && !t.emitted.stall && (t.before.queue.Some? ==> !t.before.queue.value.reported)
    ensures t.after.queue.Some? ==> !t.after.queue.value.reported
  {
  }

  lemma {:induction false} ReportedIsMarked(c: Policy, tr: seq<Turn>, r: nat, n: nat)
    requires ProperPolicy(c) && IsRun(c, tr) && r < n < |tr| && ReportedFrom(tr, r, n)
    ensures Reported(c, tr[n].before, Attachment(tr, r).value, tr[r].input.used, tr[n - 1].input.now)
  {
    assert Linked(tr, n) && Legal(c, tr[n - 1]);
    if n - 1 == r {
      OccupantFollows(c, tr, r);
      StepStalls(c, tr[r]);
    } else {
      ReportedIsMarked(c, tr, r, n - 1);
      StepReported(c, tr[n - 1], Attachment(tr, r).value, tr[r].input.used, tr[n - 2].input.now);
    }
  }

  lemma {:induction false} MarkIsAReport(c: Policy, tr: seq<Turn>, n: nat) returns (r: nat)
    requires ProperPolicy(c) && IsRun(c, tr) && n < |tr|
    requires tr[n].before.queue.Some? && tr[n].before.queue.value.reported
    ensures r < n && ReportedFrom(tr, r, n)
  {
    assert Linked(tr, n) && Legal(c, tr[n - 1]);
    var t := tr[n - 1];
    if t.emitted.stall {
      r := n - 1;
      OccupantFollows(c, tr, r);
      StepStalls(c, t);
    } else {
      if t.before.queue.None? || !t.before.queue.value.reported {
        StepUnreported(c, t);
        assert false;
      }
      r := MarkIsAReport(c, tr, n - 1);
      ReportedIsMarked(c, tr, r, n - 1);
      StepReported(c, t, Attachment(tr, r).value, tr[r].input.used, tr[n - 2].input.now);
    }
  }

  /** Some earlier report is still the present one. */
  ghost predicate AlreadyReported(tr: seq<Turn>, j: nat)
    requires j < |tr|
  {
    exists r: nat :: r <= j && ReportedFrom(tr, r, j)
  }

  lemma MarkByTrace(c: Policy, tr: seq<Turn>, j: nat)
    requires ProperPolicy(c) && IsRun(c, tr) && j < |tr|
    ensures tr[j].before.queue.Some? && tr[j].before.queue.value.reported <==> AlreadyReported(tr, j)
  {
    if tr[j].before.queue.Some? && tr[j].before.queue.value.reported {
      var r := MarkIsAReport(c, tr, j);
    }
    forall r: nat | r <= j && ReportedFrom(tr, r, j)
      ensures tr[j].before.queue.Some? && tr[j].before.queue.value.reported
    {
      ReportedIsMarked(c, tr, r, j);
    }
  }

  /** A stall is reported exactly when a ready queue's row confirms and agrees with the held candidate, for the
      first time since the timer was last restarted. */
  lemma StallExact(c: Policy, tr: seq<Turn>, j: nat)
    requires ProperPolicy(c) && IsRun(c, tr) && j < |tr|
    ensures tr[j].emitted.stall <==>
            ReadyAt(c, tr, j) && ConfirmsAt(tr, j) && AgreeingAt(tr, j, true) && !AlreadyReported(tr, j)
  {
    assert Legal(c, tr[j]);
    OccupantFollows(c, tr, j);
    if tr[j].input.Polled? && Attachment(tr, j).Some? {
      PollByTrace(c, tr, j);
      MarkByTrace(c, tr, j);
      StepEvents(c, tr[j]);
      if SameRow(tr, j) {
        CandidateByTrace(c, tr, j, true);
      }
    } else {
      StepSilent(c, tr[j]);
    }
  }

  /** Two stall reports of one FD slot are at least a threshold apart, and the stretch behind the second one began
      after the first, across errors, identity changes and failed batch reads. */
  lemma StallReportsSpaced(c: Policy, tr: seq<Turn>, i: nat, j: nat) returns (a: nat)
    requires ProperPolicy(c) && IsRun(c, tr) && i < j < |tr| && tr[i].emitted.stall && tr[j].emitted.stall
    ensures tr[j].input.now - tr[i].input.now >= c.threshold
    ensures i < a < j && Stretch(tr, a, j) && tr[j].input.now - tr[a].input.now >= c.threshold
    ensures forall b: nat :: b <= i ==> !Stretch(tr, b, j)
  {
    StallExact(c, tr, i);
    StallExact(c, tr, j);
    forall b: nat | b <= i ensures !Stretch(tr, b, j) {
      if Stretch(tr, b, j) {
        AgingAttachment(tr, b, i, j, Attachment(tr, j).value, tr[j].input.used);
        assert Quiet(tr[i].input, Attachment(tr, j).value, tr[j].input.used);
        assert ReportedFrom(tr, i, j);
      }
    }
    a :| a <= j && Stretch(tr, a, j) && tr[j].input.now - tr[a].input.now >= c.threshold;
  }

  // ----- Verification

  /** A turn that neither decides nor abandons an outstanding verification of `identity`. */
  predicate Undecided(t: Turn, identity: Snapshot) {
    && t.emitted.verdict.None? && !t.emitted.kick && !t.emitted.unavailable && !t.input.BatchFailed?
    && (t.input.Inventory? ==> t.input.found.Some? && Identity(t.input.found.value) == identity)
  }

  /** The verification outstanding before turn `n` is that of the kick of turn `k`. */
  predicate Outstanding(tr: seq<Turn>, k: nat, n: nat)
    requires k <= n <= |tr|
  {
    && k < n && tr[k].emitted.kick && SameRow(tr, k)
    && forall m :: k < m < n ==> Undecided(tr[m], Identity(tr[k].input.live.value.s))
  }

  ghost predicate VerifyingAt(tr: seq<Turn>, n: nat)
    requires n <= |tr|
  {
    exists k: nat :: k <= n && Outstanding(tr, k, n)
  }

  /** The slot waits for the verification of the kick that input `i` led to, on the attachment kicked. */
  predicate Verifying(slot: Slot, i: Input) {
    && i.Polled? && i.live.Some? && OccupantOf(slot) == Some(Identity(i.live.value.s))
    && slot.queue.value.verification == Some(Verification(i.now, i.live.value.used, i.live.value.s.lastAvail, true))
  }

  lemma StepKicked(c: Policy, t: Turn)
    requires Legal(c, t) && t.emitted.kick
    ensures Verifying(t.after, t.input) && OccupantOf(t.before) == OccupantOf(t.after)
  {
  }

  lemma StepWaits(c: Policy, t: Turn, i: Input)
    requires Legal(c, t) && Verifying(t.before, i) && Undecided(t, Identity(i.live.value.s))
    ensures Verifying(t.after, i)
  {
  }

  lemma StepVerifies(c: Policy, t: Turn)
    requires Legal(c, t) && t.after.queue.Some? && t.after.queue.value.verification.Some? && !t.emitted.kick
    ensures OccupantOf(t.before) == OccupantOf(t.after) && Undecided(t, OccupantOf(t.after).value)
    ensures t.before.queue.value.verification == t.after.queue.value.verification
  {
  }

  lemma {:induction false} OutstandingIsVerifying(c: Policy, tr: seq<Turn>, k: nat, n: nat)
    requires IsRun(c, tr) && k < n < |tr| && Outstanding(tr, k, n)
    ensures Verifying(tr[n].before, tr[k].input)
  {
    assert Linked(tr, n) && Legal(c, tr[n - 1]);
    if n - 1 == k {
      StepKicked(c, tr[k]);
    } else {
      OutstandingIsVerifying(c, tr, k, n - 1);
      StepWaits(c, tr[n - 1], tr[k].input);
    }
  }

  /** An outstanding verification is that of the latest kick, on the attachment that was kicked. */
  lemma {:induction false} VerificationIsAKick(c: Policy, tr: seq<Turn>, n: nat) returns (k: nat)
    requires IsRun(c, tr) && n < |tr|
    requires tr[n].before.queue.Some? && tr[n].before.queue.value.verification.Some?
    ensures k < n && Outstanding(tr, k, n) && Verifying(tr[n].before, tr[k].input)
  {
    assert Linked(tr, n) && Legal(c, tr[n - 1]);
    if tr[n - 1].emitted.kick {
      k := n - 1;
      StepKicked(c, tr[k]);
      OccupantFollows(c, tr, k);
    } else {
      StepVerifies(c, tr[n - 1]);
      k := VerificationIsAKick(c, tr, n - 1);
    }
  }

  lemma VerificationByTrace(c: Policy, tr: seq<Turn>, n: nat)
    requires IsRun(c, tr) && n < |tr|
    ensures tr[n].before.queue.Some? && tr[n].before.queue.value.verification.Some? <==> VerifyingAt(tr, n)
  {
    if tr[n].before.queue.Some? && tr[n].before.queue.value.verification.Some? {
      var k := VerificationIsAKick(c, tr, n);
    }
    forall k: nat | k <= n && Outstanding(tr, k, n) ensures Verifying(tr[n].before, tr[k].input) {
      OutstandingIsVerifying(c, tr, k, n);
    }
  }

  /** Both counters moved past the row the kick was based on. */
  predicate Moved(was: Live, now: Live) {
    now.used != was.used && now.s.lastAvail != was.s.lastAvail
  }

  /** Exactly a live row of the kicked attachment decides an outstanding verification: recovered when both used
      and consumed changed, else unconfirmed once the timeout has passed. */
  lemma OutstandingIsJudged(c: Policy, tr: seq<Turn>, k: nat, n: nat)
    requires IsRun(c, tr) && k < n < |tr| && Outstanding(tr, k, n)
    ensures tr[n].emitted.verdict ==
            if !SameRow(tr, n) then None
            else if Moved(tr[k].input.live.value, tr[n].input.live.value) then Some(Recovered)
            else if tr[n].input.now - tr[k].input.now >= c.verifyTimeout then Some(Unconfirmed)
            else None
  {
    assert Legal(c, tr[n]);
    OutstandingIsVerifying(c, tr, k, n);
    OccupantFollows(c, tr, n);
    if tr[n].input.Polled? {
      StepEvents(c, tr[n]);
    } else {
      StepSilent(c, tr[n]);
    }
  }

  /** Every verdict judges the kick it follows through a live row of the attachment that was kicked: a
      recovery changed both used and consumed, anything else is a timeout without such a change. */
  lemma VerdictJudgesItsKick(c: Policy, tr: seq<Turn>, n: nat) returns (k: nat)
    requires IsRun(c, tr) && n < |tr| && tr[n].emitted.verdict.Some?
    ensures k < n && Outstanding(tr, k, n) && SameRow(tr, n)
    ensures Identity(tr[k].input.live.value.s) == Identity(tr[n].input.live.value.s)
    ensures tr[n].emitted.verdict.value.Recovered? <==> Moved(tr[k].input.live.value, tr[n].input.live.value)
    ensures tr[n].emitted.verdict.value.Unconfirmed? ==> tr[n].input.now - tr[k].input.now >= c.verifyTimeout
  {
    assert Legal(c, tr[n]);
    StepJudges(c, tr[n]);
    k := VerificationIsAKick(c, tr, n);
    OutstandingIsJudged(c, tr, k, n);
    OccupantFollows(c, tr, n);
  }

  lemma StepJudges(c: Policy, t: Turn)
    requires Legal(c, t) && t.emitted.verdict.Some?
    ensures t.before.queue.Some? && t.before.queue.value.verification.Some?
  {
  }

  // ----- The balance of verifications

  predicate Waiting(slot: Slot) {
    slot.queue.Some? && slot.queue.value.verification.Some?
  }

  /** Turn `m` loses an outstanding verification without a verdict: its queue is unavailable, the batch read fails, or
      an inventory drops or replaces the attachment. */
  ghost predicate AbandonsAt(tr: seq<Turn>, m: nat)
    requires m < |tr|
  {
    && VerifyingAt(tr, m) && tr[m].emitted.verdict.None?
    && (|| tr[m].emitted.unavailable || tr[m].input.BatchFailed?
        || (tr[m].input.Inventory?
            && (tr[m].input.found.None? || Some(Identity(tr[m].input.found.value)) != Attachment(tr, m))))
  }

  /** Turn `m` kicks while a verification is outstanding and undecided: it is overwritten without any event. */
  ghost predicate SupersedesAt(tr: seq<Turn>, m: nat)
    requires m < |tr|
  {
    VerifyingAt(tr, m) && tr[m].emitted.verdict.None? && tr[m].emitted.kick
  }

  function One(b: bool): nat {
    if b then 1 else 0
  }

  ghost function Verdicts(tr: seq<Turn>, n: nat): nat
    requires n <= |tr|
  {
    if n == 0 then 0 else Verdicts(tr, n - 1) + One(tr[n - 1].emitted.verdict.Some?)
  }

  ghost function Abandonments(tr: seq<Turn>, n: nat): nat
    requires n <= |tr|
  {
    if n == 0 then 0 else Abandonments(tr, n - 1) + One(AbandonsAt(tr, n - 1))
  }

  ghost function Supersessions(tr: seq<Turn>, n: nat): nat
    requires n <= |tr|
  {
    if n == 0 then 0 else Supersessions(tr, n - 1) + One(SupersedesAt(tr, n - 1))
  }

  lemma StepBalances(c: Policy, t: Turn)
    requires Legal(c, t)
    ensures var undecided := Waiting(t.before) && t.emitted.verdict.None?;
            var lost := || t.emitted.unavailable || t.input.BatchFailed?
                        || (t.input.Inventory?
                            && (t.input.found.None? || Some(Identity(t.input.found.value)) != OccupantOf(t.before)));
            One(t.emitted.kick) + One(Waiting(t.before)) ==
            One(t.emitted.verdict.Some?) + One(undecided && lost) + One(undecided && t.emitted.kick) + One(Waiting(t.after))
  {
  }

  /** Every kick's verification got its verdict, was abandoned, was superseded by a later kick, or is the one still
      outstanding; each exactly once. */
  lemma {:induction false} VerificationsBalance(c: Policy, tr: seq<Turn>, n: nat)
    requires IsRun(c, tr) && n <= |tr|
    ensures |KickTimes(tr, n)| == Verdicts(tr, n) + Abandonments(tr, n) + Supersessions(tr, n)
                                  + One(n > 0 && Waiting(tr[n - 1].after))
  {
    if n > 0 {
      VerificationsBalance(c, tr, n - 1);
      assert Legal(c, tr[n - 1]) && Linked(tr, n - 1);
      StepBalances(c, tr[n - 1]);
      VerificationByTrace(c, tr, n - 1);
      OccupantFollows(c, tr, n - 1);
    }
  }

  lemma {:induction false} KickHasItsTime(tr: seq<Turn>, k: nat, n: nat)
    requires k < n <= |tr| && tr[k].emitted.kick
    ensures |KickTimes(tr, k)| < |KickTimes(tr, n)| && KickTimes(tr, n)[|KickTimes(tr, k)|] == tr[k].input.now
  {
    if k < n - 1 {
      KickHasItsTime(tr, k, n - 1);
    }
  }

  lemma KicksApart(c: Policy, tr: seq<Turn>, k: nat, n: nat)
    requires ProperPolicy(c) && IsRun(c, tr) && k < n < |tr| && tr[k].emitted.kick && tr[n].emitted.kick
    ensures tr[n].input.now - tr[k].input.now >= c.limits.cooldown
  {
    LimitsHold(c, tr, n + 1);
    KickHasItsTime(tr, k, n);
    KickHasItsTime(tr, k, n + 1);
    KickHasItsTime(tr, n, n + 1);
  }

  /** A kick supersedes the outstanding one exactly when not both counters moved since and the timeout has not
      passed; never when the cooldown is at least the timeout. */
  lemma SupersessionExact(c: Policy, tr: seq<Turn>, k: nat, n: nat)
    requires ProperPolicy(c) && IsRun(c, tr) && k < n < |tr| && Outstanding(tr, k, n) && tr[n].emitted.kick
    ensures SameRow(tr, n)
    ensures SupersedesAt(tr, n) <==>
            && !Moved(tr[k].input.live.value, tr[n].input.live.value)
            && tr[n].input.now - tr[k].input.now < c.verifyTimeout
    ensures c.limits.cooldown >= c.verifyTimeout ==> !SupersedesAt(tr, n)
  {
    KickExact(c, tr, n);
    OutstandingIsJudged(c, tr, k, n);
    KicksApart(c, tr, k, n);
  }
}
