/** The user-space controller of a fault experiment (internal/fault/run_linux.go, Run), from the moment the
    module is loaded: the ticker loop and the deferred cleanup. */
module FaultController {
  import opened Words

  /** Times in seconds; `windowEnd` is the end of the injection window, `recoverAfter` 0 disables the deadline. */
  datatype Config = Config(windowEnd: real, recoverAfter: real)

  datatype UnloadReply = Deleted | Absent | Busy | Refused

  const UNLOAD_TRIES := 100

  /** What the environment answers during one tick of the loop. */
  datatype Tick = Tick(
    now: real, alive: bool, stats: Option<nat>, unload: nat -> UnloadReply,
    baseline: Option<u16>, used: Option<u16>)

  /** How the recovery closure ends before or inside Rekick. */
  datatype RecoverReply = IdentityChanged | NoDuplicate | NoSnapshot | AttachmentChanged | NoInventory | KickRefused | KickWritten

  /** What the environment answers during the deferred cleanup. */
  datatype Cleanup = Cleanup(unload: nat -> UnloadReply, alive: bool, recover: RecoverReply)

  datatype Action =
    | Disarmed(dropped: nat)
    | Unloaded
    | UnloadFailed
    | Progress
    | Deadline
    | Kick(written: bool)

  /** The first `n` tries found the module busy. */
  predicate BusyFor(replies: nat -> UnloadReply, n: nat) {
    forall i: nat :: i < n ==> replies(i).Busy?
  }

  /** Some try within the limit removes the module, and every earlier one found it busy. */
  ghost predicate Unloads(replies: nat -> UnloadReply) {
    exists n: nat :: n < 100 && BusyFor(replies, n) && (replies(n).Deleted? || replies(n).Absent?)
  }

  /** Retries while the module is busy, at most a hundred times. */
  method Unload(replies: nat -> UnloadReply) returns (ok: bool)
    ensures ok <==> Unloads(replies)
  {
    for i := 0 to UNLOAD_TRIES
      invariant BusyFor(replies, i)
    {
      if replies(i).Deleted? || replies(i).Absent? {
        return true;
      }
      if !replies(i).Busy? {
        forall n: nat | n < 100 && BusyFor(replies, n) ensures !replies(n).Deleted? && !replies(n).Absent? {
          assert n <= i;
        }
        return false;
      }
    }
    return false;
  }

  // ----- What a run promises

  /** Every kick comes after a successful unload. */
  predicate KicksAfterUnload(trace: seq<Action>) {
    forall k :: 0 <= k < |trace| && trace[k].Kick? ==> Unloaded in trace[..k]
  }

  /** The deadline, if there is one, has passed at `now`. */
  predicate Overdue(c: Config, now: real) {
    c.recoverAfter > 0.0 && now >= c.windowEnd + c.recoverAfter
  }

  /** The module is removed at most once. */
  predicate OneUnload(trace: seq<Action>) {
    forall i, j :: 0 <= i < j < |trace| && trace[i].Unloaded? ==> !trace[j].Unloaded?
  }

  datatype LoopState = LoopState(loaded: bool, recovered: bool, baseline: Option<u16>)

  /** The state of the loop, against its trace: the flags say what has happened so far. */
  predicate LoopInv(st: LoopState, trace: seq<Action>) {
    && (st.loaded <==> Unloaded !in trace)
    && (st.recovered <==> Progress in trace)
    && (st.baseline.Some? ==> !st.loaded)
    && (st.recovered ==> !st.loaded)
    && (forall a :: a in trace ==> !a.Kick?)
    && OneUnload(trace)
  }

  /** A clean end of the loop has a reason: cancellation is not an action, so the others leave their mark. */
  predicate CleanEnd(trace: seq<Action>, cancelled: bool) {
    cancelled || Progress in trace || Deadline in trace
  }

  /** Tick `t`, when it finds the module loaded, removes it. */
  ghost predicate UnloadsAt(c: Config, t: Tick) {
    t.alive && t.now >= c.windowEnd && t.stats.Some? && Unloads(t.unload)
  }

  /** The value of `used` that tick `t` measures progress against: the one kept from the tick that unloaded the
      module, or the one read in this tick right after a successful unload that dropped something. */
  ghost function BaselineAt(c: Config, t: Tick, st: LoopState): Option<u16> {
    if !st.loaded then st.baseline
    else if t.now >= c.windowEnd && t.stats.Some? && t.stats.value > 0 && Unloads(t.unload) then t.baseline
    else None
  }

  /** Why a tick ends the loop. */
  datatype Ending = Exited | NoStats | StillLoaded | NothingDropped | NoBaseline | NoReading | Progressed | PastDeadline

  /** Only progress and the deadline end it without an error. */
  predicate Fails(end: Option<Ending>) {
    end.Some? && !end.value.Progressed? && !end.value.PastDeadline?
  }

  /** The reason tick `t` has, in state `st`: the first of the calls it makes that goes wrong, then progress, then the
      deadline. */
  ghost function EndOf(c: Config, t: Tick, st: LoopState): Option<Ending> {
    var due, b := st.loaded && t.now >= c.windowEnd, BaselineAt(c, t, st);
    if !t.alive then Some(Exited)
    else if due && t.stats.None? then Some(NoStats)
    else if due && !Unloads(t.unload) then Some(StillLoaded)
    else if due && t.stats.value == 0 then Some(NothingDropped)
    else if due && b.None? then Some(NoBaseline)
    else if b.Some? && t.used.None? then Some(NoReading)
    else if b.Some? && t.used != b then Some(Progressed)
    else if (due || !st.loaded) && Overdue(c, t.now) then Some(PastDeadline)
    else None
  }

  /** One more action keeps the promises about unloads and kicks. */
  lemma OneMoreAction(trace: seq<Action>, a: Action)
    requires KicksAfterUnload(trace) && OneUnload(trace)
    requires (a.Unloaded? ==> Unloaded !in trace) && (a.Kick? ==> Unloaded in trace)
    ensures KicksAfterUnload(trace + [a]) && OneUnload(trace + [a])
    ensures forall x :: x in trace + [a] <==> x in trace || x == a
  {
    var trace' := trace + [a];
    forall k | 0 <= k < |trace'| && trace'[k].Kick? ensures Unloaded in trace'[..k] {
      assert trace'[..k] == trace[..k];
      assert k == |trace| ==> trace[..k] == trace;
    }
  }

  /** One tick. `end` says why it ends the loop; progress is a reading of `used` that differs from the baseline, and
      a clean end without progress means the deadline has passed. */
  method Iterate(c: Config, t: Tick, st0: LoopState, trace0: seq<Action>)
    returns (st: LoopState, trace: seq<Action>, end: Option<Ending>)
    requires LoopInv(st0, trace0) && !st0.recovered
    ensures LoopInv(st, trace) && trace0 <= trace && end == EndOf(c, t, st0)
    ensures end.None? ==> !st.recovered && !Overdue(c, t.now) && (t.now >= c.windowEnd ==> !st.loaded)
    ensures end.Some? && !Fails(end) ==> CleanEnd(trace, false)
    ensures !t.alive ==> end == Some(Exited) && st == st0 && trace == trace0
    ensures st.recovered <==> end == Some(Progressed)
    ensures st.recovered ==> BaselineAt(c, t, st0).Some? && t.used.Some? && t.used != BaselineAt(c, t, st0)
    ensures st.loaded <==> st0.loaded && !UnloadsAt(c, t)
    ensures end.None? ==> st.baseline == BaselineAt(c, t, st0)
    ensures Deadline in trace <==> Deadline in trace0 || end == Some(PastDeadline)
    ensures end == Some(PastDeadline) ==> Overdue(c, t.now)
    ensures Disarmed(0) in trace <==> Disarmed(0) in trace0 || end == Some(NothingDropped)
  {
    st, trace, end := st0, trace0, None;
    if !t.alive {
      return st, trace, Some(Exited);
    }
    if st.loaded && t.now >= c.windowEnd {
      if t.stats.None? {
        return st, trace, Some(NoStats);
      }
      var ok := Unload(t.unload);
      if !ok {
        return st, trace + [UnloadFailed], Some(StillLoaded);
      }
      st := st.(loaded := false);
      trace := trace + [Unloaded, Disarmed(t.stats.value)];
      if t.stats.value == 0 {
        return st, trace, Some(NothingDropped);
      }
      if t.baseline.None? {
        return st, trace, Some(NoBaseline);
      }
      st := st.(baseline := t.baseline);
    }
    if st.baseline.Some? {
      if t.used.None? {
        return st, trace, Some(NoReading);
      }
      if t.used != st.baseline {
        st := st.(recovered := true);
        return st, trace + [Progress], Some(Progressed);
      }
    }
    if !st.loaded && c.recoverAfter > 0.0 && t.now >= c.windowEnd + c.recoverAfter {
      return st, trace + [Deadline], Some(PastDeadline);
    }
  }

  // ----- The loop, by the ticks alone

  /** The first of the first `n` ticks that removed the module. */
  ghost function UnloadTick(c: Config, ticks: seq<Tick>, n: nat): (r: Option<nat>)
    requires n <= |ticks|
    ensures r.Some? ==> r.value < n && UnloadsAt(c, ticks[r.value]) && forall i :: 0 <= i < r.value ==> !UnloadsAt(c, ticks[i])
    ensures r.None? ==> forall i :: 0 <= i < n ==> !UnloadsAt(c, ticks[i])
  {
    if n == 0 then None
    else
      var r := UnloadTick(c, ticks, n - 1);
      if r.Some? then r else if UnloadsAt(c, ticks[n - 1]) then Some(n - 1) else None
  }

  /** The state before tick `n`, when no tick has ended the loop. */
  ghost function StateBefore(c: Config, ticks: seq<Tick>, n: nat): LoopState
    requires n <= |ticks|
  {
    var u := UnloadTick(c, ticks, n);
    LoopState(u.None?, false, if u.Some? then ticks[u.value].baseline else None)
  }

  ghost function EndAt(c: Config, ticks: seq<Tick>, n: nat): Option<Ending>
    requires n < |ticks|
  {
    EndOf(c, ticks[n], StateBefore(c, ticks, n))
  }

  /** The loop processes ticks until one has a reason to end it, or until the context is cancelled. */
  ghost predicate Loops(c: Config, ticks: seq<Tick>, processed: nat, end: Option<Ending>) {
    && processed <= |ticks|
    && (forall i: nat :: i < processed - 1 ==> EndAt(c, ticks, i).None?)
    && (processed > 0 ==> EndAt(c, ticks, processed - 1) == end)
    && (end.None? ==> processed == |ticks|) && (end.Some? ==> processed > 0)
  }

  lemma LoopsMeans(c: Config, ticks: seq<Tick>, processed: nat, end: Option<Ending>)
    requires Loops(c, ticks, processed, end)
    ensures forall i :: 0 <= i < processed - 1 ==> ticks[i].alive && !Overdue(c, ticks[i].now)
    ensures end == Some(PastDeadline) ==> Overdue(c, ticks[processed - 1].now)
    ensures end == Some(Progressed) ==>
              var b := BaselineAt(c, ticks[processed - 1], StateBefore(c, ticks, processed - 1));
              b.Some? && ticks[processed - 1].used.Some? && ticks[processed - 1].used != b
  {
    forall i: nat | i < processed - 1 ensures ticks[i].alive && !Overdue(c, ticks[i].now) {
      assert EndAt(c, ticks, i).None?;
    }
  }

  /** The deferred cleanup: unload if still loaded, then recover unless progress was seen. Its outcome is that of the
      calls it makes. */
  method CleanUp(e: Cleanup, st: LoopState, trace0: seq<Action>)
    returns (trace: seq<Action>, unloadFailed: bool, recoverFailed: bool)
    requires LoopInv(st, trace0)
    ensures trace0 <= trace && KicksAfterUnload(trace) && OneUnload(trace)
    ensures forall k :: |trace0| <= k < |trace| ==>
              (trace[k].Unloaded? && k == |trace0|) || trace[k].UnloadFailed? || (trace[k].Kick? && k == |trace| - 1)
    ensures unloadFailed <==> Unloaded !in trace
    ensures unloadFailed <==> st.loaded && !Unloads(e.unload)
    ensures Unloaded in trace <==> Unloaded in trace0 || Unloads(e.unload)
    ensures Kick(true) in trace <==> !unloadFailed && !st.recovered && e.alive && e.recover.KickWritten?
    ensures Kick(false) in trace <==> recoverFailed
    ensures recoverFailed <==> !unloadFailed && !st.recovered && e.alive && !e.recover.KickWritten?
  {
    trace, unloadFailed, recoverFailed := trace0, false, false;
    if st.loaded {
      var ok := Unload(e.unload);
      if !ok {
        OneMoreAction(trace, UnloadFailed);
        return trace + [UnloadFailed], true, false;
      }
      OneMoreAction(trace, Unloaded);
      trace := trace + [Unloaded];
    }
    if !st.recovered && e.alive {
      OneMoreAction(trace, Kick(e.recover.KickWritten?));
      trace := trace + [Kick(e.recover.KickWritten?)];
      recoverFailed := !e.recover.KickWritten?;
    }
  }

  /** Everything is determined by what the calls answered: the module was removed exactly when one of the attempts to
      remove it succeeded, and a kick was written or refused exactly when recovery got that far. */
  ghost predicate Outcome(c: Config, ticks: seq<Tick>, e: Cleanup, processed: nat, end: Option<Ending>,
                          trace: seq<Action>, unloadFailed: bool, recoverFailed: bool)
    requires processed <= |ticks|
  {
    var removed := UnloadTick(c, ticks, processed).Some? || Unloads(e.unload);
    var recovering := removed && end != Some(Progressed) && e.alive;
    && (Unloaded in trace <==> removed) && unloadFailed == !removed
    && (Kick(true) in trace <==> recovering && e.recover.KickWritten?)
    && (Kick(false) in trace <==> recovering && !e.recover.KickWritten?)
    && recoverFailed == (recovering && !e.recover.KickWritten?)
    && (Progress in trace <==> end == Some(Progressed)) && (Deadline in trace <==> end == Some(PastDeadline))
    && (Disarmed(0) in trace <==> end == Some(NothingDropped))
  }

  /** The loop of Run. */
  method Loop(c: Config, ticks: seq<Tick>)
    returns (st: LoopState, trace: seq<Action>, processed: nat, end: Option<Ending>)
    ensures Loops(c, ticks, processed, end) && LoopInv(st, trace)
    ensures st.loaded <==> UnloadTick(c, ticks, processed).None?
    ensures st.recovered <==> end == Some(Progressed)
    ensures Deadline in trace <==> end == Some(PastDeadline)
    ensures Disarmed(0) in trace <==> end == Some(NothingDropped)
    ensures end.Some? && !Fails(end) ==> CleanEnd(trace, false)
    ensures forall i :: 0 <= i < processed - 1 ==> ticks[i].alive && !Overdue(c, ticks[i].now)
    ensures end == Some(PastDeadline) ==> Overdue(c, ticks[processed - 1].now)
    ensures end == Some(Progressed) ==>
              var b := BaselineAt(c, ticks[processed - 1], StateBefore(c, ticks, processed - 1));
              b.Some? && ticks[processed - 1].used.Some? && ticks[processed - 1].used != b
  {
    st, trace, processed, end := LoopState(true, false, None), [], 0, None;
    while end.None? && processed < |ticks|
      invariant processed <= |ticks| && LoopInv(st, trace)
      invariant end.None? ==> st == StateBefore(c, ticks, processed)
      invariant st.loaded <==> UnloadTick(c, ticks, processed).None?
      invariant forall i: nat :: i < processed - 1 ==> EndAt(c, ticks, i).None?
      invariant processed > 0 ==> EndAt(c, ticks, processed - 1) == end
      invariant end.Some? ==> processed > 0
      invariant st.recovered <==> end == Some(Progressed)
      invariant Deadline in trace <==> end == Some(PastDeadline)
      invariant Disarmed(0) in trace <==> end == Some(NothingDropped)
      invariant end.Some? && !Fails(end) ==> CleanEnd(trace, false)
      decreases |ticks| - processed
    {
      st, trace, end := Iterate(c, ticks[processed], st, trace);
      processed := processed + 1;
    }
    LoopsMeans(c, ticks, processed, end);
  }

  /** A whole armed run over any ticks; running out of ticks is the cancellation of the context.
      - The loop ends at the first tick with a reason, and fails exactly when that reason is an error.
      - A recovery kick is attempted only after a successful unload, and at most once; it is attempted exactly when the
        module was removed, no progress was seen and the target is alive.
      - With a successful unload, a live target and no recovery error, the queue was seen to progress or a
        kick was written.
      - No tick past a positive deadline is followed by another one.
      - An experiment that dropped nothing fails. */
  method Run(c: Config, ticks: seq<Tick>, e: Cleanup)
    returns (trace: seq<Action>, processed: nat, end: Option<Ending>, unloadFailed: bool, recoverFailed: bool)
    ensures Loops(c, ticks, processed, end) && Outcome(c, ticks, e, processed, end, trace, unloadFailed, recoverFailed)
    ensures KicksAfterUnload(trace) && OneUnload(trace)
    ensures forall i, j :: 0 <= i < j < |trace| && trace[i].Kick? ==> !trace[j].Kick?
    ensures !unloadFailed && e.alive && !recoverFailed ==> Progress in trace || Kick(true) in trace
    ensures Progress in trace ==> forall a :: a in trace ==> !a.Kick?
    ensures forall i :: 0 <= i < processed - 1 ==>
              ticks[i].alive && (c.recoverAfter <= 0.0 || ticks[i].now < c.windowEnd + c.recoverAfter)
    ensures !Fails(end) ==> CleanEnd(trace, processed == |ticks|)
    ensures Disarmed(0) in trace ==> Fails(end)
    ensures Progress in trace ==>
              var b := BaselineAt(c, ticks[processed - 1], StateBefore(c, ticks, processed - 1));
              b.Some? && ticks[processed - 1].used.Some? && ticks[processed - 1].used != b
    ensures Deadline in trace ==> processed > 0 && Overdue(c, ticks[processed - 1].now)
  {
    var st, looped;
    st, looped, processed, end := Loop(c, ticks);
    trace, unloadFailed, recoverFailed := CleanUp(e, st, looped);
    assert forall k :: 0 <= k < |looped| ==> trace[k] == looped[k] && looped[k] in looped;
    assert forall a :: a in trace && !a.Unloaded? && !a.UnloadFailed? && !a.Kick? ==> a in looped;
  }
}
