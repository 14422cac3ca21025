/** A fault experiment as a whole: the user-space controller (internal/fault/run_linux.go) beside the kernel module
    it loads and removes (fault-injection/host/vhost_fault.c). */
module FaultExperiment {
  import opened Words
  import opened FaultController
  import Injector

  /** The controller's actions happen at points of a run of the injector, in order. The kernel answers
      delete_module with success, or reports the module absent, only once the module's exit has returned. */
  ghost predicate Placed(ic: Injector.Config, trace: seq<Action>, at: seq<nat>,
                         states: seq<Injector.State>, moves: seq<Injector.Move>) {
    && Injector.IsRun(ic, states, moves)
    && |at| == |trace| && (forall k :: 0 <= k < |at| ==> at[k] <= |moves|)
    && (forall j, k :: 0 <= j <= k < |at| ==> at[j] <= at[k])
    && (forall k :: 0 <= k < |trace| && trace[k].Unloaded? ==> states[at[k]].m.exit.Gone?)
  }

  /** From point `n` on the injector is inert: no handler runs or starts, and no key is cleared. */
  ghost predicate Inert(states: seq<Injector.State>, moves: seq<Injector.Move>, n: nat)
    requires |states| == |moves| + 1 && n <= |moves|
  {
    && Injector.Quiescent(states[n].g) && !states[n].m.firing
    && (forall m :: n <= m <= |moves| ==> states[m].g == states[n].g)
    && (forall m :: n <= m < |moves| ==> !moves[m].Enter?)
  }

  lemma GoneIsInert(ic: Injector.Config, states: seq<Injector.State>, moves: seq<Injector.Move>, n: nat)
    requires Injector.IsRun(ic, states, moves) && n <= |moves| && states[n].m.exit.Gone?
    ensures Inert(states, moves, n)
  {
    Injector.LifecycleSafe(ic, states, moves, n);
    forall m | n <= m <= |moves| ensures states[m].g == states[n].g {
      Injector.NothingAfterUnload(ic, states, moves, n, m);
    }
    Injector.NothingAfterUnload(ic, states, moves, n, |moves|);
  }

  /** In every joint run, the injector is inert from the moment a recovery kick is attempted: it cannot swallow the
      wakeup. */
  lemma KickMeetsInertInjector(ic: Injector.Config, trace: seq<Action>, at: seq<nat>,
                               states: seq<Injector.State>, moves: seq<Injector.Move>, k: nat)
    requires Placed(ic, trace, at, states, moves) && KicksAfterUnload(trace) && k < |trace| && trace[k].Kick?
    ensures Inert(states, moves, at[k])
  {
    var j :| 0 <= j < k && trace[..k][j] == Unloaded;
    assert trace[j].Unloaded?;
    Injector.NothingAfterUnload(ic, states, moves, at[j], at[k]);
    GoneIsInert(ic, states, moves, at[k]);
  }

  /** Whatever the ticks and the module do, no kick of the controller is attempted while the injector could still
      swallow it. The one entry `Unloaded` of the trace stands for an attempt to remove the module that succeeded. */
  method Experiment(c: FaultController.Config, ticks: seq<Tick>, e: Cleanup)
    returns (trace: seq<Action>, processed: nat, end: Option<Ending>, unloadFailed: bool, recoverFailed: bool)
    ensures Loops(c, ticks, processed, end) && Outcome(c, ticks, e, processed, end, trace, unloadFailed, recoverFailed)
    ensures OneUnload(trace)
    ensures !unloadFailed && e.alive && !recoverFailed ==> Progress in trace || Kick(true) in trace
    ensures forall ic, at, states, moves, k: nat ::
              Placed(ic, trace, at, states, moves) && k < |trace| && trace[k].Kick? ==> Inert(states, moves, at[k])
  {
    trace, processed, end, unloadFailed, recoverFailed := FaultController.Run(c, ticks, e);
    forall ic, at, states, moves, k: nat | Placed(ic, trace, at, states, moves) && k < |trace| && trace[k].Kick?
      ensures Inert(states, moves, at[k])
    {
      KickMeetsInertInjector(ic, trace, at, states, moves, k);
    }
  }
}
