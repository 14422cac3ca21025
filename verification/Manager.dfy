/** Worker reconciliation (internal/watch/manager_linux.go, RunSelected): one watchdog per selected process
    generation, all sharing one BPF object. */
module Manager {
  import opened Selection
  import opened Roster
  import opened Passes

  class Manager {
    var workers: map<Generation, Worker>
    var retired: set<Generation>
    var targets: seq<Target>
    var started: nat
    var bpfOpen: bool
    /** The workers whose context was cancelled, and every receive from a `done` channel. */
    ghost var cancelled: set<nat>
    ghost var joined: multiset<nat>
    ghost var starts: seq<Generation>
    ghost var retiredAt: map<Generation, nat>
    /** The calls of the selector so far, and what each pass left behind. */
    ghost var history: History
    ghost var passes: seq<Pass>

    ghost predicate Valid()
      reads this
    {
      && Unique(workers) && Accounted(workers, started, joined)
      && RetiredForGood(workers, retired, starts, retiredAt)
      && Selected(targets) && |starts| == started
      && (workers != map[] ==> bpfOpen) && StartedAs(workers, starts)
    }

    /** Between two passes: the book is complete and the workers are those the last pass left. */
    ghost predicate Settled()
      reads this
    {
      Booked(history, passes, starts, retiredAt, workers.Keys)
    }

    /** The targets are those of a call that no pass has dealt with yet. */
    ghost predicate Pending()
      reads this
    {
      && Settled() && |history.calls| == |passes| + 1
      && LedTo(history, |passes|, workers.Keys, targets)
    }

    /** The history is that of this selector. */
    ghost predicate Follows(selector: Selector)
      reads this, selector
    {
      && Answered(history) && history.pids == selector.pids && history.pattern == selector.pattern
      && selector.anchored == AnchorsAfter(history, |history.calls|)
    }

    constructor (ts: seq<Target>, ghost h: History)
      requires Selected(ts) && Answered(h) && |h.calls| == 1 && LedTo(h, 0, {}, ts)
      ensures Valid() && Pending() && bpfOpen && targets == ts && workers == map[] && retired == {} && starts == []
      ensures history == h && passes == [] && retiredAt == map[]
    {
      workers, retired, targets, started, bpfOpen := map[], {}, ts, 0, true;
      cancelled, joined, starts, retiredAt := {}, multiset{}, [], map[];
      history, passes := h, [];
      BookOpens(h);
    }

    /** At no time do two unjoined workers watch one PID. */
    lemma AtMostOneWorkerPerPid(k: Generation, l: Generation)
      requires Valid() && k in workers && l in workers && workers[k].target.pid == workers[l].target.pid
      ensures k == l && joined[workers[k].id] == 0
    {
    }

    /** Receives from the worker's `done` channel and drops it from the table. The receive does not block for
        ever: the worker has exited or has been cancelled. */
    method Join(key: Generation, exit: Exit)
      requires Valid() && key in workers && (!exit.Running? || workers[key].id in cancelled)
      modifies this`workers, this`joined
      ensures Valid() && workers == old(workers) - {key}
      ensures joined == old(joined) + multiset{old(workers)[key].id}
    {
      JoinKeepsRoster(workers, started, joined, key);
      RetireKeeps(workers, retired, starts, retiredAt, key);
      joined := joined + multiset{workers[key].id};
      workers := workers - {key};
    }

    /** A clean exit retires the key: it is never started again. */
    method Retire(key: Generation, ghost was: map<Generation, Worker>)
      requires Valid() && key in was && workers == was - {key}
      requires RetiredForGood(was, retired, starts, retiredAt)
      modifies this`retired, this`retiredAt
      ensures Valid() && retired == old(retired) + {key}
      ensures retiredAt == old(retiredAt)[key := |starts|] && Extends(old(retiredAt), retiredAt)
    {
      RetireKeeps(was, retired, starts, retiredAt, key);
      retired := retired + {key};
      retiredAt := retiredAt[key := |starts|];
    }

    /** One worker of one pass: kept when it is wanted and running; cancelled and joined when it is not wanted;
        joined when it has finished, and its key retired when it finished cleanly. */
    method ReapOne(key: Generation, exit: Exit)
      requires Valid() && key in workers
      modifies this`workers, this`joined, this`cancelled, this`retired, this`retiredAt
      ensures Valid()
      ensures workers == KeptWorkers(old(workers), Wanted(targets), key, exit)
      ensures retired == NowRetired(old(retired), Wanted(targets), key, exit)
      ensures Extends(old(retiredAt), retiredAt)
      ensures forall k :: k in retired && k !in old(retired) ==> retiredAt[k] == |starts|
    {
      if key !in Wanted(targets) {
        cancelled := cancelled + {workers[key].id};
        Join(key, exit);
      } else if !exit.Running? {
        ghost var was := workers;
        Join(key, exit);
        if exit.ExitedCleanly? {
          Retire(key, was);
        }
      }
    }

    /** Walks the table in any order. */
    method Reap(exits: Generation -> Exit)
      requires Valid()
      modifies this`workers, this`joined, this`cancelled, this`retired, this`retiredAt
      ensures Valid() && ReapedExcept({}, Wanted(targets), exits, old(workers), old(retired), workers, retired)
      ensures Extends(old(retiredAt), retiredAt)
    {
      var rest := workers.Keys;
      while rest != {}
        invariant Valid() && ReapedExcept(rest, Wanted(targets), exits, old(workers), old(retired), workers, retired)
        invariant Extends(old(retiredAt), retiredAt)
        decreases rest
      {
        var key :| key in rest;
        OneMoreReaped(rest, Wanted(targets), exits, old(workers), old(retired), workers, retired, key);
        rest := rest - {key};
        ReapOne(key, exits(key));
      }
    }

    /** Starts a worker for every target that has none and is not retired. */
    method StartMissing()
      requires Valid() && bpfOpen && workers.Keys <= Wanted(targets)
      modifies this`workers, this`started, this`starts
      ensures Valid() && Providing(|targets|, targets, retired, old(workers), old(starts), workers, starts)
    {
      ProvidingBegins(targets, retired, workers, starts);
      for i := 0 to |targets|
        invariant Valid() && Providing(i, targets, retired, old(workers), old(starts), workers, starts)
      {
        Provide(i, old(workers), old(starts));
      }
    }

    /** One target of the pass that began with the workers `was` and the starts `before`. */
    method Provide(i: nat, ghost was: map<Generation, Worker>, ghost before: seq<Generation>)
      requires Valid() && bpfOpen && i < |targets|
      requires Providing(i, targets, retired, was, before, workers, starts)
      modifies this`workers, this`started, this`starts
      ensures Valid() && Providing(i + 1, targets, retired, was, before, workers, starts)
    {
      var t := targets[i];
      OneMoreProvided(i, targets, retired, was, before, workers, starts, Worker(t, started));
      if KeyOf(t) !in workers && KeyOf(t) !in retired {
        Start(i);
      }
    }

    method Start(i: nat)
      requires Valid() && bpfOpen && i < |targets| && workers.Keys <= Wanted(targets)
      requires KeyOf(targets[i]) !in workers && KeyOf(targets[i]) !in retired
      modifies this`workers, this`started, this`starts
      ensures Valid() && workers == old(workers)[KeyOf(targets[i]) := Worker(targets[i], old(started))]
      ensures starts == old(starts) + [KeyOf(targets[i])]
    {
      var t := targets[i];
      forall k | k in workers ensures workers[k].target.pid != t.pid {
        if workers[k].target.pid == t.pid {
          WantedPid(targets, workers[k].target, i);
        }
      }
      StartKeepsRoster(workers, started, joined, t);
      StartKeepsRetired(workers, retired, starts, retiredAt, KeyOf(t), Worker(t, started));
      workers := workers[KeyOf(t) := Worker(t, started)];
      started := started + 1;
      starts := starts + [KeyOf(t)];
    }

    /** One pass. Afterwards the workers are exactly the wanted keys that are not retired; a running, wanted
        worker is left alone and every other one was started once; exactly the clean exits retire. */
    method Reconcile(exits: Generation -> Exit)
      requires Valid() && bpfOpen
      modifies this`workers, this`joined, this`cancelled, this`retired, this`retiredAt, this`started, this`starts
      ensures Valid() && Extends(old(retiredAt), retiredAt)
      ensures workers.Keys == Wanted(targets) - retired && StartsFrom(old(starts), starts, targets)
      ensures forall k :: k in old(workers) && k in Wanted(targets) && exits(k).Running? ==>
                k in workers && workers[k] == old(workers)[k]
      ensures retired == old(retired) + CleanExits(old(workers).Keys, Wanted(targets), exits)
      ensures Launches(old(starts), starts, Launched(old(workers).Keys, workers.Keys, exits))
    {
      Reap(exits);
      ghost var kept := workers;
      StartMissing();
      PassDone(targets, exits, old(workers), old(retired), kept, retired, workers);
    }

    /** The pass, entered in the book. */
    method MakePass(exits: Generation -> Exit)
      requires Valid() && Pending() && bpfOpen
      modifies this`workers, this`joined, this`cancelled, this`retired, this`retiredAt, this`started, this`starts,
               this`passes
      ensures Valid() && Settled() && Extends(old(retiredAt), retiredAt) && old(starts) <= starts
      ensures passes == old(passes) + [Pass(targets, exits, retired, workers.Keys, started)]
    {
      Reconcile(exits);
      ghost var p := Pass(targets, exits, retired, workers.Keys, started);
      WorkersStarted(workers, starts);
      BookPass(history, passes, old(starts), old(retiredAt), old(workers.Keys), p, starts, retiredAt);
      passes := passes + [p];
    }

    /** Resolves again; while discovery is unavailable the present workers stay wanted. */
    method Retarget(selector: Selector, o: Observation, ghost h: History)
      requires Valid() && |o.processes| == |selector.pids| && h.pids == selector.pids && h.pattern == selector.pattern
      modifies this`targets, selector
      ensures Valid() && Retargeted(h, old(selector.anchored), o, workers.Keys, targets)
      ensures selector.anchored == Explicit(old(selector.anchored), selector.pids, o.processes).anchored
    {
      var r := selector.Resolve(o);
      if r.Resolved? {
        IncreasingIsSelected(r.targets);
        targets := r.targets;
      } else {
        targets := Watched();
      }
    }

    /** The next call, entered in the book. */
    method Refreshed(selector: Selector, o: Observation)
      requires Valid() && Settled() && Follows(selector) && |history.calls| == |passes|
      requires |o.processes| == |selector.pids|
      modifies this`targets, this`history, selector
      ensures Valid() && Pending() && Follows(selector) && history == Continued(old(history), o)
    {
      Retarget(selector, o, history);
      BookRefresh(history, o, passes, starts, retiredAt, workers.Keys, targets);
      history := Continued(history, o);
    }

    /** The targets of the present workers, in any order. */
    method Watched() returns (ts: seq<Target>)
      requires Valid()
      ensures Selected(ts) && workers.Keys == Wanted(ts)
    {
      ts := [];
      var rest := workers.Keys;
      while rest != {}
        invariant ListedExcept(workers, rest, ts)
        decreases rest
      {
        var key :| key in rest;
        OneMoreListed(workers, rest, ts, key);
        rest := rest - {key};
        ts := ts + [workers[key].target];
      }
      AllListed(workers, ts);
    }

    method JoinAll()
      requires Valid() && AllIn(workers, cancelled)
      modifies this`workers, this`joined
      ensures Valid() && workers == map[]
    {
      var rest := workers.Keys;
      while rest != {}
        invariant rest == workers.Keys && Valid() && AllIn(workers, cancelled)
        decreases rest
      {
        var key :| key in rest;
        rest := rest - {key};
        Join(key, Running);
      }
    }

    /** The deferred cleanup: every worker is cancelled, then joined, and only then is the shared BPF closed. */
    method Shutdown()
      requires Valid() && bpfOpen
      modifies this`cancelled, this`workers, this`joined, this`bpfOpen
      ensures Valid() && workers == map[] && !bpfOpen
      ensures AllJoinedOnce(started, joined)
    {
      cancelled := cancelled + set k | k in workers :: workers[k].id;
      JoinAll();
      EmptyTableIsAllJoined(started, joined);
      bpfOpen := false;
    }

    /** One round: a pass, and the next call when the run goes on. */
    method MakeRound(selector: Selector, rounds: seq<Round>, i: nat) returns (running: bool)
      requires Valid() && Pending() && bpfOpen && Follows(selector) && i == |passes| < |rounds|
      requires forall i :: 0 <= i < |rounds| ==> |rounds[i].observed.processes| == |selector.pids|
      modifies this`workers, this`joined, this`cancelled, this`retired, this`retiredAt, this`started, this`starts,
               this`passes, this`targets, this`history, selector
      ensures Valid() && Settled() && Follows(selector) && |passes| == i + 1
      ensures passes[..i] == old(passes) && passes[i].exits == rounds[i].exits
      ensures Extends(old(retiredAt), retiredAt) && old(starts) <= starts
      ensures running == (rounds[i].logOk && i + 1 < |rounds|)
      ensures if running then Pending() && history == Continued(old(history), rounds[i + 1].observed)
              else history == old(history)
    {
      MakePass(rounds[i].exits);
      running := rounds[i].logOk && i + 1 < |rounds|;
      if running {
        Refreshed(selector, rounds[i + 1].observed);
      }
    }

    /** The rounds, up to the first broken log. */
    method MakeRounds(selector: Selector, rounds: seq<Round>)
      requires Valid() && Pending() && bpfOpen && Follows(selector)
      requires rounds != [] && passes == [] && history.calls == [rounds[0].observed]
      requires forall i :: 0 <= i < |rounds| ==> |rounds[i].observed.processes| == |selector.pids|
      modifies this`workers, this`joined, this`cancelled, this`retired, this`retiredAt, this`started, this`starts,
               this`passes, this`targets, this`history, selector
      ensures Valid() && Settled() && |passes| == RoundsRun(rounds) && SawExits(passes, rounds)
      ensures history == old(history).(calls := Observed(rounds, RoundsRun(rounds)))
      ensures Extends(old(retiredAt), retiredAt) && old(starts) <= starts
    {
      var i, running := 0, true;
      ObservedFirst(rounds);
      while running
        invariant Valid() && Settled() && Follows(selector)
        invariant i == |passes| && Progress(rounds, i, running, old(history), history) && SawExits(passes, rounds)
        invariant running ==> Pending()
        invariant old(starts) <= starts && Extends(old(retiredAt), retiredAt)
        decreases |rounds| - i, running
      {
        ProgressMade(rounds, i, old(history), history);
        running := MakeRound(selector, rounds, i);
        i := i + 1;
      }
      RoundsCounted(rounds, i);
    }

    /** A whole run over any rounds, up to the first broken log. Every round is one pass, with the targets its
        call of Resolve found, and leaves exactly the wanted keys that are not retired with a worker. While any
        worker is unjoined the shared BPF is open; a key that retires is never started again; a PID is watched in
        two generations only where a running domain vouches for one of them. However the run ends, every started
        worker was joined exactly once before the shared BPF was closed. */
    method Run(selector: Selector, rounds: seq<Round>)
      requires Valid() && Pending() && bpfOpen && Follows(selector)
      requires rounds != [] && passes == [] && history.calls == [rounds[0].observed]
      requires forall i :: 0 <= i < |rounds| ==> |rounds[i].observed.processes| == |selector.pids|
      modifies this, selector
      ensures Valid() && workers == map[] && !bpfOpen && AllJoinedOnce(started, joined)
      ensures history == old(history).(calls := Observed(rounds, RoundsRun(rounds)))
      ensures |passes| == RoundsRun(rounds) && Passed(history, passes, starts) && SawExits(passes, rounds)
      ensures StartedBefore(passes, |passes|) == |starts| && old(starts) <= starts
      ensures Extends(old(retiredAt), retiredAt) && old(retired) <= retired && NeverRestarted(starts, retiredAt)
      ensures retired == RetiredUntil(passes, |passes|)
      ensures ReuseVouched(history, starts) && (!selector.pattern ==> OneGenerationPerPid(starts))
    {
      MakeRounds(selector, rounds);
      BookCloses(history, passes, starts, retiredAt, workers.Keys);
      Shutdown();
    }
  }

  /** RunSelected: resolves once, opens the shared BPF, and runs. A failed first discovery or a BPF that cannot be
      opened ends it before any worker is started; otherwise the manager's run is that of `Run`, from the first call
      on. */
  method RunSelected(selector: Selector, bpfOk: bool, rounds: seq<Round>) returns (m: Manager?)
    requires rounds != []
    requires forall i :: 0 <= i < |rounds| ==> |rounds[i].observed.processes| == |selector.pids|
    modifies selector
    ensures m == null <==> (selector.pattern && rounds[0].observed.directory.None?) || !bpfOk
    ensures m != null ==>
              && fresh(m) && m.Valid() && m.workers == map[] && !m.bpfOpen && AllJoinedOnce(m.started, m.joined)
              && m.history == History(old(selector.anchored), selector.pids, selector.pattern,
                                      Observed(rounds, RoundsRun(rounds)))
              && |m.passes| == RoundsRun(rounds) && Passed(m.history, m.passes, m.starts) && SawExits(m.passes, rounds)
              && StartedBefore(m.passes, |m.passes|) == |m.starts| == m.started
              && NeverRestarted(m.starts, m.retiredAt) && ReuseVouched(m.history, m.starts)
              && (!selector.pattern ==> OneGenerationPerPid(m.starts))
  {
    var first := rounds[0].observed;
    ghost var none := History(selector.anchored, selector.pids, selector.pattern, []);
    ResolveContinues(none, first);
    ghost var h := Continued(none, first);
    var r := selector.Resolve(first);
    if r.Failed? || !bpfOk {
      return null;
    }
    IncreasingIsSelected(r.targets);
    m := new Manager(r.targets, h);
    m.Run(selector, rounds);
  }
}
