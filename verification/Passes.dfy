/** The passes of the worker manager over a whole run (internal/watch/manager_linux.go), against the calls of the
    selector that feeds it. */
module Passes {
  import opened Selection
  import opened Roster

  /** One round of the manager: what its Resolve observes, how the workers stand when it reconciles, and whether the
      log still works afterwards. */
  datatype Round = Round(observed: Observation, exits: Generation -> Exit, logOk: bool)

  /** What one pass met and left behind: the targets and the exits, the keys retired so far, the keys with a worker and
      the number of starts so far. */
  datatype Pass = Pass(targets: seq<Target>, exits: Generation -> Exit, retired: set<Generation>, keys: set<Generation>,
                       started: nat)

  /** How many rounds run: all of them, or up to the first broken log. */
  function RoundsRun(rounds: seq<Round>): (n: nat)
    ensures n <= |rounds| && forall i :: 0 <= i < n - 1 ==> rounds[i].logOk
    ensures n < |rounds| ==> n > 0 && !rounds[n - 1].logOk
  {
    if rounds == [] then 0
    else
      var n := RoundsRun(rounds[..|rounds| - 1]);
      if n == |rounds| - 1 && (n == 0 || rounds[n - 1].logOk) then n + 1 else n
  }

  /** The observations of the first `n` rounds. */
  function Observed(rounds: seq<Round>, n: nat): seq<Observation>
    requires n <= |rounds|
  {
    seq(n, i requires 0 <= i < n => rounds[i].observed)
  }

  /** Where a run stands before round `i`, or after it when it no longer runs. */
  ghost predicate Progress(rounds: seq<Round>, i: nat, running: bool, h0: History, h: History) {
    && i <= |rounds| && (forall j :: 0 <= j < i - 1 ==> rounds[j].logOk)
    && (running ==> i < |rounds| && (i > 0 ==> rounds[i - 1].logOk))
    && (!running ==> i > 0 && (i < |rounds| ==> !rounds[i - 1].logOk))
    && var n := if running then i + 1 else i;
       h == h0.(calls := Observed(rounds, n))
  }

  lemma ObservedFirst(rounds: seq<Round>)
    requires rounds != []
    ensures Observed(rounds, 1) == [rounds[0].observed]
  {
  }

  lemma ProgressMade(rounds: seq<Round>, i: nat, h0: History, h: History)
    requires Progress(rounds, i, true, h0, h)
    ensures var running := rounds[i].logOk && i + 1 < |rounds|;
            Progress(rounds, i + 1, running, h0, if running then Continued(h, rounds[i + 1].observed) else h)
  {
    if i + 1 < |rounds| {
      assert Observed(rounds, i + 2) == Observed(rounds, i + 1) + [rounds[i + 1].observed];
    }
  }

  lemma RoundsCounted(rounds: seq<Round>, n: nat)
    requires 0 < n <= |rounds| && (forall j :: 0 <= j < n - 1 ==> rounds[j].logOk)
    requires n < |rounds| ==> !rounds[n - 1].logOk
    ensures n == RoundsRun(rounds)
  {
  }

  /** The targets that call `n` leads to: exactly what it found, or, when discovery is unavailable, the workers that
      the pass before left. */
  ghost predicate LedTo(h: History, n: nat, before: set<Generation>, targets: seq<Target>)
    requires Answered(h) && n < |h.calls|
  {
    if Unavailable(h, n) then Wanted(targets) == before else Lists(targets, FoundBy(h, n))
  }

  function KeysBefore(passes: seq<Pass>, n: nat): set<Generation>
    requires n <= |passes|
  {
    if n == 0 then {} else passes[n - 1].keys
  }

  function StartedBefore(passes: seq<Pass>, n: nat): nat
    requires n <= |passes|
  {
    if n == 0 then 0 else passes[n - 1].started
  }

  function RetiredUntil(passes: seq<Pass>, n: nat): set<Generation>
    requires n <= |passes|
  {
    if n == 0 then {} else passes[n - 1].retired
  }

  /** Every pass met the exits of its round. */
  ghost predicate SawExits(passes: seq<Pass>, rounds: seq<Round>) {
    |passes| <= |rounds| && forall i :: 0 <= i < |passes| ==> passes[i].exits == rounds[i].exits
  }

  /** Pass `n` reconciled with the targets of call `n`: it retired exactly the wanted workers of the pass before that
      had exited cleanly; afterwards exactly the wanted keys that are not retired had a worker; it started, once each,
      exactly those of them that were not left running. */
  ghost predicate PassedAt(h: History, passes: seq<Pass>, starts: seq<Generation>, n: nat)
    requires Answered(h) && n < |passes| <= |h.calls|
  {
    var p := passes[n];
    && LedTo(h, n, KeysBefore(passes, n), p.targets)
    && p.retired == RetiredUntil(passes, n) + CleanExits(KeysBefore(passes, n), Wanted(p.targets), p.exits)
    && p.keys == Wanted(p.targets) - p.retired
    && StartedBefore(passes, n) <= p.started <= |starts|
    && (forall k :: k in p.keys ==> k in starts[..p.started])
    && Launches(starts[..StartedBefore(passes, n)], starts[..p.started], Launched(KeysBefore(passes, n), p.keys, p.exits))
    && (forall k :: k in p.retired ==> k !in starts[p.started..])
  }

  ghost predicate Passed(h: History, passes: seq<Pass>, starts: seq<Generation>) {
    && Answered(h) && |passes| <= |h.calls|
    && forall n: nat :: n < |passes| ==> PassedAt(h, passes, starts, n)
  }

  /** Call `m` found the generation `k`. */
  predicate FindsKey(h: History, m: nat, k: Generation)
    requires Answered(h) && m < |h.calls|
  {
    k.0 in FoundBy(h, m) && KeyOf(FoundBy(h, m)[k.0]) == k
  }

  /** Some call found it. */
  ghost predicate Sourced(h: History, k: Generation)
    requires Answered(h)
  {
    exists m: nat :: m < |h.calls| && FindsKey(h, m, k)
  }

  ghost predicate AllSourced(h: History, ks: set<Generation>)
    requires Answered(h)
  {
    forall k :: k in ks ==> Sourced(h, k)
  }

  /** Some call found it through a running domain. */
  ghost predicate Vouched(h: History, k: Generation)
    requires Answered(h)
  {
    exists m: nat :: m < |h.calls| && FindsKey(h, m, k) && FromDomain(h, m, FoundBy(h, m)[k.0])
  }

  /** Reuse of a PID is followed only where a running domain vouches for one of the generations. */
  ghost predicate ReuseVouched(h: History, starts: seq<Generation>)
    requires Answered(h)
  {
    forall k, l :: k in starts && l in starts && k.0 == l.0 && k != l ==> Vouched(h, k) || Vouched(h, l)
  }

  lemma SourcedReuse(h: History, k: Generation, l: Generation)
    requires Answered(h) && Sourced(h, k) && Sourced(h, l) && k.0 == l.0 && k != l
    ensures Vouched(h, k) || Vouched(h, l)
  {
    var m: nat :| m < |h.calls| && FindsKey(h, m, k);
    var n: nat :| n < |h.calls| && FindsKey(h, n, l);
    if m <= n {
      ExplicitPidsNeverFollowReuse(h, m, n, k.0);
    } else {
      ExplicitPidsNeverFollowReuse(h, n, m, k.0);
    }
  }

  lemma AllReuseVouched(h: History, starts: seq<Generation>)
    requires Answered(h) && forall k :: k in starts ==> Sourced(h, k)
    ensures ReuseVouched(h, starts)
  {
    forall k, l | k in starts && l in starts && k.0 == l.0 && k != l ensures Vouched(h, k) || Vouched(h, l) {
      SourcedReuse(h, k, l);
    }
  }

  /** No PID was ever watched in two generations. */
  ghost predicate OneGenerationPerPid(starts: seq<Generation>) {
    forall k, l :: k in starts && l in starts && k.0 == l.0 ==> k == l
  }

  /** Without a pattern nothing vouches, so reuse is never followed. */
  lemma NoPatternNoReuse(h: History, starts: seq<Generation>)
    requires Answered(h) && !h.pattern && ReuseVouched(h, starts)
    ensures OneGenerationPerPid(starts)
  {
  }

  // ----- What a call and a pass add

  lemma SourcedKept(h: History, o: Observation, k: Generation)
    requires Answered(h) && |o.processes| == |h.pids| && Sourced(h, k)
    ensures Sourced(Continued(h, o), k)
  {
    var m: nat :| m < |h.calls| && FindsKey(h, m, k);
    FoundKept(h, o, m);
    assert FindsKey(Continued(h, o), m, k);
  }

  lemma AllSourcedKept(h: History, o: Observation, ks: set<Generation>)
    requires Answered(h) && |o.processes| == |h.pids| && AllSourced(h, ks)
    ensures AllSourced(Continued(h, o), ks)
  {
    forall k | k in ks ensures Sourced(Continued(h, o), k) {
      SourcedKept(h, o, k);
    }
  }

  /** What Resolve returns was found by its call. */
  lemma ListedSourced(h: History, n: nat, targets: seq<Target>)
    requires Answered(h) && n < |h.calls| && Lists(targets, FoundBy(h, n))
    ensures AllSourced(h, Wanted(targets))
  {
    forall k | k in Wanted(targets) ensures Sourced(h, k) {
      var t :| t in targets && KeyOf(t) == k;
      var i :| 0 <= i < |targets| && targets[i] == t;
      assert FindsKey(h, n, k);
    }
  }

  lemma PassesKept(h: History, o: Observation, passes: seq<Pass>, starts: seq<Generation>)
    requires Passed(h, passes, starts) && |o.processes| == |h.pids|
    ensures Passed(Continued(h, o), passes, starts)
  {
    forall n: nat | n < |passes| ensures PassedAt(Continued(h, o), passes, starts, n) {
      assert PassedAt(h, passes, starts, n);
      FoundKept(h, o, n);
    }
  }

  /** Starts that a later pass adds do not disturb what earlier passes left. */
  lemma PassesOutlast(h: History, passes: seq<Pass>, was: seq<Generation>, starts: seq<Generation>, n: nat)
    requires Answered(h) && n < |passes| <= |h.calls| && PassedAt(h, passes, was, n) && was <= starts
    requires forall k :: k in passes[n].retired ==> k !in starts[|was|..]
    ensures PassedAt(h, passes, starts, n)
  {
    var p := passes[n];
    assert starts[..p.started] == was[..p.started];
    assert starts[..StartedBefore(passes, n)] == was[..StartedBefore(passes, n)];
    assert starts[p.started..] == was[p.started..] + starts[|was|..];
    assert forall i :: 0 <= i < p.started ==> starts[i] == was[i];
  }

  lemma OnePassMore(h: History, passes: seq<Pass>, was: seq<Generation>, starts: seq<Generation>, p: Pass,
                    retiredAt: map<Generation, nat>)
    requires Passed(h, passes, was) && |passes| + 1 == |h.calls| && p.started == |starts|
    requires LedTo(h, |passes|, KeysBefore(passes, |passes|), p.targets) && p.keys == Wanted(p.targets) - p.retired
    requires p.retired ==
             RetiredUntil(passes, |passes|) + CleanExits(KeysBefore(passes, |passes|), Wanted(p.targets), p.exits)
    requires Launches(was, starts, Launched(KeysBefore(passes, |passes|), p.keys, p.exits))
    requires StartedBefore(passes, |passes|) == |was| && StartsFrom(was, starts, p.targets)
    requires forall k :: k in p.keys ==> k in starts
    requires p.retired == retiredAt.Keys && NeverRestarted(starts, retiredAt)
    requires forall n: nat :: n < |passes| ==> RetiredBefore(passes, n, retiredAt, |was|)
    ensures Passed(h, passes + [p], starts)
  {
    var passes' := passes + [p];
    forall n: nat | n < |passes'| ensures PassedAt(h, passes', starts, n) {
      if n < |passes| {
        assert PassedAt(h, passes, was, n) && RetiredBefore(passes, n, retiredAt, |was|);
        forall k | k in passes[n].retired ensures k !in starts[|was|..] {
          LaterStarts(starts, retiredAt[k], |was|, k);
        }
        PassesOutlast(h, passes, was, starts, n);
        EarlierPass(h, passes, p, starts, n);
      } else {
        assert starts[..|starts|] == starts && starts[|starts|..] == [] && starts[..|was|] == was;
      }
    }
  }

  lemma EarlierPass(h: History, passes: seq<Pass>, p: Pass, starts: seq<Generation>, n: nat)
    requires Answered(h) && n < |passes| < |h.calls| && PassedAt(h, passes, starts, n)
    ensures PassedAt(h, passes + [p], starts, n)
  {
    assert (passes + [p])[n] == passes[n] && (n > 0 ==> (passes + [p])[n - 1] == passes[n - 1]);
  }

  lemma LaterStarts(starts: seq<Generation>, a: nat, b: nat, k: Generation)
    requires a <= b <= |starts| && k !in starts[a..]
    ensures k !in starts[b..]
  {
    assert starts[b..] == starts[a..][b - a..];
  }

  /** What pass `n` had retired, retired at no more than `limit` starts, for good. */
  ghost predicate RetiredBefore(passes: seq<Pass>, n: nat, retiredAt: map<Generation, nat>, limit: nat)
    requires n < |passes|
  {
    forall k :: k in passes[n].retired ==> k in retiredAt && retiredAt[k] <= limit
  }

  // ----- The book the manager keeps between passes

  /** The passes so far, with all starts in them and the present workers as the last one left them. */
  ghost predicate Booked(h: History, passes: seq<Pass>, starts: seq<Generation>, retiredAt: map<Generation, nat>,
                         keys: set<Generation>) {
    && Passed(h, passes, starts) && StartedBefore(passes, |passes|) == |starts| && KeysBefore(passes, |passes|) == keys
    && AllSourced(h, keys) && (forall k :: k in starts ==> Sourced(h, k))
    && (forall n: nat :: n < |passes| ==> RetiredBefore(passes, n, retiredAt, |starts|))
    && RetiredUntil(passes, |passes|) == retiredAt.Keys
  }

  lemma BookOpens(h: History)
    requires Answered(h)
    ensures Booked(h, [], [], map[], {})
  {
  }

  /** What the book says at the end of a run. */
  lemma BookCloses(h: History, passes: seq<Pass>, starts: seq<Generation>, retiredAt: map<Generation, nat>, keys: set<Generation>)
    requires Booked(h, passes, starts, retiredAt, keys)
    ensures Passed(h, passes, starts) && StartedBefore(passes, |passes|) == |starts| && ReuseVouched(h, starts)
    ensures !h.pattern ==> OneGenerationPerPid(starts)
  {
    AllReuseVouched(h, starts);
    if !h.pattern {
      NoPatternNoReuse(h, starts);
    }
  }

  lemma WorkersStarted(workers: map<Generation, Worker>, starts: seq<Generation>)
    requires StartedAs(workers, starts)
    ensures forall k :: k in workers ==> k in starts
  {
  }

  lemma BookCall(h: History, o: Observation, passes: seq<Pass>, starts: seq<Generation>,
                 retiredAt: map<Generation, nat>, keys: set<Generation>)
    requires Booked(h, passes, starts, retiredAt, keys) && |o.processes| == |h.pids|
    ensures Booked(Continued(h, o), passes, starts, retiredAt, keys)
  {
    PassesKept(h, o, passes, starts);
    AllSourcedKept(h, o, keys);
    forall k | k in starts ensures Sourced(Continued(h, o), k) {
      SourcedKept(h, o, k);
    }
  }

  /** The targets of one more Resolve, from the anchors `anchored` that the calls so far have left. */
  ghost predicate Retargeted(h: History, anchored: map<int, string>, o: Observation, keys: set<Generation>, targets: seq<Target>)
    requires |o.processes| == |h.pids|
  {
    var s := Explicit(anchored, h.pids, o.processes);
    if h.pattern && o.directory.None? then Wanted(targets) == keys
    else Lists(targets, (if h.pattern then Matched(s, o.directory.value) else s).found)
  }

  lemma BookRefresh(h: History, o: Observation, passes: seq<Pass>, starts: seq<Generation>,
                    retiredAt: map<Generation, nat>, keys: set<Generation>, targets: seq<Target>)
    requires Booked(h, passes, starts, retiredAt, keys) && |h.calls| == |passes| && |o.processes| == |h.pids|
    requires Retargeted(h, AnchorsAfter(h, |h.calls|), o, keys, targets)
    ensures var h' := Continued(h, o);
            && Booked(h', passes, starts, retiredAt, keys) && LedTo(h', |passes|, keys, targets)
            && AnchorsAfter(h', |h'.calls|) == Explicit(AnchorsAfter(h, |h.calls|), h.pids, o.processes).anchored
  {
    BookCall(h, o, passes, starts, retiredAt, keys);
    ResolveContinues(h, o);
  }

  lemma LedToSourced(h: History, n: nat, before: set<Generation>, targets: seq<Target>)
    requires Answered(h) && n < |h.calls| && LedTo(h, n, before, targets) && AllSourced(h, before)
    ensures AllSourced(h, Wanted(targets))
  {
    if !Unavailable(h, n) {
      ListedSourced(h, n, targets);
    }
  }

  lemma BookPass(h: History, passes: seq<Pass>, was: seq<Generation>, retiredAt0: map<Generation, nat>, before: set<Generation>,
                 p: Pass, starts: seq<Generation>, retiredAt: map<Generation, nat>)
    requires Booked(h, passes, was, retiredAt0, before) && |passes| + 1 == |h.calls| && p.started == |starts|
    requires LedTo(h, |passes|, before, p.targets) && p.keys == Wanted(p.targets) - p.retired
    requires StartsFrom(was, starts, p.targets) && forall k :: k in p.keys ==> k in starts
    requires p.retired == retiredAt0.Keys + CleanExits(before, Wanted(p.targets), p.exits)
    requires Launches(was, starts, Launched(before, p.keys, p.exits))
    requires p.retired == retiredAt.Keys && NeverRestarted(starts, retiredAt) && Extends(retiredAt0, retiredAt)
    ensures Booked(h, passes + [p], starts, retiredAt, p.keys)
  {
    LedToSourced(h, |passes|, before, p.targets);
    forall n: nat | n < |passes| ensures RetiredBefore(passes, n, retiredAt, |was|) {
      assert RetiredBefore(passes, n, retiredAt0, |was|);
    }
    OnePassMore(h, passes, was, starts, p, retiredAt);
    forall k | k in starts ensures Sourced(h, k) {
      var i :| 0 <= i < |starts| && starts[i] == k;
      assert i < |was| ==> k == was[i];
    }
    forall n: nat | n < |passes + [p]| ensures RetiredBefore(passes + [p], n, retiredAt, |starts|) {
      if n < |passes| {
        assert RetiredBefore(passes, n, retiredAt, |was|);
      }
    }
  }
}
