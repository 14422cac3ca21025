/** The bookkeeping of the worker manager (internal/watch/manager_linux.go): which workers exist, and which
    were started and joined. */
module Roster {
  import opened Selection

  /** A process generation. The source joins the two parts into one string. */
  type Generation = (int, string)

  function KeyOf(t: Target): Generation {
    (t.pid, t.start)
  }

  /** Two targets have one key here exactly when they have one key string in the source. */
  lemma SameGeneration(t: Target, u: Target)
    requires t.pid > 0 && u.pid > 0
    ensures KeyOf(t) == KeyOf(u) <==> Key(t) == Key(u)
  {
    KeyExact(t, u);
  }

  /** A started worker; `id` numbers the starts. */
  datatype Worker = Worker(target: Target, id: nat)

  /** How a worker that has finished on its own ended. */
  datatype Exit = Running | ExitedCleanly | ExitedWithError

  /** The selector returns each PID once. */
  predicate Selected(ts: seq<Target>) {
    forall i, j :: 0 <= i < j < |ts| ==> ts[i].pid != ts[j].pid
  }

  lemma IncreasingIsSelected(ts: seq<Target>)
    requires Increasing(ts)
    ensures Selected(ts)
  {
  }

  /** The keys of the targets. */
  function Wanted(ts: seq<Target>): set<Generation> {
    set t | t in ts :: KeyOf(t)
  }

  /** Every worker runs under its own key, and no two under one PID. */
  ghost predicate Unique(workers: map<Generation, Worker>) {
    && (forall k :: k in workers ==> KeyOf(workers[k].target) == k)
    && (forall k, l :: k in workers && l in workers && workers[k].target.pid == workers[l].target.pid ==> k == l)
    && (forall k, l :: k in workers && l in workers && workers[k].id == workers[l].id ==> k == l)
  }

  /** A started worker is either still in the table and not joined, or joined once and gone from it. */
  ghost predicate Accounted(workers: map<Generation, Worker>, started: nat, joined: multiset<nat>) {
    && (forall k :: k in workers ==> workers[k].id < started && joined[workers[k].id] == 0)
    && (forall id: nat :: id < started && (forall k :: k in workers ==> workers[k].id != id) ==> joined[id] == 1)
    && (forall id: nat :: id >= started ==> joined[id] == 0)
  }

  /** The retired keys are those that ever retired; none has a worker or was started since it retired. */
  ghost predicate RetiredForGood(workers: map<Generation, Worker>, retired: set<Generation>, starts: seq<Generation>,
                                 retiredAt: map<Generation, nat>) {
    && retired == retiredAt.Keys
    && NeverRestarted(starts, retiredAt)
    && (forall k :: k in retired ==> k !in workers)
  }

  /** No key was started after the number of starts at which it retired. */
  ghost predicate NeverRestarted(starts: seq<Generation>, retiredAt: map<Generation, nat>) {
    forall k :: k in retiredAt ==> retiredAt[k] <= |starts| && k !in starts[retiredAt[k]..]
  }

  /** A history that only grows: no entry is dropped or rewritten. */
  ghost predicate Extends(was: map<Generation, nat>, now: map<Generation, nat>) {
    forall k :: k in was ==> k in now && now[k] == was[k]
  }

  lemma JoinKeepsRoster(workers: map<Generation, Worker>, started: nat, joined: multiset<nat>, key: Generation)
    requires key in workers && Unique(workers) && Accounted(workers, started, joined)
    ensures var workers', joined' := workers - {key}, joined + multiset{workers[key].id};
            Unique(workers') && Accounted(workers', started, joined')
  {
    var workers', joined' := workers - {key}, joined + multiset{workers[key].id};
    forall id: nat | id < started && (forall k :: k in workers' ==> workers'[k].id != id) ensures joined'[id] == 1 {
      if id != workers[key].id {
        forall k | k in workers ensures workers[k].id != id {
          assert k == key || k in workers';
        }
      }
    }
  }

  lemma StartKeepsRoster(workers: map<Generation, Worker>, started: nat, joined: multiset<nat>, t: Target)
    requires Unique(workers) && Accounted(workers, started, joined) && KeyOf(t) !in workers
    requires forall k :: k in workers ==> workers[k].target.pid != t.pid
    ensures var workers' := workers[KeyOf(t) := Worker(t, started)];
            Unique(workers') && Accounted(workers', started + 1, joined)
  {
    var workers' := workers[KeyOf(t) := Worker(t, started)];
    forall id: nat | id < started + 1 && (forall k :: k in workers' ==> workers'[k].id != id) ensures joined[id] == 1 {
      assert KeyOf(t) in workers';
      assert forall k :: k in workers ==> k in workers' && workers'[k].id == workers[k].id;
    }
  }

  lemma RetireKeeps(workers: map<Generation, Worker>, retired: set<Generation>, starts: seq<Generation>,
                    retiredAt: map<Generation, nat>, key: Generation)
    requires RetiredForGood(workers, retired, starts, retiredAt)
    ensures RetiredForGood(workers - {key}, retired, starts, retiredAt)
    ensures RetiredForGood(workers - {key}, retired + {key}, starts, retiredAt[key := |starts|])
    ensures key in workers ==> Extends(retiredAt, retiredAt[key := |starts|])
  {
  }

  /** Every started worker was joined, exactly once. */
  ghost predicate AllJoinedOnce(started: nat, joined: multiset<nat>) {
    forall id: nat :: joined[id] == if id < started then 1 else 0
  }

  ghost predicate AllIn(workers: map<Generation, Worker>, ids: set<nat>) {
    forall k :: k in workers ==> workers[k].id in ids
  }

  lemma EmptyTableIsAllJoined(started: nat, joined: multiset<nat>)
    requires Accounted(map[], started, joined)
    ensures AllJoinedOnce(started, joined)
  {
  }

  lemma StartKeepsRetired(workers: map<Generation, Worker>, retired: set<Generation>, starts: seq<Generation>,
                          retiredAt: map<Generation, nat>, key: Generation, w: Worker)
    requires RetiredForGood(workers, retired, starts, retiredAt) && key !in retired
    ensures RetiredForGood(workers[key := w], retired, starts + [key], retiredAt)
  {
    forall k | k in retired ensures k !in (starts + [key])[retiredAt[k]..] {
      assert (starts + [key])[retiredAt[k]..] == starts[retiredAt[k]..] + [key];
    }
  }

  /** A worker whose key is wanted and whose PID is a target's has that target's key. */
  lemma WantedPid(ts: seq<Target>, w: Target, i: nat)
    requires Selected(ts) && i < |ts| && KeyOf(w) in Wanted(ts) && w.pid == ts[i].pid
    ensures KeyOf(w) == KeyOf(ts[i])
  {
    var t :| t in ts && KeyOf(t) == KeyOf(w);
    var j :| 0 <= j < |ts| && ts[j] == t;
    assert i == j || i < j || j < i;
  }

  function KeptWorkers(workers: map<Generation, Worker>, wanted: set<Generation>, key: Generation, exit: Exit)
    : map<Generation, Worker>
  {
    if key in wanted && exit.Running? then workers else workers - {key}
  }

  function NowRetired(retired: set<Generation>, wanted: set<Generation>, key: Generation, exit: Exit): set<Generation> {
    if key in wanted && exit.ExitedCleanly? then retired + {key} else retired
  }

  /** The workers outside `rest` have been dealt with. */
  ghost predicate ReapedExcept(rest: set<Generation>, wanted: set<Generation>, exits: Generation -> Exit,
                               workers0: map<Generation, Worker>, retired0: set<Generation>,
                               workers: map<Generation, Worker>, retired: set<Generation>) {
    && rest <= workers.Keys <= workers0.Keys
    && (forall k :: k in workers ==> workers[k] == workers0[k])
    && (forall k :: k in workers0 && k !in rest ==> (k in workers <==> k in wanted && exits(k).Running?))
    && (forall k :: k in retired <==>
          k in retired0 || (k in workers0 && k !in rest && k in wanted && exits(k).ExitedCleanly?))
  }

  lemma OneMoreReaped(rest: set<Generation>, wanted: set<Generation>, exits: Generation -> Exit,
                      workers0: map<Generation, Worker>, retired0: set<Generation>,
                      workers: map<Generation, Worker>, retired: set<Generation>, key: Generation)
    requires key in rest && ReapedExcept(rest, wanted, exits, workers0, retired0, workers, retired)
    ensures ReapedExcept(rest - {key}, wanted, exits, workers0, retired0,
                         KeptWorkers(workers, wanted, key, exits(key)), NowRetired(retired, wanted, key, exits(key)))
  {
  }

  /** The first `n` targets have been provided for. */
  ghost predicate StartedFor(n: nat, targets: seq<Target>, retired: set<Generation>,
                             workers0: map<Generation, Worker>, workers: map<Generation, Worker>) {
    && n <= |targets| && workers.Keys <= Wanted(targets)
    && (forall k :: k in workers0 ==> k in workers && workers[k] == workers0[k])
    && (forall k :: k in workers ==> k in workers0 || k !in retired)
    && (forall i :: 0 <= i < n ==> KeyOf(targets[i]) in workers || KeyOf(targets[i]) in retired)
  }

  lemma OneMoreStarted(n: nat, targets: seq<Target>, retired: set<Generation>,
                       workers0: map<Generation, Worker>, workers: map<Generation, Worker>, w: Worker)
    requires n < |targets| && StartedFor(n, targets, retired, workers0, workers)
    ensures var k := KeyOf(targets[n]);
            && (k in workers || k in retired ==> StartedFor(n + 1, targets, retired, workers0, workers))
            && (k !in workers && k !in retired ==> StartedFor(n + 1, targets, retired, workers0, workers[k := w]))
  {
    assert targets[n] in targets;
  }

  lemma AllStarted(targets: seq<Target>, retired: set<Generation>,
                   workers0: map<Generation, Worker>, workers: map<Generation, Worker>)
    requires StartedFor(|targets|, targets, retired, workers0, workers) && workers0.Keys !! retired
    ensures workers.Keys == Wanted(targets) - retired
  {
    forall k | k in Wanted(targets) ensures k in workers || k in retired {
      var t :| t in targets && KeyOf(t) == k;
      var i :| 0 <= i < |targets| && targets[i] == t;
    }
  }

  /** The wanted workers that finished cleanly. */
  function CleanExits(keys: set<Generation>, wanted: set<Generation>, exits: Generation -> Exit): set<Generation> {
    set k | k in keys && k in wanted && exits(k).ExitedCleanly?
  }

  /** Of the workers after a pass, those that were not simply left running. */
  function Launched(before: set<Generation>, keys: set<Generation>, exits: Generation -> Exit): set<Generation> {
    set k | k in keys && !(k in before && exits(k).Running?)
  }

  /** `starts` has the keys `ks`, each once, beyond those of `was`. */
  ghost predicate Launches(was: seq<Generation>, starts: seq<Generation>, ks: set<Generation>) {
    multiset(starts) == multiset(was) + multiset(ks)
  }

  /** A pass that began with the workers `was` and the starts `before` has dealt with the first `n` targets: it
      started each new worker once. */
  ghost predicate Providing(n: nat, targets: seq<Target>, retired: set<Generation>,
                            was: map<Generation, Worker>, before: seq<Generation>,
                            workers: map<Generation, Worker>, starts: seq<Generation>) {
    && StartedFor(n, targets, retired, was, workers) && StartsFrom(before, starts, targets)
    && Launches(before, starts, workers.Keys - was.Keys)
  }

  lemma ProvidingBegins(targets: seq<Target>, retired: set<Generation>, was: map<Generation, Worker>, before: seq<Generation>)
    requires was.Keys <= Wanted(targets)
    ensures Providing(0, targets, retired, was, before, was, before)
  {
    assert was.Keys - was.Keys == {};
  }

  lemma OneMoreProvided(n: nat, targets: seq<Target>, retired: set<Generation>,
                        was: map<Generation, Worker>, before: seq<Generation>,
                        workers: map<Generation, Worker>, starts: seq<Generation>, w: Worker)
    requires n < |targets| && Providing(n, targets, retired, was, before, workers, starts)
    ensures var k := KeyOf(targets[n]);
            if k in workers || k in retired then Providing(n + 1, targets, retired, was, before, workers, starts)
            else Providing(n + 1, targets, retired, was, before, workers[k := w], starts + [k])
  {
    var k := KeyOf(targets[n]);
    OneMoreStarted(n, targets, retired, was, workers, w);
    if k !in workers && k !in retired {
      assert targets[n] in targets && k !in was;
      assert workers[k := w].Keys - was.Keys == (workers.Keys - was.Keys) + {k};
    }
  }

  /** What a whole pass leaves: the wanted keys that are not retired, with the running ones untouched. */
  lemma PassDone(targets: seq<Target>, exits: Generation -> Exit,
                 before: map<Generation, Worker>, retired0: set<Generation>,
                 kept: map<Generation, Worker>, retired: set<Generation>, workers: map<Generation, Worker>)
    requires ReapedExcept({}, Wanted(targets), exits, before, retired0, kept, retired) && kept.Keys !! retired
    requires StartedFor(|targets|, targets, retired, kept, workers)
    ensures workers.Keys == Wanted(targets) - retired
    ensures forall k :: k in before && k in Wanted(targets) && exits(k).Running? ==>
              k in workers && workers[k] == before[k]
    ensures retired == retired0 + CleanExits(before.Keys, Wanted(targets), exits)
    ensures workers.Keys - kept.Keys == Launched(before.Keys, workers.Keys, exits)
  {
    AllStarted(targets, retired, kept, workers);
    forall k | k in before && k in Wanted(targets) && exits(k).Running? ensures k in workers && workers[k] == before[k] {
      assert k in kept;
    }
    forall k | k in workers ensures k in kept <==> k in before && exits(k).Running? {
      assert k in Wanted(targets);
    }
  }

  /** `ts` lists the targets of the workers outside `rest`. */
  ghost predicate ListedExcept(workers: map<Generation, Worker>, rest: set<Generation>, ts: seq<Target>) {
    && rest <= workers.Keys && Unique(workers) && Selected(ts)
    && (forall i :: 0 <= i < |ts| ==>
          KeyOf(ts[i]) in workers && KeyOf(ts[i]) !in rest && workers[KeyOf(ts[i])].target == ts[i])
    && (forall k :: k in workers && k !in rest ==> workers[k].target in ts)
  }

  lemma OneMoreListed(workers: map<Generation, Worker>, rest: set<Generation>, ts: seq<Target>, key: Generation)
    requires key in rest && ListedExcept(workers, rest, ts)
    ensures ListedExcept(workers, rest - {key}, ts + [workers[key].target])
  {
  }

  lemma AllListed(workers: map<Generation, Worker>, ts: seq<Target>)
    requires ListedExcept(workers, {}, ts)
    ensures Selected(ts) && workers.Keys == Wanted(ts)
  {
    forall k | k in workers ensures k in Wanted(ts) {
      assert KeyOf(workers[k].target) == k && workers[k].target in ts;
    }
  }

  /** `starts` extends `was` by keys of the targets. */
  ghost predicate StartsFrom(was: seq<Generation>, starts: seq<Generation>, ts: seq<Target>) {
    was <= starts && forall i :: |was| <= i < |starts| ==> starts[i] in Wanted(ts)
  }

  /** Every worker runs as its own start. */
  ghost predicate StartedAs(workers: map<Generation, Worker>, starts: seq<Generation>) {
    forall k :: k in workers ==> workers[k].id < |starts| && starts[workers[k].id] == k
  }
}
