/** How the plain loop (internal/watch/run_linux.go) moves its FD slots: one visited slot at a time, then all
    unlisted slots together. */
module PlainRuns {
  import opened Words
  import opened Snapshots
  import opened Budgets
  import opened Policies
  import opened PlainSlots

  /** The three maps of the loop. */
  datatype Maps = Maps(states: map<int, Watch>, snapshots: map<int, Snapshot>, pending: map<int, Verification>)

  function Lookup<T>(m: map<int, T>, fd: int): Option<T> {
    if fd in m then Some(m[fd]) else None
  }

  function Put<T>(m: map<int, T>, fd: int, v: Option<T>): map<int, T> {
    if v.Some? then m[fd := v.value] else m - {fd}
  }

  function Load(m: Maps, fd: int): Slot {
    Slot(Lookup(m.snapshots, fd), Lookup(m.states, fd), Lookup(m.pending, fd))
  }

  function Store(m: Maps, fd: int, s: Slot): Maps {
    Maps(Put(m.states, fd, s.watch), Put(m.snapshots, fd, s.snapshot), Put(m.pending, fd, s.pending))
  }

  lemma LoadStored(m: Maps, fd: int, s: Slot)
    ensures forall x: int :: Load(Store(m, fd, s), x) == if x == fd then s else Load(m, x)
  {
  }

  type Logs = int -> seq<Turn>

  /** The log of every slot is a run that leads to the slot's entries in the maps. */
  ghost predicate Follows(c: Policy, m: Maps, logs: Logs) {
    forall fd: int :: Faithful(c, m, logs, fd)
  }

  ghost predicate Faithful(c: Policy, m: Maps, logs: Logs, fd: int) {
    IsRun(c, logs(fd)) && Load(m, fd) == Reached(logs(fd))
  }

  ghost predicate Timely(logs: Logs, clock: real) {
    forall fd: int :: EndsBy(logs, clock, fd)
  }

  ghost predicate EndsBy(logs: Logs, clock: real, fd: int) {
    logs(fd) == [] || Time(logs(fd)[|logs(fd)| - 1].input) <= clock
  }

  /** `kicked` lists the kicks of all logs, each once. */
  ghost predicate Lists(kicked: seq<(int, real)>, logs: Logs) {
    forall fd: int :: Tallies(kicked, logs, fd)
  }

  ghost predicate Tallies(kicked: seq<(int, real)>, logs: Logs, fd: int) {
    TimesOf(kicked, fd) == KickTimes(logs(fd), |logs(fd)|)
  }

  /** The loop's maps, its logs and its count of writes fit together. */
  ghost predicate Sound(c: Policy, m: Maps, logs: Logs, clock: real, kicked: seq<(int, real)>, writes: nat) {
    Follows(c, m, logs) && Timely(logs, clock) && Lists(kicked, logs) && writes == |kicked|
  }

  lemma SoundLater(c: Policy, m: Maps, logs: Logs, clock: real, kicked: seq<(int, real)>, writes: nat, later: real)
    requires Sound(c, m, logs, clock, kicked, writes) && clock <= later
    ensures Sound(c, m, logs, later, kicked, writes)
  {
    forall fd: int ensures EndsBy(logs, later, fd) {
      assert EndsBy(logs, clock, fd);
    }
  }

  lemma {:induction false} KickTimesPrefix(tr: seq<Turn>, t: Turn, n: nat)
    requires n <= |tr|
    ensures KickTimes(tr + [t], n) == KickTimes(tr, n)
  {
    if n > 0 {
      KickTimesPrefix(tr, t, n - 1);
    }
  }

  /** What one more turn adds. */
  lemma KickTimesGrow(tr: seq<Turn>, t: Turn)
    ensures KickTimes(tr + [t], |tr| + 1) == KickTimes(tr, |tr|) + if t.o.emitted.kick then [Time(t.input)] else []
  {
    KickTimesPrefix(tr, t, |tr|);
  }

  ghost function Taken(c: Policy, m: Maps, fd: int, i: Input): Turn {
    Turn(Load(m, fd), i, Step(c, Load(m, fd), i))
  }

  ghost function Pushed(logs: Logs, fd: int, t: Turn): Logs {
    x => if x == fd then logs(x) + [t] else logs(x)
  }

  ghost function Noted(kicked: seq<(int, real)>, fd: int, t: Turn): seq<(int, real)> {
    if t.o.emitted.kick then kicked + [(fd, Time(t.input))] else kicked
  }

  lemma VisitOne(c: Policy, m: Maps, logs: Logs, fd: int, i: Input, clock: real, x: int)
    requires Faithful(c, m, logs, x) && EndsBy(logs, clock, x) && Time(i) == clock
    ensures var t := Taken(c, m, fd, i);
            Faithful(c, Store(m, fd, t.o.slot), Pushed(logs, fd, t), x) && EndsBy(Pushed(logs, fd, t), clock, x)
  {
    var t := Taken(c, m, fd, i);
    LoadStored(m, fd, t.o.slot);
    if x == fd {
      RunGrows(c, logs(x), i);
    }
  }

  lemma VisitTallies(kicked: seq<(int, real)>, logs: Logs, fd: int, t: Turn, x: int)
    requires Tallies(kicked, logs, x)
    ensures Tallies(Noted(kicked, fd, t), Pushed(logs, fd, t), x)
  {
    if t.o.emitted.kick {
      TimesGrow(kicked, fd, Time(t.input), x);
    }
    if x == fd {
      KickTimesGrow(logs(x), t);
    }
  }

  /** Visiting one slot extends its run and no other, and counts its kick. */
  lemma VisitFollows(c: Policy, m: Maps, logs: Logs, clock: real, kicked: seq<(int, real)>, writes: nat, fd: int, i: Input)
    requires Sound(c, m, logs, clock, kicked, writes) && Time(i) == clock
    ensures var t := Taken(c, m, fd, i);
            Sound(c, Store(m, fd, t.o.slot), Pushed(logs, fd, t), clock, Noted(kicked, fd, t),
                  writes + if t.o.emitted.kick then 1 else 0)
  {
    var t := Taken(c, m, fd, i);
    var m', logs' := Store(m, fd, t.o.slot), Pushed(logs, fd, t);
    forall x: int ensures Faithful(c, m', logs', x) {
      assert Faithful(c, m, logs, x) && EndsBy(logs, clock, x);
      VisitOne(c, m, logs, fd, i, clock, x);
    }
    forall x: int ensures EndsBy(logs', clock, x) {
      assert Faithful(c, m, logs, x) && EndsBy(logs, clock, x);
      VisitOne(c, m, logs, fd, i, clock, x);
    }
    forall x: int ensures Tallies(Noted(kicked, fd, t), logs', x) {
      assert Tallies(kicked, logs, x);
      VisitTallies(kicked, logs, fd, t, x);
    }
  }

  /** The slots that are not listed leave together. */
  ghost function Left(c: Policy, m: Maps, logs: Logs, vhosts: seq<int>, now: real): Logs {
    x => if x in vhosts then logs(x) else logs(x) + [Taken(c, m, x, Unlisted(now))]
  }

  /** The maps without the unlisted FDs among `fds`. */
  function Dropped(m: Maps, vhosts: seq<int>, fds: set<int>): Maps {
    var gone := set fd | fd in fds && fd !in vhosts;
    m.(snapshots := m.snapshots - gone, pending := m.pending - gone)
  }

  function Forgotten(m: Maps, vhosts: seq<int>): Maps {
    Dropped(m, vhosts, m.snapshots.Keys)
  }

  lemma LeavingOne(c: Policy, m: Maps, logs: Logs, vhosts: seq<int>, clock: real, x: int)
    requires Faithful(c, m, logs, x) && EndsBy(logs, clock, x)
    ensures var logs' := Left(c, m, logs, vhosts, clock);
            && Faithful(c, Forgotten(m, vhosts), logs', x) && EndsBy(logs', clock, x)
            && KickTimes(logs'(x), |logs'(x)|) == KickTimes(logs(x), |logs(x)|)
  {
    if x !in vhosts {
      RunGrows(c, logs(x), Unlisted(clock));
      KickTimesGrow(logs(x), Taken(c, m, x, Unlisted(clock)));
      assert Step(c, Load(m, x), Unlisted(clock)) == Leaving(Load(m, x));
    }
  }

  lemma LeavingFollows(c: Policy, m: Maps, logs: Logs, vhosts: seq<int>, clock: real, kicked: seq<(int, real)>, writes: nat)
    requires Sound(c, m, logs, clock, kicked, writes)
    ensures Sound(c, Forgotten(m, vhosts), Left(c, m, logs, vhosts, clock), clock, kicked, writes)
  {
    var m', logs' := Forgotten(m, vhosts), Left(c, m, logs, vhosts, clock);
    forall x: int ensures Faithful(c, m', logs', x) {
      assert Faithful(c, m, logs, x) && EndsBy(logs, clock, x);
      LeavingOne(c, m, logs, vhosts, clock, x);
    }
    forall x: int ensures EndsBy(logs', clock, x) {
      assert Faithful(c, m, logs, x) && EndsBy(logs, clock, x);
      LeavingOne(c, m, logs, vhosts, clock, x);
    }
    forall x: int ensures Tallies(kicked, logs', x) {
      assert Faithful(c, m, logs, x) && EndsBy(logs, clock, x) && Tallies(kicked, logs, x);
      LeavingOne(c, m, logs, vhosts, clock, x);
    }
  }

  /** The log of `fd` has grown by exactly one turn, with the given input. */
  ghost predicate Grew(was: Logs, logs: Logs, fd: int, i: Input) {
    |logs(fd)| == |was(fd)| + 1 && was(fd) == logs(fd)[..|was(fd)|] && logs(fd)[|was(fd)|].input == i
  }

  /** The log of `fd` has grown by a visit at the tick's time. */
  ghost predicate VisitedAt(was: Logs, logs: Logs, t: Tick, fd: int) {
    Grew(was, logs, fd, Visited(t.visit(fd).(now := t.now)))
  }

  /** The log of `fd` has grown by a visit if it is listed, by its departure otherwise. */
  ghost predicate TurnedAt(was: Logs, logs: Logs, vhosts: seq<int>, t: Tick, fd: int) {
    if fd in vhosts then VisitedAt(was, logs, t, fd) else Grew(was, logs, fd, Unlisted(t.now))
  }

  /** The listed FDs in `done` were visited, once each, and no other slot moved. */
  ghost predicate VisitedAll(was: Logs, logs: Logs, done: seq<int>, t: Tick) {
    && (forall fd :: fd in done ==> VisitedAt(was, logs, t, fd))
    && (forall fd: int :: fd !in done ==> logs(fd) == was(fd))
  }

  lemma OneMoreVisited(was: Logs, logs: Logs, done: seq<int>, t: Tick, fd: int, turn: Turn)
    requires VisitedAll(was, logs, done, t) && fd !in done && turn.input == Visited(t.visit(fd).(now := t.now))
    ensures VisitedAll(was, Pushed(logs, fd, turn), done + [fd], t)
  {
    var logs' := Pushed(logs, fd, turn);
    forall x | x in done + [fd] ensures VisitedAt(was, logs', t, x) {
      assert x != fd ==> VisitedAt(was, logs, t, x);
    }
  }

  /** The state of a tick between two visits. */
  ghost predicate Midway(c: Policy, m: Maps, was: Logs, logs: Logs, done: seq<int>, t: Tick,
                         kicked: seq<(int, real)>, writes: nat) {
    Sound(c, m, logs, t.now, kicked, writes) && VisitedAll(was, logs, done, t)
  }

  /** The log accepted every event of these visits. */
  predicate AllLogged(t: Tick, fds: seq<int>) {
    forall k :: 0 <= k < |fds| ==> t.visitLogged(fds[k])
  }

  /** How many of the listed FDs are visited: all, or those up to the first whose events the log refuses. */
  function VisitsMade(t: Tick, fds: seq<int>, i: nat): (n: nat)
    requires i <= |fds|
    ensures i <= n <= |fds| && (forall k :: i <= k < n - 1 ==> t.visitLogged(fds[k]))
    ensures n < |fds| ==> n > i && !t.visitLogged(fds[n - 1])
    decreases |fds| - i
  {
    if i == |fds| then i else if t.visitLogged(fds[i]) then VisitsMade(t, fds, i + 1) else i + 1
  }

  lemma TickComplete(c: Policy, m: Maps, was: Logs, logs: Logs, vhosts: seq<int>, t: Tick)
    requires VisitedAll(was, logs, vhosts, t)
    ensures forall fd: int :: TurnedAt(was, Left(c, m, logs, vhosts, t.now), vhosts, t, fd)
  {
    forall fd: int ensures TurnedAt(was, Left(c, m, logs, vhosts, t.now), vhosts, t, fd) {
      assert fd in vhosts ==> VisitedAt(was, logs, t, fd);
    }
  }

  predicate Halts(t: Tick) {
    t.cancelled || t.alive != Some(true) || t.expired
  }

  /** Everything the environment answers during one tick. */
  datatype Tick = Tick(
    now: real, cancelled: bool, alive: Option<bool>, expired: bool, inventory: Option<seq<int>>,
    visit: int -> Visit, visitLogged: int -> bool, logged: bool)

  /** /proc lists each descriptor once. */
  predicate Sane(t: Tick) {
    t.inventory.Some? ==> Distinct(t.inventory.value)
  }

  // ----- Ticks

  /** The turn that `fd` took since `was` was reported unavailable. */
  ghost predicate FailedAt(was: Logs, logs: Logs, fd: int) {
    |logs(fd)| > |was(fd)| && logs(fd)[|was(fd)|].o.emitted.unavailable
  }

  ghost predicate Troubled(was: Logs, logs: Logs, fds: seq<int>) {
    exists fd :: fd in fds && FailedAt(was, logs, fd)
  }

  lemma TroubledNext(was: Logs, logs: Logs, done: seq<int>, fd: int, turn: Turn)
    requires fd !in done && logs(fd) == was(fd)
    ensures Troubled(was, Pushed(logs, fd, turn), done + [fd]) <==> Troubled(was, logs, done) || turn.o.emitted.unavailable
  {
    var logs' := Pushed(logs, fd, turn);
    assert FailedAt(was, logs', fd) <==> turn.o.emitted.unavailable;
    assert forall x :: x in done ==> (FailedAt(was, logs', x) <==> FailedAt(was, logs, x));
    assert fd in done + [fd];
  }

  lemma TroubledLeft(c: Policy, m: Maps, was: Logs, logs: Logs, vhosts: seq<int>, now: real)
    ensures Troubled(was, Left(c, m, logs, vhosts, now), vhosts) <==> Troubled(was, logs, vhosts)
  {
    assert forall x :: x in vhosts ==> (FailedAt(was, Left(c, m, logs, vhosts, now), x) <==> FailedAt(was, logs, x));
  }

  /** What a run shows of the loop between two ticks. */
  datatype View = View(vhosts: seq<int>, lastInventory: Stamp, logs: Logs)

  /** One whole tick: the inventory when it is due, then exactly one turn of every slot, a visit of each listed FD and
      the departure of any other. An FD found unavailable forces an inventory in the next tick; otherwise an inventory
      taken now is stamped with its time. */
  ghost predicate Ticked(c: Policy, t: Tick, v: View, v': View) {
    var due := Elapsed(v.lastInventory, t.now, c.inventoryInterval);
    && !Halts(t) && (due ==> t.inventory.Some?)
    && v'.vhosts == (if due then t.inventory.value else v.vhosts)
    && Turned(t, v'.vhosts, v.logs, v'.logs, if due then At(t.now) else v.lastInventory, v'.lastInventory)
  }

  /** Every slot took its turn of the tick; an FD found unavailable replaces the stamp. */
  ghost predicate Turned(t: Tick, vhosts: seq<int>, was: Logs, logs: Logs, stamp: Stamp, last: Stamp) {
    && (forall fd: int :: TurnedAt(was, logs, vhosts, t, fd))
    && last == if Troubled(was, logs, vhosts) then NegInf else stamp
  }

  /** The visits the log accepted took their turn, and nothing else happened. */
  ghost predicate CutShort(t: Tick, vhosts: seq<int>, was: Logs, logs: Logs, stamp: Stamp, last: Stamp) {
    var done := vhosts[..VisitsMade(t, vhosts, 0)];
    VisitedAll(was, logs, done, t) && last == if Troubled(was, logs, done) then NegInf else stamp
  }

  /** The first visit whose events the log refuses is the last one. */
  lemma RefusedAt(t: Tick, vhosts: seq<int>, n: nat, was: Logs, logs: Logs, stamp: Stamp, last: Stamp)
    requires n < |vhosts| && !t.visitLogged(vhosts[n]) && (forall k :: 0 <= k < n ==> t.visitLogged(vhosts[k]))
    requires VisitedAll(was, logs, vhosts[..n + 1], t)
    requires last == if Troubled(was, logs, vhosts[..n + 1]) then NegInf else stamp
    ensures CutShort(t, vhosts, was, logs, stamp, last) && !AllLogged(t, vhosts)
  {
    assert VisitsMade(t, vhosts, 0) == n + 1;
  }

  /** A tick whose log breaks between two visits: exactly the FDs visited by then took their turn, and none left. */
  ghost predicate BrokeOff(c: Policy, t: Tick, v: View, v': View) {
    var due := Elapsed(v.lastInventory, t.now, c.inventoryInterval);
    && !Halts(t) && (due ==> t.inventory.Some?) && v'.vhosts == (if due then t.inventory.value else v.vhosts)
    && !AllLogged(t, v'.vhosts)
    && CutShort(t, v'.vhosts, v.logs, v'.logs, if due then At(t.now) else v.lastInventory, v'.lastInventory)
  }

  /** The tick that ends a run: it is not entered, its log breaks between two visits, or the log is found broken at
      its end. */
  ghost predicate TickedLast(c: Policy, t: Tick, v: View, v': View) {
    || ((Halts(t) || (Elapsed(v.lastInventory, t.now, c.inventoryInterval) && t.inventory.None?)) && v' == v)
    || BrokeOff(c, t, v, v')
    || (Ticked(c, t, v, v') && !t.logged)
  }

  /** Why a tick ends the run. */
  ghost predicate Stops(c: Policy, t: Tick, v: View, vhosts: seq<int>) {
    || Halts(t) || (Elapsed(v.lastInventory, t.now, c.inventoryInterval) && t.inventory.None?)
    || !t.logged || !AllLogged(t, vhosts)
  }

  /** The first ticks, one view after each. */
  ghost predicate Viewed(c: Policy, ticks: seq<Tick>, views: seq<View>) {
    && 0 < |views| <= |ticks| + 1
    && forall i: nat :: i < |views| - 1 ==> ViewedAt(c, ticks, views, i)
  }

  ghost predicate ViewedAt(c: Policy, ticks: seq<Tick>, views: seq<View>, i: nat)
    requires i + 1 < |views| <= |ticks| + 1
  {
    Ticked(c, ticks[i], views[i], views[i + 1])
  }

  lemma ViewedNext(c: Policy, ticks: seq<Tick>, views: seq<View>, v: View)
    requires Viewed(c, ticks, views) && |views| <= |ticks| && Ticked(c, ticks[|views| - 1], views[|views| - 1], v)
    ensures Viewed(c, ticks, views + [v])
  {
    forall i: nat | i < |views| ensures ViewedAt(c, ticks, views + [v], i) {
      if i + 1 < |views| {
        assert ViewedAt(c, ticks, views, i);
      }
    }
  }

  /** As many turns as ticks. */
  lemma {:induction false} ViewedLengths(c: Policy, ticks: seq<Tick>, views: seq<View>, n: nat, fd: int)
    requires Viewed(c, ticks, views) && n < |views|
    ensures |views[n].logs(fd)| == |views[0].logs(fd)| + n
  {
    if n > 0 {
      ViewedLengths(c, ticks, views, n - 1, fd);
      assert ViewedAt(c, ticks, views, n - 1);
      assert TurnedAt(views[n - 1].logs, views[n].logs, views[n].vhosts, ticks[n - 1], fd);
    }
  }
}
