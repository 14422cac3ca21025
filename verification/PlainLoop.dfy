/** The plain loop itself (internal/watch/run_linux.go): each iteration extends the run of every FD slot, so
    the run-level results of PlainSlots hold for all slots of every run. */
module PlainLoop {
  import opened Words
  import opened Snapshots
  import opened Budgets
  import opened Policies
  import opened Detectors
  import opened PlainSlots
  import opened PlainRuns

  class Loop {
    const c: Policy
    var vhosts: seq<int>
    var states: map<int, Watch>
    var snapshots: map<int, Snapshot>
    var pending: map<int, Verification>
    var lastInventory: Stamp
    var totalWrites: nat
    var stopped: bool
    /** The remote FDs of which the agent holds a duplicate. */
    var open: multiset<int>
    ghost var logs: Logs
    ghost var clock: real
    /** Every kick written, with its FD and time. */
    ghost var kicked: seq<(int, real)>

    function Entries(): Maps
      reads this`states, this`snapshots, this`pending
    {
      Maps(states, snapshots, pending)
    }

    ghost predicate Valid()
      reads this
    {
      ProperPolicy(c) && Distinct(vhosts) && Sound(c, Entries(), logs, clock, kicked, totalWrites)
    }

    constructor (c: Policy)
      requires ProperPolicy(c)
      ensures Valid() && !stopped && open == multiset{}
      ensures forall fd: int :: logs(fd) == []
    {
      this.c := c;
      vhosts, states, snapshots, pending := [], map[], map[], map[];
      lastInventory, totalWrites, stopped, open := NegInf, 0, false, multiset{};
      logs, clock, kicked := _ => [], 0.0, [];
    }

    /** What every reachable state guarantees for every FD slot. */
    lemma Guarantees(fd: int)
      requires Valid()
      ensures c.mode.Guarded? ==> WithinLimits(KickTimes(logs(fd), |logs(fd)|), c.limits)
      ensures TimesOf(kicked, fd) == KickTimes(logs(fd), |logs(fd)|)
      ensures Started(logs(fd), |logs(fd)|) == Ended(logs(fd), |logs(fd)|) + if fd in pending then 1 else 0
      ensures forall i: nat, j: nat ::
                i < j < |logs(fd)| && logs(fd)[i].o.emitted.stall && logs(fd)[j].o.emitted.stall ==>
                Time(logs(fd)[j].input) - Time(logs(fd)[i].input) >= c.threshold
    {
      var tr := logs(fd);
      assert Faithful(c, Entries(), logs, fd) && Tallies(kicked, logs, fd);
      if c.mode.Guarded? {
        LimitsHold(c, tr, |tr|);
      }
      EachVerificationEndsOnce(c, tr, |tr|);
      forall i: nat, j: nat | i < j < |tr| && tr[i].o.emitted.stall && tr[j].o.emitted.stall
        ensures Time(tr[j].input) - Time(tr[i].input) >= c.threshold
      {
        PlainSlots.StallReportsSpaced(c, tr, i, j);
      }
    }

    /** The recovery decision; `err` is the error return. A fresh duplicate is handed to Rekick and closed. */
    method Recover(fd: int, slot0: Slot, e0: Emitted, x: Sample, v: Visit)
      returns (slot: Slot, e: Emitted, err: bool)
      requires slot0.watch.Some? && !e0.kick && !e0.started && !e0.unavailable
      modifies this`open, this`totalWrites
      ensures open == old(open)
      ensures var o := Recovering(c, slot0, e0, [], x, v);
              && err == o.emitted.unavailable
              && (if err then Failing(slot, e, [], v.now).(events := o.events) else Outcome(slot, e, o.events)) == o
              && totalWrites == old(totalWrites) + if o.emitted.kick then 1 else 0
    {
      slot, e, err := slot0, e0, false;
      var d := slot.watch.value;
      var periodic := c.mode.Periodic? && Elapsed(d.budget.lastKick, v.now, c.kickInterval);
      var guarded := false;
      if c.mode.Guarded? && e.stalled {
        guarded := Allowed(d.budget, v.now, c.limits);
        d := d.(budget := Pruned(d.budget, v.now));
        slot := slot.(watch := Some(d));
      }
      if !(periodic || guarded) || v.cancelled {
        return;
      }
      if guarded && v.listed != Some(true) {
        err := true;
        return;
      }
      if !v.reduplicated {
        err := true;
        return;
      }
      open := open + multiset{fd};
      err := !v.rekicked;
      open := open - multiset{fd};
      if err {
        return;
      }
      d := d.(budget := d.budget.(lastKick := At(v.now)));
      if guarded {
        d := d.(budget := Kicked(d.budget, v.now));
      }
      totalWrites := totalWrites + 1;
      e := e.(kick := true);
      slot := slot.(watch := Some(d));
      if Pending(x) > 0 && slot.pending.None? {
        slot := slot.(pending := Some(Verification(v.now, x.used, x.s.lastAvail, guarded || e.stalled)));
        e := e.(started := true);
      }
    }

    /** The outstanding verification is closed by progress of both counters, or by the timeout. */
    method Judge(p: Option<Verification>, x: Sample, now: real) returns (ended: Option<Ending>)
      ensures ended == Judged(c, p, x, now)
    {
      ended := None;
      if p.Some? {
        var w := p.value;
        if x.used != w.used && x.s.lastAvail != w.consumed {
          ended := Some(Progressed(w.stalled));
        } else if now - w.at >= c.verifyTimeout {
          ended := Some(TimedOut);
        }
      }
    }

    /** Observe, judge the outstanding verification, report a stall, recover. */
    method TakeSample(fd: int, slot0: Slot, e0: Emitted, x: Sample, v: Visit)
      returns (slot: Slot, e: Emitted, err: bool)
      requires slot0.watch.Some? && !e0.kick && !e0.started && !e0.unavailable
      modifies this`open, this`totalWrites
      ensures open == old(open)
      ensures var o := Sampled(c, slot0, e0, x, v);
              && err == o.emitted.unavailable
              && (if err then Failing(slot, e, [], v.now).(events := o.events) else Outcome(slot, e, o.events)) == o
              && totalWrites == old(totalWrites) + if o.emitted.kick then 1 else 0
    {
      var d := slot0.watch.value;
      var t := Observed(d.timer, Read(x), v.now);
      var stalled := Stalled(t, Read(x), v.now, c.threshold);
      var news := stalled && !t.reported;
      var ended := Judge(slot0.pending, x, v.now);
      slot := slot0;
      e := e0.(sampled := true, stalled := stalled, stall := news);
      if ended.Some? {
        e := e.(ended := ended);
        slot := slot.(pending := None);
      }
      if news {
        t := t.(reported := true);
      }
      slot := slot.(watch := Some(d.(timer := t)));
      err := !v.logged;
      if !err {
        EventsAreSeparate(c, slot, e, [Seen(Read(x), v.now)], x, v);
        slot, e, err := Recover(fd, slot, e, x, v);
      }
    }

    /** The closure of one visit, up to its error return. */
    method Examine(fd: int, was: Slot, v: Visit) returns (slot: Slot, e: Emitted, err: bool)
      modifies this`open, this`totalWrites
      ensures open == old(open)
      ensures var o := Visiting(c, was, v);
              && err == o.emitted.unavailable
              && (if err then Failing(slot, e, [], v.now).(events := o.events) else Outcome(slot, e, o.events)) == o
              && totalWrites == old(totalWrites) + if o.emitted.kick then 1 else 0
    {
      slot, e, err := was, SILENT, false;
      if !v.duplicated {
        err := true;
        return;
      }
      open := open + multiset{fd};
      if v.first.None? {
        err := true;
      } else {
        var s := v.first.value;
        if slot.snapshot.Some? && Identity(slot.snapshot.value) != Identity(s) {
          if slot.pending.Some? {
            e := e.(ended := Some(Abandoned));
          }
          slot := slot.(pending := None);
          if v.second.None? {
            err := true;
          } else {
            s := v.second.value;
          }
        }
        if !err {
          slot := slot.(snapshot := Some(s));
          if slot.watch.None? {
            slot := slot.(watch := Some(FRESH_WATCH));
          }
          if v.ring.None? || v.counters.None? {
            err := true;
          } else {
            slot, e, err := TakeSample(fd, slot, e, SampleOf(c, s, v.ring.value, v.counters.value, v.now), v);
          }
        }
      }
      open := open - multiset{fd};
    }

    /** The closure followed by the error path of the loop. */
    method Settle(fd: int, was: Slot, v: Visit) returns (slot: Slot, e: Emitted)
      modifies this`open, this`totalWrites, this`lastInventory
      ensures open == old(open)
      ensures var o := Visiting(c, was, v);
              slot == o.slot && e == o.emitted && totalWrites == old(totalWrites) + if e.kick then 1 else 0
      ensures lastInventory == if e.unavailable then NegInf else old(lastInventory)
    {
      var err;
      slot, e, err := Examine(fd, was, v);
      if err {
        lastInventory := NegInf;
        if slot.pending.Some? {
          e := e.(ended := Some(Abandoned));
        }
        e := e.(unavailable := true);
        if slot.watch.Some? {
          slot := slot.(watch := Some(slot.watch.value.(timer := Interrupted(slot.watch.value.timer, v.now))));
        }
        slot := slot.(pending := None);
      }
    }

    /** One listed FD of one tick. */
    method VisitQueue(fd: int, v: Visit)
      requires Sound(c, Entries(), logs, v.now, kicked, totalWrites)
      modifies this`states, this`snapshots, this`pending, this`lastInventory, this`open, this`totalWrites,
               this`logs, this`kicked
      ensures Sound(c, Entries(), logs, v.now, kicked, totalWrites)
      ensures open == old(open)
      ensures var turn := Taken(c, old(Entries()), fd, Visited(v));
              && logs == Pushed(old(logs), fd, turn)
              && lastInventory == if turn.o.emitted.unavailable then NegInf else old(lastInventory)
    {
      ghost var m, t := Entries(), Taken(c, Entries(), fd, Visited(v));
      var slot, _ := Settle(fd, Load(Entries(), fd), v);
      assert slot == t.o.slot;
      var after := Store(Entries(), fd, slot);
      VisitFollows(c, m, logs, v.now, kicked, old(totalWrites), fd, Visited(v));
      states, snapshots, pending, logs := after.states, after.snapshots, after.pending, Pushed(logs, fd, t);
      kicked := Noted(kicked, fd, t);
      assert Entries() == after;
    }

    /** The entries of FDs the inventory no longer lists are dropped one by one. */
    method Sweep() returns (kept: map<int, Snapshot>, waiting: map<int, Verification>)
      ensures Forgotten(Entries(), vhosts) == Maps(states, kept, waiting)
    {
      kept, waiting := snapshots, pending;
      var rest: set<int> := snapshots.Keys;
      while rest != {}
        invariant rest <= snapshots.Keys
        invariant Maps(states, kept, waiting) == Dropped(Entries(), vhosts, snapshots.Keys - rest)
        decreases rest
      {
        Inhabited(rest);
        var fd :| fd in rest;
        rest := rest - {fd};
        if fd !in vhosts {
          kept, waiting := kept - {fd}, waiting - {fd};
        }
        assert Maps(states, kept, waiting) == Dropped(Entries(), vhosts, snapshots.Keys - rest);
      }
      assert Forgotten(Entries(), vhosts) == Dropped(Entries(), vhosts, snapshots.Keys);
    }

    method Forget(now: real)
      requires Sound(c, Entries(), logs, now, kicked, totalWrites)
      modifies this`snapshots, this`pending, this`logs
      ensures Sound(c, Entries(), logs, now, kicked, totalWrites)
      ensures Entries() == Forgotten(old(Entries()), vhosts)
      ensures logs == Left(c, old(Entries()), old(logs), vhosts, now)
    {
      LeavingFollows(c, Entries(), logs, vhosts, now, kicked, totalWrites);
      var kept, waiting := Sweep();
      logs := Left(c, Entries(), logs, vhosts, now);
      snapshots, pending := kept, waiting;
    }

    /** FD `i` of the list, in a tick that entered its visits with `stamp`. */
    method VisitNext(i: nat, t: Tick, ghost was: Logs, ghost stamp: Stamp)
      requires i < |vhosts| && Distinct(vhosts) && Midway(c, Entries(), was, logs, vhosts[..i], t, kicked, totalWrites)
      requires lastInventory == if Troubled(was, logs, vhosts[..i]) then NegInf else stamp
      modifies this`states, this`snapshots, this`pending, this`lastInventory, this`open, this`totalWrites,
               this`logs, this`kicked
      ensures Midway(c, Entries(), was, logs, vhosts[..i + 1], t, kicked, totalWrites) && open == old(open)
      ensures lastInventory == if Troubled(was, logs, vhosts[..i + 1]) then NegInf else stamp
    {
      var fd := vhosts[i];
      ghost var turn := Taken(c, Entries(), fd, Visited(t.visit(fd).(now := t.now)));
      assert vhosts[..i + 1] == vhosts[..i] + [fd] && fd !in vhosts[..i];
      OneMoreVisited(was, logs, vhosts[..i], t, fd, turn);
      TroubledNext(was, logs, vhosts[..i], fd, turn);
      VisitQueue(fd, t.visit(fd).(now := t.now));
    }

    /** Visits the listed FDs in order; a broken log stops the run between two visits. */
    method VisitAll(t: Tick) returns (broken: bool)
      requires Sound(c, Entries(), logs, t.now, kicked, totalWrites) && Distinct(vhosts)
      modifies this`states, this`snapshots, this`pending, this`lastInventory, this`open, this`totalWrites,
               this`logs, this`kicked
      ensures Sound(c, Entries(), logs, t.now, kicked, totalWrites) && open == old(open)
      ensures broken == !AllLogged(t, vhosts)
      ensures if broken then CutShort(t, vhosts, old(logs), logs, old(lastInventory), lastInventory)
              else VisitedAll(old(logs), logs, vhosts, t)
                   && lastInventory == if Troubled(old(logs), logs, vhosts) then NegInf else old(lastInventory)
    {
      for i := 0 to |vhosts|
        invariant forall k :: 0 <= k < i ==> t.visitLogged(vhosts[k])
        invariant Midway(c, Entries(), old(logs), logs, vhosts[..i], t, kicked, totalWrites) && open == old(open)
        invariant lastInventory == if Troubled(old(logs), logs, vhosts[..i]) then NegInf else old(lastInventory)
      {
        VisitNext(i, t, old(logs), old(lastInventory));
        if !t.visitLogged(vhosts[i]) {
          RefusedAt(t, vhosts, i, old(logs), logs, old(lastInventory), lastInventory);
          return true;
        }
      }
      assert vhosts[..|vhosts|] == vhosts;
      broken := false;
    }

    /** Refreshes the cached list of FDs when it is due; a failed inventory stops the run. */
    method Discover(t: Tick)
      requires Distinct(vhosts) && Sane(t) && !stopped
      modifies this`vhosts, this`lastInventory, this`stopped
      ensures Distinct(vhosts)
      ensures var due := Elapsed(old(lastInventory), t.now, c.inventoryInterval);
              && stopped == (due && t.inventory.None?)
              && vhosts == (if due && t.inventory.Some? then t.inventory.value else old(vhosts))
              && lastInventory == if due && t.inventory.Some? then At(t.now) else old(lastInventory)
    {
      if Elapsed(lastInventory, t.now, c.inventoryInterval) {
        if t.inventory.None? {
          stopped := true;
        } else {
          vhosts := t.inventory.value;
          lastInventory := At(t.now);
        }
      }
    }

    /** The last step of a tick that visited every listed FD. */
    method Depart(t: Tick, ghost was: Logs)
      requires Sound(c, Entries(), logs, t.now, kicked, totalWrites) && VisitedAll(was, logs, vhosts, t)
      modifies this`snapshots, this`pending, this`logs
      ensures Sound(c, Entries(), logs, t.now, kicked, totalWrites)
      ensures forall fd: int :: TurnedAt(was, logs, vhosts, t, fd)
      ensures Troubled(was, logs, vhosts) <==> Troubled(was, old(logs), vhosts)
    {
      TickComplete(c, Entries(), was, logs, vhosts, t);
      TroubledLeft(c, Entries(), was, logs, vhosts, t.now);
      Forget(t.now);
    }

    /** Visits, then forgets what is no longer listed. */
    method Work(t: Tick)
      requires Sound(c, Entries(), logs, t.now, kicked, totalWrites) && Distinct(vhosts) && !stopped
      modifies this`states, this`snapshots, this`pending, this`lastInventory, this`open, this`totalWrites,
               this`logs, this`kicked, this`stopped
      ensures Sound(c, Entries(), logs, t.now, kicked, totalWrites) && open == old(open)
      ensures stopped <==> !t.logged || !AllLogged(t, vhosts)
      ensures if AllLogged(t, vhosts) then Turned(t, vhosts, old(logs), logs, old(lastInventory), lastInventory)
              else CutShort(t, vhosts, old(logs), logs, old(lastInventory), lastInventory)
    {
      var broken := VisitAll(t);
      if broken {
        stopped := true;
      } else {
        Depart(t, old(logs));
        stopped := !t.logged;
      }
    }

    ghost function Shown(): View
      reads this
    {
      View(vhosts, lastInventory, logs)
    }

    /** One iteration of the loop. Whatever the environment answers, the log of every slot stays a run of that
        slot and no duplicate stays open. A tick is a whole one, in which every slot takes exactly one turn and an FD
        found unavailable forces an inventory in the next tick; or it ends the run in a stated way. */
    method Iterate(t: Tick)
      requires Valid() && !stopped && Sane(t) && clock <= t.now
      modifies this
      ensures Valid() && open == old(open) && clock == t.now
      ensures var due := Elapsed(old(lastInventory), t.now, c.inventoryInterval);
              && (stopped <==> Stops(c, t, old(Shown()), vhosts))
              && (!Halts(t) && (due ==> t.inventory.Some?) && AllLogged(t, vhosts) ==>
                    Ticked(c, t, old(Shown()), Shown()))
      ensures if stopped then TickedLast(c, t, old(Shown()), Shown()) else Ticked(c, t, old(Shown()), Shown()) && t.logged
    {
      SoundLater(c, Entries(), logs, clock, kicked, totalWrites, t.now);
      clock := t.now;
      if t.cancelled || t.alive != Some(true) || t.expired {
        stopped := true;
      } else {
        Discover(t);
        if !stopped {
          Work(t);
        }
      }
    }

    /** The iterations of a run. */
    method RunTicks(ticks: seq<Tick>) returns (ghost views: seq<View>)
      requires Valid() && !stopped
      requires forall i :: 0 <= i < |ticks| ==> Sane(ticks[i]) && clock <= ticks[i].now
      requires forall i, j :: 0 <= i < j < |ticks| ==> ticks[i].now <= ticks[j].now
      modifies this
      ensures Valid() && open == old(open) && Viewed(c, ticks, views) && views[0] == old(Shown())
      ensures if stopped then
                && |views| <= |ticks| && Stops(c, ticks[|views| - 1], views[|views| - 1], vhosts)
                && TickedLast(c, ticks[|views| - 1], views[|views| - 1], Shown())
              else |views| == |ticks| + 1 && views[|ticks|] == Shown()
    {
      var i := 0;
      views := [Shown()];
      while i < |ticks|
        invariant 0 <= i <= |ticks| && Valid() && !stopped && open == old(open)
        invariant i < |ticks| ==> clock <= ticks[i].now
        invariant |views| == i + 1 && Viewed(c, ticks, views) && views[0] == old(Shown()) && views[i] == Shown()
      {
        Iterate(ticks[i]);
        if stopped {
          return;
        }
        ViewedNext(c, ticks, views, Shown());
        views := views + [Shown()];
        i := i + 1;
      }
    }

    /** Any number of iterations, over any environment and nondecreasing time: whole ticks, up to one that ends the
        run. */
    method Run(ticks: seq<Tick>) returns (ghost views: seq<View>)
      requires Valid() && !stopped
      requires forall i :: 0 <= i < |ticks| ==> Sane(ticks[i]) && clock <= ticks[i].now
      requires forall i, j :: 0 <= i < j < |ticks| ==> ticks[i].now <= ticks[j].now
      modifies this
      ensures Valid() && open == old(open) && Viewed(c, ticks, views) && views[0] == old(Shown())
      ensures if stopped then
                && |views| <= |ticks| && Stops(c, ticks[|views| - 1], views[|views| - 1], vhosts)
                && TickedLast(c, ticks[|views| - 1], views[|views| - 1], Shown())
              else |views| == |ticks| + 1 && views[|ticks|] == Shown()
      ensures !stopped ==> forall fd: int :: |logs(fd)| == |old(logs)(fd)| + |ticks|
      ensures c.mode.Guarded? ==> forall fd: int :: WithinLimits(KickTimes(logs(fd), |logs(fd)|), c.limits)
      ensures totalWrites == |kicked| && forall fd: int :: TimesOf(kicked, fd) == KickTimes(logs(fd), |logs(fd)|)
      ensures forall fd: int ::
                Started(logs(fd), |logs(fd)|) == Ended(logs(fd), |logs(fd)|) + if fd in pending then 1 else 0
    {
      views := RunTicks(ticks);
      if !stopped {
        forall fd: int ensures |logs(fd)| == |old(logs)(fd)| + |ticks| {
          ViewedLengths(c, ticks, views, |ticks|, fd);
        }
      }
      forall fd: int
        ensures c.mode.Guarded? ==> WithinLimits(KickTimes(logs(fd), |logs(fd)|), c.limits)
        ensures TimesOf(kicked, fd) == KickTimes(logs(fd), |logs(fd)|)
        ensures Started(logs(fd), |logs(fd)|) == Ended(logs(fd), |logs(fd)|) + if fd in pending then 1 else 0
      {
        Guarantees(fd);
      }
    }
  }

  lemma EventsAreSeparate(c: Policy, slot: Slot, e: Emitted, events: seq<Event>, x: Sample, v: Visit)
    requires slot.watch.Some?
    ensures var o, o' := Recovering(c, slot, e, events, x, v), Recovering(c, slot, e, [], x, v);
            o.slot == o'.slot && o.emitted == o'.emitted
  {
  }
}
