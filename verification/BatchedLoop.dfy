/** The batched loop itself (internal/watch/batched_linux.go): every tick of the loop is a step of every
    FD slot, so the run-level results of BatchedSlots hold for all slots of every run. */
module BatchedLoop {
  import opened Words
  import opened Snapshots
  import opened Budgets
  import opened Policies
  import opened BatchedSlots
  import opened BatchedRuns
  import RingReads

  class Loop {
    const c: Policy
    var order: seq<int>
    var queues: map<int, Queue>
    var budgets: map<int, Budget>
    var batch: Option<seq<Snapshot>>
    var lastInventory: Stamp
    var lastSummary: Stamp
    var writes: nat
    var stopped: bool
    /** The remote FDs of which the agent holds a duplicate. */
    var open: multiset<int>
    ghost var logs: Logs
    ghost var clock: real
    /** Every kick written, with its FD and time. */
    ghost var kicked: seq<(int, real)>

    ghost predicate Valid()
      reads this
    {
      && ProperPolicy(c) && Sound(c, order, queues, budgets, logs, clock, kicked, writes)
      && (!stopped ==> Aligned(batch, order, queues))
    }

    constructor (c: Policy)
      requires ProperPolicy(c)
      ensures Valid() && !stopped && writes == 0 && open == multiset{}
      ensures forall fd: int :: logs(fd) == []
    {
      this.c := c;
      order, queues, budgets, batch := [], map[], map[], None;
      lastInventory, lastSummary, writes, stopped, open := NegInf, NegInf, 0, false, multiset{};
      logs, clock, kicked := _ => [], 0.0, [];
    }

    /** What every reachable state guarantees for every FD slot: the limits, the reason behind each kick,
        the spacing of stall reports. */
    lemma Guarantees(fd: int)
      requires Valid()
      ensures var tr := logs(fd);
              && WithinLimits(KickTimes(tr, |tr|), c.limits) && TimesOf(kicked, fd) == KickTimes(tr, |tr|)
              && (forall j: nat :: j < |tr| && tr[j].emitted.kick ==>
                    exists a: nat, i: nat :: a <= i < j && HeldFrom(tr, i, j) && Justified(c, tr, a, i, j))
              && (forall i: nat, j: nat :: i < j < |tr| && tr[i].emitted.stall && tr[j].emitted.stall ==>
                    tr[j].input.now - tr[i].input.now >= c.threshold)
    {
      var tr := logs(fd);
      assert Faithful(c, queues, budgets, logs, fd) && Tallies(kicked, logs, fd);
      LimitsHold(c, tr, |tr|);
      forall j: nat | j < |tr| && tr[j].emitted.kick
        ensures exists a: nat, i: nat :: a <= i < j && HeldFrom(tr, i, j) && Justified(c, tr, a, i, j)
      {
        KickJustified(c, tr, j);
      }
      forall i: nat, j: nat | i < j < |tr| && tr[i].emitted.stall && tr[j].emitted.stall
        ensures tr[j].input.now - tr[i].input.now >= c.threshold
      {
        var _ := StallReportsSpaced(c, tr, i, j);
      }
    }

    /** liveRow: the duplicate is closed whichever call fails. */
    method LiveRow(fd: int, reply: LiveReply) returns (row: Option<Live>)
      modifies this`open
      ensures row == Available(reply) && open == old(open)
    {
      if reply.NoDuplicate? {
        return None;
      }
      open := open + multiset{fd};
      if reply.NoSnapshot? || reply.NoRing? {
        row := None;
      } else {
        row := Some(reply.row);
      }
      open := open - multiset{fd};
    }

    /** Duplicates the FD afresh and hands it to Rekick. */
    method Recover(fd: int, a: Attempt) returns (ok: bool)
      modifies this`open
      ensures ok == Writes(a) && open == old(open)
    {
      if a.listed != Some(true) || !a.duplicated {
        return false;
      }
      open := open + multiset{fd};
      ok := a.rekicked;
      open := open - multiset{fd};
    }

    /** The outstanding verification is closed by progress of both counters, or by the timeout. */
    method Judge(q0: Queue, row: Live, now: real) returns (q: Queue, verdict: Option<Verdict>)
      ensures verdict == Judged(c, q0.verification, row, now)
      ensures q == if verdict.Some? then q0.(verification := None) else q0
    {
      q, verdict := q0, None;
      if q.verification.Some? {
        var v := q.verification.value;
        if row.used != v.used && row.s.lastAvail != v.consumed {
          verdict := Some(Recovered);
          q := q.(verification := None);
        } else if now - v.at >= c.verifyTimeout {
          verdict := Some(Unconfirmed);
          q := q.(verification := None);
        }
      }
    }

    /** A ready queue: candidate, then confirmation, report and recovery. `err` is the error return. */
    method Confirm(fd: int, q0: Queue, budget0: Budget, used: u16, row: Live, t: Tick, e0: Emitted)
      returns (q: Queue, budget: Budget, e: Emitted, err: bool)
      requires e0 == SILENT.(verdict := e0.verdict)
      modifies this`open, this`writes, this`kicked
      ensures open == old(open)
      ensures var o := Confirmed(c, q0, budget0, t.now, used, row, t.attempt(fd), e0);
              && e.(unavailable := err, restart := e.restart || err) == o.emitted && !e.unavailable
              && (if err then Abandoned(q, t.now) else q) == o.queue
              && budget == o.budget
              && writes == old(writes) + (if e.kick then 1 else 0)
              && kicked == if e.kick then old(kicked) + [(fd, t.now)] else old(kicked)
    {
      q, budget, e, err := q0, budget0, e0, false;
      var pending, outstanding := Sub16(row.avail, row.s.lastAvail), Sub16(row.avail, row.used);
      if row.used != used || pending == 0 || pending > row.s.num || outstanding > row.s.num || Busy(row.s) {
        q, e := Restarted(q, t.now), e.(restart := true);
        return;
      }
      if q.candidate.None? {
        q := q.(candidate := Some(Candidate(row.s, row.used)));
        e := e.(candidate := true);
        return;
      }
      var previous := q.candidate.value;
      if Identity(previous.snapshot) != Identity(row.s) || previous.used != row.used
         || previous.snapshot.lastAvail != row.s.lastAvail {
        q, e := Restarted(q, t.now), e.(restart := true);
        return;
      }
      e := e.(stall := !q.reported);
      q := q.(reported := true);
      var allowed := Allowed(budget, t.now, c.limits);
      budget := Pruned(budget, t.now);
      if !allowed || t.attempt(fd).cancelled {
        return;
      }
      var written := Recover(fd, t.attempt(fd));
      if !written {
        err := true;
        return;
      }
      budget := Kicked(budget, t.now);
      writes := writes + 1;
      kicked := kicked + [(fd, t.now)];
      e := e.(kick := true);
      q := q.(verification := Some(Verification(t.now, row.used, row.s.lastAvail, true)), candidate := None);
    }

    /** One queue of one tick, without its log. */
    method PollQueue(fd: int, avail: u16, used: u16, t: Tick) returns (e: Emitted)
      requires fd in queues && fd in budgets
      modifies this`queues, this`budgets, this`lastInventory, this`open, this`writes, this`kicked
      ensures var o := Poll(c, old(queues)[fd], old(budgets)[fd],
                            Polled(t.now, avail, used, Available(t.live(fd)), t.attempt(fd)));
              && queues == old(queues)[fd := o.queue] && budgets == old(budgets)[fd := o.budget]
              && e == o.emitted
              && writes == old(writes) + (if e.kick then 1 else 0)
              && kicked == (if e.kick then old(kicked) + [(fd, t.now)] else old(kicked))
              && lastInventory == (if e.unavailable then NegInf else old(lastInventory))
      ensures open == old(open)
    {
      var q, budget := queues[fd], budgets[fd];
      var p := Progress.Next(q.progress, Progress.Reading(avail, used, q.snapshot.num, t.now));
      var ready := Progress.Ready(p, t.now, c.threshold);
      q := q.(progress := p);
      if !ready {
        q := q.(candidate := None, reported := false);
      }
      e := SILENT;
      if ready || q.verification.Some? {
        var err := false;
        var live := LiveRow(fd, t.live(fd));
        if live.None? || Identity(live.value.s) != Identity(q.snapshot) {
          err := true;
        } else {
          var verdict;
          q, verdict := Judge(q, live.value, t.now);
          e := e.(verdict := verdict);
          if ready {
            q, budget, e, err := Confirm(fd, q, budget, used, live.value, t, e);
          }
        }
        if err {
          q := Abandoned(q, t.now);
          e := e.(unavailable := true, restart := true);
          lastInventory := NegInf;
        }
      }
      queues := queues[fd := q];
      budgets := budgets[fd := budget];
    }

    /** Walks the listed FDs and keeps those that answer. Objects of unchanged attachments survive. */
    method Relist(vhosts: seq<int>, t: Tick)
      returns (listed: seq<int>, found: map<int, Queue>, spent: map<int, Budget>, snapshots: seq<Snapshot>)
      requires Distinct(vhosts)
      modifies this`open
      ensures open == old(open)
      ensures Relisted(vhosts, t, queues, budgets, listed, found, snapshots, spent)
    {
      listed, found, spent, snapshots := [], map[], budgets, [];
      for i := 0 to |vhosts|
        invariant open == old(open)
        invariant Listing(vhosts[..i], t, queues, listed, found, snapshots)
        invariant Spending(budgets, found, spent)
      {
        var fd := vhosts[i];
        var live := LiveRow(fd, t.found(fd));
        ListingGrows(vhosts[..i], t, queues, listed, found, snapshots, fd);
        assert vhosts[..i + 1] == vhosts[..i] + [fd];
        if live.Some? {
          var s := live.value.s;
          var q := NewQueue(s);
          if fd in queues && Identity(queues[fd].snapshot) == Identity(s) {
            q := queues[fd].(snapshot := s);
          }
          SpendingGrows(budgets, found, spent, fd, q);
          listed, found, snapshots := listed + [fd], found[fd := q], snapshots + [s];
          if fd !in spent {
            spent := spent[fd := FRESH];
          }
        }
      }
      assert vhosts[..|vhosts|] == vhosts;
    }

    /** NewRingBatch over the listed snapshots; an empty list needs no batch. */
    method Rebatch(snapshots: seq<Snapshot>, now: real) returns (ok: bool)
      requires Pictured(order, queues, snapshots)
      modifies this`batch, this`lastInventory
      ensures ok ==> Aligned(batch, order, queues)
      ensures ok <==> Pollable(order, queues)
      ensures lastInventory == if ok then At(now) else old(lastInventory)
    {
      batch := None;
      ok := |snapshots| == 0 || Batchable(snapshots);
      if ok {
        batch := if |snapshots| == 0 then None else Some(snapshots);
        lastInventory := At(now);
      }
    }

    /** Replaces the queue list by the inventory. */
    method Adopt(t: Tick) returns (snapshots: seq<Snapshot>)
      requires Sound(c, order, queues, budgets, logs, t.now, kicked, writes) && Sane(t) && t.inventory.Some?
      modifies this`order, this`queues, this`budgets, this`open, this`logs
      ensures Sound(c, order, queues, budgets, logs, t.now, kicked, writes) && Pictured(order, queues, snapshots)
      ensures open == old(open) && logs == Extended(c, old(logs), Discovery(t))
      ensures order == Answering(t, t.inventory.value)
    {
      var listed, found, spent;
      listed, found, spent, snapshots := Relist(t.inventory.value, t);
      DiscoverySound(c, t, order, queues, budgets, logs, kicked, writes, listed, found, snapshots, spent);
      order, queues, budgets, logs := listed, found, spent, Extended(c, logs, Discovery(t));
    }

    /** Inventory, then the batch over the same queues in the same order. */
    method TakeInventory(t: Tick) returns (ok: bool)
      requires Sound(c, order, queues, budgets, logs, t.now, kicked, writes) && Sane(t)
      modifies this`order, this`queues, this`budgets, this`open, this`logs, this`batch, this`lastInventory
      ensures Sound(c, order, queues, budgets, logs, t.now, kicked, writes)
      ensures open == old(open)
      ensures ok <==> t.inventory.Some? && Pollable(order, queues)
      ensures ok ==> Aligned(batch, order, queues)
      ensures lastInventory == if ok then At(t.now) else old(lastInventory)
      ensures if t.inventory.None? then logs == old(logs) && order == old(order)
              else logs == Extended(c, old(logs), Discovery(t)) && order == Answering(t, t.inventory.value)
    {
      ok := false;
      if t.inventory.Some? {
        var snapshots := Adopt(t);
        ok := Rebatch(snapshots, t.now);
      }
    }

    /** A failed batch read restarts every queue and forces a new inventory. */
    method FailBatch(t: Tick)
      requires Sound(c, order, queues, budgets, logs, t.now, kicked, writes) && Aligned(batch, order, queues)
      modifies this`queues, this`logs, this`lastInventory
      ensures Sound(c, order, queues, budgets, logs, t.now, kicked, writes) && Aligned(batch, order, queues)
      ensures SameLogs(logs, Extended(c, old(logs), Failure(t, order))) && lastInventory == NegInf
    {
      AbandonAll(t.now);
      FailureSound(c, t, order, old(queues), budgets, logs, kicked, writes, batch, queues);
      logs := Extended(c, logs, Failure(t, order));
      lastInventory := NegInf;
    }

    method AbandonAll(now: real)
      requires Shaped(order, queues, budgets)
      modifies this`queues
      ensures FailedUpTo(order, |order|, old(queues), queues, now)
    {
      for k := 0 to |order|
        invariant FailedUpTo(order, k, old(queues), queues, now)
      {
        queues := queues[order[k] := Abandoned(queues[order[k]], now)];
      }
    }

    /** Queue `k` of the list is polled with the ring words of its own batch slot, in a tick that entered its polls with
        `stamp`. */
    method PollNext(k: nat, t: Tick, words: seq<(u16, u16)>, ghost was: Logs, ghost stamp: Stamp)
      requires k < |order| == |words| && Worded(t, order, was, words)
      requires Aligned(batch, order, queues) && PolledUpTo(c, t, order, k, was, logs)
      requires lastInventory == if Disturbed(c, t, order, k, was) then NegInf else stamp
      requires Sound(c, order, queues, budgets, logs, t.now, kicked, writes)
      modifies this`queues, this`budgets, this`lastInventory, this`open, this`writes, this`logs, this`kicked
      ensures Sound(c, order, queues, budgets, logs, t.now, kicked, writes)
      ensures Aligned(batch, order, queues) && PolledUpTo(c, t, order, k + 1, was, logs) && open == old(open)
      ensures lastInventory == if Disturbed(c, t, order, k + 1, was) then NegInf else stamp
    {
      DisturbedNext(c, t, order, k, was);
      PollSound(c, order, queues, budgets, logs, t.now, kicked, writes, batch, order[k],
                PollOf(t, order[k], CacheOf(was(order[k]))));
      PolledOneMore(c, t, order, k, was, logs);
      ghost var turn := TurnOf(c, t, order, k, was);
      var (avail, used) := words[k];
      var _ := PollQueue(order[k], avail, used, t);
      logs := Pushed(logs, order[k], turn);
    }

    /** Every queue of the list is polled once. */
    method PollAll(t: Tick, words: seq<(u16, u16)>)
      requires |words| == |order| && Worded(t, order, logs, words)
      requires Sound(c, order, queues, budgets, logs, t.now, kicked, writes) && Aligned(batch, order, queues)
      modifies this`queues, this`budgets, this`lastInventory, this`open, this`writes, this`logs, this`kicked
      ensures Sound(c, order, queues, budgets, logs, t.now, kicked, writes) && Aligned(batch, order, queues)
      ensures SameLogs(logs, Extended(c, old(logs), Polling(t, order, old(logs)))) && open == old(open)
      ensures lastInventory == if Disturbed(c, t, order, |order|, old(logs)) then NegInf else old(lastInventory)
    {
      for k := 0 to |order|
        invariant Sound(c, order, queues, budgets, logs, t.now, kicked, writes) && Aligned(batch, order, queues)
        invariant PolledUpTo(c, t, order, k, old(logs), logs) && open == old(open)
        invariant lastInventory == if Disturbed(c, t, order, k, old(logs)) then NegInf else old(lastInventory)
      {
        PollNext(k, t, words, old(logs), old(lastInventory));
      }
      AllPolled(c, t, order, old(logs), logs);
    }

    /** The discovery phase of a tick. */
    method Discover(t: Tick) returns (ok: bool)
      requires Valid() && !stopped && Sane(t) && clock == t.now
      modifies this`order, this`queues, this`budgets, this`open, this`logs, this`batch, this`lastInventory
      ensures Sound(c, order, queues, budgets, logs, clock, kicked, writes)
      ensures open == old(open) && (ok ==> Aligned(batch, order, queues))
      ensures var due := Elapsed(old(lastInventory), t.now, c.inventoryInterval);
              && lastInventory == (if due && ok then At(t.now) else old(lastInventory))
              && if due && t.inventory.Some? then
                   && logs == Extended(c, old(logs), Discovery(t)) && order == Answering(t, t.inventory.value)
                   && ok == Pollable(order, queues)
                 else logs == old(logs) && order == old(order) && ok == !due
    {
      ok := true;
      if Elapsed(lastInventory, t.now, c.inventoryInterval) {
        ok := TakeInventory(t);
      }
    }

    /** The batch phase of a tick: one vectored read over the rings of all queues. */
    method ReadBatch(t: Tick)
      requires Valid() && !stopped && Sane(t) && clock == t.now
      modifies this`queues, this`budgets, this`lastInventory, this`open, this`writes, this`logs, this`kicked
      ensures Valid() && SameLogs(logs, Extended(c, old(logs), Reading(t, order, old(logs)))) && open == old(open)
      ensures lastInventory == if Unsettles(c, t, order, old(logs)) then NegInf else old(lastInventory)
      ensures ReadComplete(t, order, old(logs)) ==> AllPolledOnce(t, order, old(logs), logs)
    {
      if batch.None? {
        NothingRead(c, t, logs);
        SameLogsSound(c, queues, budgets, logs, clock, kicked, writes, Extended(c, logs, Reading(t, order, logs)), order);
        logs := Extended(c, logs, Reading(t, order, logs));
      } else {
        var vector := RingReads.BatchVector(batch.value);
        BatchIsCached(c, batch.value, order, queues, budgets, logs);
        RingReads.BatchTotal(batch.value);
        assert MovesMapped(t, vector);
        var words := RingReads.ReadAll(t.memory, batch.value, t.moved(vector));
        if words.Some? {
          WordsAreOwn(c, t, batch.value, order, queues, budgets, logs, words.value);
          PollAll(t, words.value);
          WordsWereOwn(c, t, order, old(logs), logs);
        } else {
          FailBatch(t);
        }
      }
    }

    /** The periodic summary reads live rows only; a stale queue forces a new inventory. */
    method Summarise(t: Tick) returns (rows: seq<(int, Live)>)
      requires Shaped(order, queues, budgets)
      modifies this`lastInventory, this`lastSummary, this`open
      ensures open == old(open) && lastSummary == At(t.now) && rows == SummaryRows(t, order, |order|, queues)
      ensures lastInventory == if AllCurrent(t, order, |order|, queues) then old(lastInventory) else NegInf
    {
      rows := [];
      for i := 0 to |order|
        invariant open == old(open) && rows == SummaryRows(t, order, i, queues)
        invariant lastInventory == if AllCurrent(t, order, i, queues) then old(lastInventory) else NegInf
      {
        var fd := order[i];
        var row := LiveRow(fd, t.summary(fd));
        if row.None? || Identity(row.value.s) != Identity(queues[fd].snapshot) {
          lastInventory := NegInf;
        } else {
          rows := rows + [(fd, row.value)];
        }
      }
      lastSummary := At(t.now);
    }

    /** The rest of a tick after discovery: the batch, the summary, and the check of the log. */
    method Work(t: Tick)
      requires Valid() && !stopped && Sane(t) && clock == t.now
      modifies this`queues, this`budgets, this`lastInventory, this`lastSummary, this`open, this`writes, this`logs,
               this`stopped, this`kicked
      ensures Valid() && SameLogs(logs, Extended(c, old(logs), Reading(t, order, old(logs)))) && open == old(open)
      ensures stopped == !t.logOk
      ensures ReadComplete(t, order, old(logs)) ==> AllPolledOnce(t, order, old(logs), logs)
      ensures var due := Elapsed(old(lastSummary), t.now, c.summaryInterval);
              && lastSummary == (if due then At(t.now) else old(lastSummary))
              && lastInventory == if Unsettles(c, t, order, old(logs)) || (due && !AllCurrent(t, order, |order|, queues))
                                  then NegInf else old(lastInventory)
    {
      ReadBatch(t);
      Finish(t);
    }

    /** The summary when it is due, and the check of the log. */
    method Finish(t: Tick)
      requires Valid() && !stopped
      modifies this`lastInventory, this`lastSummary, this`open, this`stopped
      ensures Valid() && open == old(open) && stopped == !t.logOk
      ensures var due := Elapsed(old(lastSummary), t.now, c.summaryInterval);
              && lastSummary == (if due then At(t.now) else old(lastSummary))
              && lastInventory == if due && !AllCurrent(t, order, |order|, queues) then NegInf else old(lastInventory)
    {
      if Elapsed(lastSummary, t.now, c.summaryInterval) {
        var _ := Summarise(t);
      }
      stopped := !t.logOk;
    }

    ghost function Shown(): View
      reads this
    {
      View(order, queues, lastInventory, lastSummary, logs)
    }

    /** A tick that is entered: discovery, then the rest. */
    method Attend(t: Tick)
      requires Valid() && !stopped && Sane(t) && clock == t.now && !Halts(t)
      modifies this
      ensures Valid() && open == old(open) && clock == t.now
      ensures if stopped then TickedLast(c, t, old(Shown()), Shown())
              else Ticked(c, t, old(Shown()), Shown()) && t.logOk
    {
      var ok := Discover(t);
      if ok {
        Work(t);
      } else {
        stopped := true;
      }
    }

    /** One iteration of the loop. Whatever the environment answers, every slot takes exactly the steps its
        log records, in the order inventory, then batch; no duplicate stays open; and whatever was found unavailable
        forces an inventory in the next tick. */
    method Iterate(t: Tick)
      requires Valid() && !stopped && Sane(t) && clock <= t.now
      modifies this
      ensures Valid() && open == old(open) && clock == t.now
      ensures if stopped then TickedLast(c, t, old(Shown()), Shown())
              else Ticked(c, t, old(Shown()), Shown()) && t.logOk
    {
      SoundLater(c, order, queues, budgets, logs, clock, kicked, writes, t.now);
      clock := t.now;
      if t.cancelled || t.alive != Some(true) || t.expired {
        stopped := true;
      } else {
        Attend(t);
      }
    }

    /** Tick `i` of a run, seen from the views up to it. */
    method IterateNext(ticks: seq<Tick>, i: nat, ghost views: seq<View>) returns (ghost next: seq<View>)
      requires Valid() && !stopped && i < |ticks| && Sane(ticks[i]) && clock <= ticks[i].now
      requires |views| == i + 1 && ViewedSoFar(c, ticks, views) && views[i] == Shown()
      modifies this
      ensures Valid() && open == old(open) && clock == ticks[i].now
      ensures |next| == i + 2 && next[0] == views[0] && next[i + 1] == Shown()
      ensures if stopped then Viewed(c, ticks, next, true) else ViewedSoFar(c, ticks, next)
    {
      Iterate(ticks[i]);
      ViewedNext(c, ticks, views, Shown(), stopped);
      next := views + [Shown()];
    }

    /** The iterations of a run. */
    method RunTicks(ticks: seq<Tick>) returns (ghost views: seq<View>)
      requires Valid() && !stopped
      requires forall i :: 0 <= i < |ticks| ==> Sane(ticks[i]) && clock <= ticks[i].now
      requires forall i, j :: 0 <= i < j < |ticks| ==> ticks[i].now <= ticks[j].now
      modifies this
      ensures Valid() && open == old(open) && (stopped || ticks == [] || clock == ticks[|ticks| - 1].now)
      ensures Viewed(c, ticks, views, stopped) && views[0] == old(Shown()) && views[|views| - 1] == Shown()
    {
      var i := 0;
      views := [Shown()];
      while i < |ticks|
        invariant 0 <= i <= |ticks| && Valid() && !stopped && open == old(open)
        invariant (i < |ticks| ==> clock <= ticks[i].now) && (i > 0 ==> clock == ticks[i - 1].now)
        invariant |views| == i + 1 && ViewedSoFar(c, ticks, views)
        invariant views[0] == old(Shown()) && views[i] == Shown()
      {
        views := IterateNext(ticks, i, views);
        i := i + 1;
        if stopped {
          return;
        }
      }
    }

    /** Any number of iterations, over any environment and nondecreasing time: every tick is a whole one, up to one
        that ends the run. */
    method Run(ticks: seq<Tick>) returns (ghost views: seq<View>)
      requires Valid() && !stopped
      requires forall i :: 0 <= i < |ticks| ==> Sane(ticks[i]) && clock <= ticks[i].now
      requires forall i, j :: 0 <= i < j < |ticks| ==> ticks[i].now <= ticks[j].now
      modifies this
      ensures Valid() && open == old(open) && (stopped || ticks == [] || clock == ticks[|ticks| - 1].now)
      ensures Viewed(c, ticks, views, stopped) && views[0] == old(Shown()) && views[|views| - 1] == Shown()
      ensures writes == |kicked| && forall fd: int :: TimesOf(kicked, fd) == KickTimes(logs(fd), |logs(fd)|)
      ensures forall fd: int :: WithinLimits(KickTimes(logs(fd), |logs(fd)|), c.limits)
      ensures forall fd: int, j: nat :: j < |logs(fd)| && logs(fd)[j].emitted.kick ==>
                exists a: nat, i: nat :: a <= i < j && HeldFrom(logs(fd), i, j) && Justified(c, logs(fd), a, i, j)
    {
      views := RunTicks(ticks);
      forall fd: int
        ensures WithinLimits(KickTimes(logs(fd), |logs(fd)|), c.limits)
        ensures TimesOf(kicked, fd) == KickTimes(logs(fd), |logs(fd)|)
        ensures forall j: nat :: j < |logs(fd)| && logs(fd)[j].emitted.kick ==>
                  exists a: nat, i: nat :: a <= i < j && HeldFrom(logs(fd), i, j) && Justified(c, logs(fd), a, i, j)
      {
        Guarantees(fd);
      }
    }
  }
}
