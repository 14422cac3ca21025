/** How one tick of the batched loop (internal/watch/batched_linux.go) moves every FD slot at once. */
module BatchedRuns {
  import opened Words
  import opened Snapshots
  import opened Budgets
  import opened Policies
  import opened BatchedSlots
  import RingReads

  /** How a liveRow call ends. */
  datatype LiveReply = NoDuplicate | NoSnapshot | NoRing | Row(row: Live)

  function Available(l: LiveReply): Option<Live> {
    if l.Row? then Some(l.row) else None
  }

  /** Everything the environment answers during one tick. Rows and attempts are indexed by FD; `memory` is QEMU's and
      `moved` how much of it a vectored read moves. */
  datatype Tick = Tick(
    now: real, cancelled: bool, alive: Option<bool>, expired: bool,
    inventory: Option<seq<int>>, found: int -> LiveReply,
    memory: RingReads.Memory, moved: seq<RingReads.Iovec> -> Option<nat>,
    live: int -> LiveReply, attempt: int -> Attempt,
    summary: int -> LiveReply, logOk: bool)

  /** /proc lists each descriptor once; a vectored read moves mapped bytes only. */
  ghost predicate Sane(t: Tick) {
    && (t.inventory.Some? ==> Distinct(t.inventory.value))
    && (forall remote :: MovesMapped(t, remote))
  }

  ghost predicate MovesMapped(t: Tick, remote: seq<RingReads.Iovec>) {
    t.moved(remote).Some? ==> RingReads.Moves(t.memory, remote, t.moved(remote).value)
  }

  function Found(t: Tick, fd: int): Option<Snapshot> {
    if t.inventory.Some? && fd in t.inventory.value && t.found(fd).Row? then Some(t.found(fd).row.s) else None
  }

  /** The queue object that represents FD `fd` after an inventory. */
  function Occupant(was: map<int, Queue>, fd: int, s: Snapshot): Queue {
    if fd in was && Identity(was[fd].snapshot) == Identity(s) then was[fd].(snapshot := s) else NewQueue(s)
  }

  ghost function SlotIn(queues: map<int, Queue>, budgets: map<int, Budget>, fd: int): Slot {
    Slot(if fd in queues then Some(queues[fd]) else None, if fd in budgets then Some(budgets[fd]) else None)
  }

  /** The queue list, the objects and the budgets fit together. */
  ghost predicate Shaped(order: seq<int>, queues: map<int, Queue>, budgets: map<int, Budget>) {
    && Distinct(order)
    && (forall k :: 0 <= k < |order| ==> order[k] in queues && order[k] in budgets)
    && |queues.Keys| == |order|
  }

  type Logs = int -> seq<Turn>

  /** The log of every slot is a run that leads to the slot's state. */
  ghost predicate Follows(c: Policy, queues: map<int, Queue>, budgets: map<int, Budget>, logs: Logs) {
    forall fd: int :: Faithful(c, queues, budgets, logs, fd)
  }

  ghost predicate Faithful(c: Policy, queues: map<int, Queue>, budgets: map<int, Budget>, logs: Logs, fd: int) {
    IsRun(c, logs(fd)) && SlotIn(queues, budgets, fd) == Reached(logs(fd))
  }

  /** The logs end no later than the clock. */
  ghost predicate Timely(logs: Logs, clock: real) {
    forall fd: int :: EndsBy(logs, clock, fd)
  }

  ghost predicate EndsBy(logs: Logs, clock: real, fd: int) {
    logs(fd) == [] || logs(fd)[|logs(fd)| - 1].input.now <= clock
  }

  /** Batch slot i belongs to queue i. */
  ghost predicate Aligned(batch: Option<seq<Snapshot>>, order: seq<int>, queues: map<int, Queue>) {
    if batch.None? then order == []
    else
      && |batch.value| == |order| > 0 && Batchable(batch.value)
      && forall i :: 0 <= i < |order| ==> order[i] in queues && batch.value[i] == queues[order[i]].snapshot
  }

  /** The inputs that one phase of a tick brings, FD by FD. */
  type Phase = int -> Option<Input>

  ghost function Extended(c: Policy, logs: Logs, phase: Phase): Logs {
    fd => if phase(fd).None? then logs(fd) else logs(fd) + [Taken(c, Reached(logs(fd)), phase(fd).value)]
  }

  /** The slot took the step that `phase` records for it, at `now`. */
  ghost predicate Stepped(c: Policy, logs: Logs, phase: Phase, queues: map<int, Queue>, budgets: map<int, Budget>,
                          now: real, fd: int) {
    && (phase(fd).Some? ==> phase(fd).value.now == now)
    && SlotIn(queues, budgets, fd) == Reached(Extended(c, logs, phase)(fd))
  }

  lemma StepsFollow(c: Policy, logs: Logs, phase: Phase, queues0: map<int, Queue>, budgets0: map<int, Budget>,
                    queues: map<int, Queue>, budgets: map<int, Budget>, clock: real)
    requires Follows(c, queues0, budgets0, logs) && Timely(logs, clock)
    requires forall fd: int :: Stepped(c, logs, phase, queues, budgets, clock, fd)
    ensures Follows(c, queues, budgets, Extended(c, logs, phase)) && Timely(Extended(c, logs, phase), clock)
  {
    var logs' := Extended(c, logs, phase);
    forall fd: int ensures Faithful(c, queues, budgets, logs', fd) && EndsBy(logs', clock, fd) {
      assert Faithful(c, queues0, budgets0, logs, fd) && EndsBy(logs, clock, fd);
      assert Stepped(c, logs, phase, queues, budgets, clock, fd);
      if phase(fd).Some? {
        RunGrows(c, logs(fd), phase(fd).value);
      }
    }
  }

  lemma TimelyLater(logs: Logs, clock: real, later: real)
    requires Timely(logs, clock) && clock <= later
    ensures Timely(logs, later)
  {
    forall fd: int ensures EndsBy(logs, later, fd) {
      assert EndsBy(logs, clock, fd);
    }
  }

  ghost function Discovery(t: Tick): Phase {
    fd => Some(Inventory(t.now, Found(t, fd)))
  }

  ghost function Failure(t: Tick, order: seq<int>): Phase {
    fd => if fd in order then Some(BatchFailed(t.now)) else None
  }

  /** The ring words of a queue in QEMU's memory. */
  function WordsOf(t: Tick, s: Snapshot): (u16, u16) {
    if RingReads.Mapped(t.memory, s) then RingReads.RingWords(t.memory, s) else (0, 0)
  }

  /** What the queue that caches snapshot `s` is polled with: the words of its own rings. */
  function PollOf(t: Tick, fd: int, s: Snapshot): (r: Input)
    ensures r.Polled?
  {
    Polled(t.now, WordsOf(t, s).0, WordsOf(t, s).1, Available(t.live(fd)), t.attempt(fd))
  }

  ghost function CacheOf(tr: seq<Turn>): Snapshot {
    if Cached(tr, |tr|).Some? then Cached(tr, |tr|).value else ZERO
  }

  ghost function Caches(order: seq<int>, logs: Logs): seq<Snapshot> {
    seq(|order|, k requires 0 <= k < |order| => CacheOf(logs(order[k])))
  }

  ghost function Polling(t: Tick, order: seq<int>, logs: Logs): Phase {
    fd => if fd in order then Some(PollOf(t, fd, CacheOf(logs(fd)))) else None
  }

  /** The vectored read over the rings of the listed queues moves every byte. */
  ghost predicate ReadComplete(t: Tick, order: seq<int>, logs: Logs) {
    t.moved(RingReads.BatchVector(Caches(order, logs))) == Some(4 * |order|)
  }

  /** The batch is over the queues' cached snapshots. */
  lemma BatchIsCached(c: Policy, batch: seq<Snapshot>, order: seq<int>, queues: map<int, Queue>, budgets: map<int, Budget>,
                      logs: Logs)
    requires Follows(c, queues, budgets, logs) && Aligned(Some(batch), order, queues)
    ensures batch == Caches(order, logs)
  {
    forall k | 0 <= k < |order| ensures batch[k] == CacheOf(logs(order[k])) {
      assert Faithful(c, queues, budgets, logs, order[k]);
      CacheFollows(c, logs(order[k]), |logs(order[k])|);
    }
  }

  predicate Halts(t: Tick) {
    t.cancelled || t.alive != Some(true) || t.expired
  }

  /** The listed queues need no batch or can be batched: NewRingBatch refuses more than 512 queues and any
      invalid snapshot. */
  predicate Pollable(order: seq<int>, queues: map<int, Queue>) {
    && |order| <= BATCH_LIMIT
    && forall k :: 0 <= k < |order| ==> order[k] in queues && Validate(queues[order[k]].snapshot).Valid?
  }

  /** The summary reads the first `n` queues, and each still has its cached attachment. */
  predicate AllCurrent(t: Tick, order: seq<int>, n: nat, queues: map<int, Queue>)
    requires n <= |order|
  {
    forall k :: 0 <= k < n ==> Current(t, order[k], queues)
  }

  /** The rows the summary logs: those of the queues that are still current, in order. */
  function SummaryRows(t: Tick, order: seq<int>, n: nat, queues: map<int, Queue>): seq<(int, Live)>
    requires n <= |order|
  {
    if n == 0 then []
    else if Current(t, order[n - 1], queues) then
      SummaryRows(t, order, n - 1, queues) + [(order[n - 1], t.summary(order[n - 1]).row)]
    else SummaryRows(t, order, n - 1, queues)
  }

  predicate Current(t: Tick, fd: int, queues: map<int, Queue>) {
    fd in queues && t.summary(fd).Row? && Identity(t.summary(fd).row.s) == Identity(queues[fd].snapshot)
  }

  /** The second phase of a tick: the batch over the current queue list. */
  ghost function Reading(t: Tick, order: seq<int>, logs: Logs): Phase {
    if ReadComplete(t, order, logs) then Polling(t, order, logs) else Failure(t, order)
  }

  /** With no queues there is no batch and nothing to log. */
  lemma NothingRead(c: Policy, t: Tick, logs: Logs)
    ensures SameLogs(Extended(c, logs, Reading(t, [], logs)), logs)
  {
    forall fd: int ensures AgreeOn(Extended(c, logs, Reading(t, [], logs)), logs, fd) {
    }
  }

  ghost predicate SameLogs(a: Logs, b: Logs) {
    forall fd: int :: AgreeOn(a, b, fd)
  }

  ghost predicate AgreeOn(a: Logs, b: Logs, fd: int) {
    a(fd) == b(fd)
  }

  // ----- The kicks of all slots

  /** `kicks` lists the kicks of all logs, each once. */
  ghost predicate Lists(kicks: seq<(int, real)>, logs: Logs) {
    forall fd: int :: Tallies(kicks, logs, fd)
  }

  ghost predicate Tallies(kicks: seq<(int, real)>, logs: Logs, fd: int) {
    TimesOf(kicks, fd) == KickTimes(logs(fd), |logs(fd)|)
  }

  /** The loop's whole state, its logs and its count of writes fit together. */
  ghost predicate Sound(c: Policy, order: seq<int>, queues: map<int, Queue>, budgets: map<int, Budget>,
                        logs: Logs, clock: real, kicked: seq<(int, real)>, writes: nat) {
    && Shaped(order, queues, budgets) && Follows(c, queues, budgets, logs) && Timely(logs, clock)
    && Lists(kicked, logs) && writes == |kicked|
  }

  lemma {:induction false} KickTimesPrefix(tr: seq<Turn>, t: Turn, n: nat)
    requires n <= |tr|
    ensures KickTimes(tr + [t], n) == KickTimes(tr, n)
  {
    if n > 0 {
      KickTimesPrefix(tr, t, n - 1);
    }
  }

  /** What one more turn adds. */
  lemma KickTimesGrow(tr: seq<Turn>, t: Turn)
    ensures KickTimes(tr + [t], |tr| + 1) == KickTimes(tr, |tr|) + if t.emitted.kick then [t.input.now] else []
  {
    KickTimesPrefix(tr, t, |tr|);
  }

  /** Inventories and failed reads kick nothing. */
  lemma NoKicks(c: Policy, kicks: seq<(int, real)>, logs: Logs, phase: Phase)
    requires Lists(kicks, logs) && forall fd: int :: phase(fd).Some? ==> !phase(fd).value.Polled?
    ensures Lists(kicks, Extended(c, logs, phase))
  {
    var logs' := Extended(c, logs, phase);
    forall fd: int ensures Tallies(kicks, logs', fd) {
      assert Tallies(kicks, logs, fd);
      if phase(fd).Some? {
        NoKick(c, logs(fd), phase(fd).value);
      }
    }
  }

  lemma NoKick(c: Policy, tr: seq<Turn>, i: Input)
    requires !i.Polled?
    ensures KickTimes(tr + [Taken(c, Reached(tr), i)], |tr| + 1) == KickTimes(tr, |tr|)
  {
    KickTimesGrow(tr, Taken(c, Reached(tr), i));
  }

  // ----- Polling one queue after another

  ghost function Pushed(logs: Logs, fd: int, turn: Turn): Logs {
    x => if x == fd then logs(x) + [turn] else logs(x)
  }

  ghost function Noted(kicked: seq<(int, real)>, fd: int, turn: Turn): seq<(int, real)> {
    if turn.emitted.kick then kicked + [(fd, turn.input.now)] else kicked
  }

  /** Polling one queue takes one step of its slot and of no other. */
  lemma PollFollows(c: Policy, queues: map<int, Queue>, budgets: map<int, Budget>, logs: Logs, clock: real,
                    fd: int, i: Input)
    requires Follows(c, queues, budgets, logs) && Timely(logs, clock) && i.Polled? && i.now == clock
    requires fd in queues && fd in budgets
    ensures var turn, o := Taken(c, Reached(logs(fd)), i), Poll(c, queues[fd], budgets[fd], i);
            && turn.emitted == o.emitted && turn.input == i
            && Follows(c, queues[fd := o.queue], budgets[fd := o.budget], Pushed(logs, fd, turn))
            && Timely(Pushed(logs, fd, turn), clock)
  {
    var turn, o := Taken(c, Reached(logs(fd)), i), Poll(c, queues[fd], budgets[fd], i);
    var queues', budgets', logs' := queues[fd := o.queue], budgets[fd := o.budget], Pushed(logs, fd, turn);
    assert Faithful(c, queues, budgets, logs, fd);
    forall x: int ensures Faithful(c, queues', budgets', logs', x) {
      assert Faithful(c, queues, budgets, logs, x) && EndsBy(logs, clock, x);
      if x == fd {
        RunGrows(c, logs(x), i);
      }
    }
    forall x: int ensures EndsBy(logs', clock, x) {
      assert EndsBy(logs, clock, x);
    }
  }

  lemma PollLists(kicked: seq<(int, real)>, logs: Logs, fd: int, turn: Turn)
    requires Lists(kicked, logs)
    ensures Lists(Noted(kicked, fd, turn), Pushed(logs, fd, turn))
  {
    var logs' := Pushed(logs, fd, turn);
    forall x: int ensures Tallies(Noted(kicked, fd, turn), logs', x) {
      assert Tallies(kicked, logs, x);
      if turn.emitted.kick {
        TimesGrow(kicked, fd, turn.input.now, x);
      }
      if x == fd {
        KickTimesGrow(logs(x), turn);
      }
    }
  }

  lemma PollKeepsSnapshot(c: Policy, q: Queue, b: Budget, i: Input)
    requires i.Polled?
    ensures Poll(c, q, b, i).queue.snapshot == q.snapshot
  {
  }

  lemma PollSound(c: Policy, order: seq<int>, queues: map<int, Queue>, budgets: map<int, Budget>, logs: Logs, clock: real,
                  kicked: seq<(int, real)>, writes: nat, batch: Option<seq<Snapshot>>, fd: int, i: Input)
    requires Sound(c, order, queues, budgets, logs, clock, kicked, writes) && Aligned(batch, order, queues)
    requires i.Polled? && i.now == clock && fd in queues && fd in budgets
    ensures var turn, o := Taken(c, Reached(logs(fd)), i), Poll(c, queues[fd], budgets[fd], i);
            var queues' := queues[fd := o.queue];
            && turn.emitted == o.emitted && turn.input == i
            && Sound(c, order, queues', budgets[fd := o.budget], Pushed(logs, fd, turn), clock,
                     Noted(kicked, fd, turn), writes + if o.emitted.kick then 1 else 0)
            && Aligned(batch, order, queues')
  {
    PollFollows(c, queues, budgets, logs, clock, fd, i);
    PollLists(kicked, logs, fd, Taken(c, Reached(logs(fd)), i));
    PollKeepsSnapshot(c, queues[fd], budgets[fd], i);
  }

  /** The turn that queue `k` of the list takes when it is polled. */
  ghost function TurnOf(c: Policy, t: Tick, order: seq<int>, k: nat, was: Logs): Turn
    requires k < |order|
  {
    Taken(c, Reached(was(order[k])), PollOf(t, order[k], CacheOf(was(order[k]))))
  }

  /** The logs have grown by the polls of the first `n` queues of the list, and by nothing else. */
  ghost predicate PolledUpTo(c: Policy, t: Tick, order: seq<int>, n: nat, was: Logs, logs: Logs) {
    && n <= |order|
    && (forall k: nat :: k < n ==> logs(order[k]) == was(order[k]) + [TurnOf(c, t, order, k, was)])
    && (forall fd: int :: fd !in order[..n] ==> logs(fd) == was(fd))
  }

  lemma PolledOneMore(c: Policy, t: Tick, order: seq<int>, n: nat, was: Logs, logs: Logs)
    requires Distinct(order) && n < |order| && PolledUpTo(c, t, order, n, was, logs)
    ensures logs(order[n]) == was(order[n])
    ensures PolledUpTo(c, t, order, n + 1, was, Pushed(logs, order[n], TurnOf(c, t, order, n, was)))
  {
    assert order[n] !in order[..n];
    assert order[..n + 1] == order[..n] + [order[n]];
    var logs' := Pushed(logs, order[n], TurnOf(c, t, order, n, was));
    forall k: nat | k < n + 1 ensures logs'(order[k]) == was(order[k]) + [TurnOf(c, t, order, k, was)] {
      assert k == n || order[k] != order[n];
    }
    forall fd: int | fd !in order[..n + 1] ensures logs'(fd) == was(fd) {
      assert order[n] in order[..n + 1] && fd !in order[..n];
    }
  }

  /** Every queue polled is the whole polling phase. */
  lemma AllPolled(c: Policy, t: Tick, order: seq<int>, was: Logs, logs: Logs)
    requires Distinct(order) && PolledUpTo(c, t, order, |order|, was, logs)
    ensures SameLogs(logs, Extended(c, was, Polling(t, order, was)))
  {
    assert order[..|order|] == order;
    forall fd: int ensures AgreeOn(logs, Extended(c, was, Polling(t, order, was)), fd) {
      if fd in order {
        var k: nat :| k < |order| && order[k] == fd;
        assert logs(order[k]) == was(order[k]) + [TurnOf(c, t, order, k, was)];
      }
    }
  }

  /** One of the first `n` polls of the tick reports its queue unavailable. */
  ghost predicate Disturbed(c: Policy, t: Tick, order: seq<int>, n: nat, was: Logs)
    requires n <= |order|
  {
    exists k: nat :: k < n && UnavailableAt(c, t, order, k, was)
  }

  ghost predicate UnavailableAt(c: Policy, t: Tick, order: seq<int>, k: nat, was: Logs)
    requires k < |order|
  {
    TurnOf(c, t, order, k, was).emitted.unavailable
  }

  lemma DisturbedNext(c: Policy, t: Tick, order: seq<int>, n: nat, was: Logs)
    requires n < |order|
    ensures Disturbed(c, t, order, n + 1, was) <==> Disturbed(c, t, order, n, was) || UnavailableAt(c, t, order, n, was)
  {
  }

  /** The batch phase forces a new inventory: its read fails, or a polled queue is unavailable. */
  ghost predicate Unsettles(c: Policy, t: Tick, order: seq<int>, was: Logs) {
    order != [] && (!ReadComplete(t, order, was) || Disturbed(c, t, order, |order|, was))
  }

  // ----- Ticks

  /** What a run shows of the loop between two ticks. */
  datatype View = View(order: seq<int>, queues: map<int, Queue>, lastInventory: Stamp, lastSummary: Stamp, logs: Logs)

  /** FD `fd` was polled once since `was`, at the time of the tick, with the ring indices that its cached snapshot points
      to in QEMU's memory, and with the environment's answers for this FD. */
  ghost predicate PolledOnce(t: Tick, fd: int, was: Logs, logs: Logs) {
    && |logs(fd)| == |was(fd)| + 1 && was(fd) == logs(fd)[..|was(fd)|] && Cached(was(fd), |was(fd)|).Some?
    && var i, s := logs(fd)[|was(fd)|].input, Cached(was(fd), |was(fd)|).value;
       && i.Polled? && i.now == t.now && i.attempt == t.attempt(fd)
       && i.live == (match t.live(fd) case Row(row) => Some(row) case _ => None)
       && RingReads.Mapped(t.memory, s) && (i.avail, i.used) == RingReads.RingWords(t.memory, s)
  }

  ghost predicate AllPolledOnce(t: Tick, order: seq<int>, was: Logs, logs: Logs) {
    forall k :: 0 <= k < |order| ==> PolledOnce(t, order[k], was, logs)
  }

  lemma WordsReach(c: Policy, t: Tick, order: seq<int>, was: Logs, logs: Logs, fd: int)
    requires SameLogs(logs, Extended(c, was, Polling(t, order, was))) && fd in order
    requires Cached(was(fd), |was(fd)|).Some? && RingReads.Mapped(t.memory, CacheOf(was(fd)))
    ensures PolledOnce(t, fd, was, logs)
  {
    assert AgreeOn(logs, Extended(c, was, Polling(t, order, was)), fd);
    InputIsKept(c, Reached(was(fd)), PollOf(t, fd, CacheOf(was(fd))));
  }

  lemma InputIsKept(c: Policy, slot: Slot, i: Input)
    ensures Taken(c, slot, i).input == i
  {
  }

  /** Word pair `k` is that of queue `k`. */
  ghost predicate Worded(t: Tick, order: seq<int>, was: Logs, words: seq<(u16, u16)>)
    requires |words| == |order|
  {
    forall k :: 0 <= k < |order| ==> words[k] == WordsOf(t, CacheOf(was(order[k])))
  }

  /** Every listed queue has a cached snapshot whose rings are mapped. */
  ghost predicate AllMapped(t: Tick, order: seq<int>, was: Logs) {
    forall k :: 0 <= k < |order| ==>
      Cached(was(order[k]), |was(order[k])|).Some? && RingReads.Mapped(t.memory, CacheOf(was(order[k])))
  }

  lemma WordsAreOwn(c: Policy, t: Tick, batch: seq<Snapshot>, order: seq<int>, queues: map<int, Queue>,
                    budgets: map<int, Budget>, logs: Logs, words: seq<(u16, u16)>)
    requires Follows(c, queues, budgets, logs) && Aligned(Some(batch), order, queues) && |words| == |order|
    requires forall k :: 0 <= k < |batch| ==>
               RingReads.Mapped(t.memory, batch[k]) && words[k] == RingReads.RingWords(t.memory, batch[k])
    ensures Worded(t, order, logs, words) && AllMapped(t, order, logs)
  {
    BatchIsCached(c, batch, order, queues, budgets, logs);
    forall k | 0 <= k < |order|
      ensures words[k] == WordsOf(t, CacheOf(logs(order[k])))
      ensures Cached(logs(order[k]), |logs(order[k])|).Some? && RingReads.Mapped(t.memory, CacheOf(logs(order[k])))
    {
      assert batch[k] == Caches(order, logs)[k];
      assert Faithful(c, queues, budgets, logs, order[k]);
      CacheFollows(c, logs(order[k]), |logs(order[k])|);
    }
  }

  /** A complete read shows every listed queue its own words. */
  lemma WordsWereOwn(c: Policy, t: Tick, order: seq<int>, was: Logs, logs: Logs)
    requires SameLogs(logs, Extended(c, was, Polling(t, order, was))) && AllMapped(t, order, was)
    ensures AllPolledOnce(t, order, was, logs)
  {
    forall k | 0 <= k < |order| ensures PolledOnce(t, order[k], was, logs) {
      WordsReach(c, t, order, was, logs, order[k]);
    }
  }

  ghost function Discovered(c: Policy, t: Tick, v: View): Logs {
    if Elapsed(v.lastInventory, t.now, c.inventoryInterval) then Extended(c, v.logs, Discovery(t)) else v.logs
  }

  /** One whole tick: the inventory when it is due, with its answering FDs as the new list; then the batch over that
      list; then the summary when it is due. Whatever is found unavailable or stale forces an inventory in the next
      tick; otherwise an inventory taken now is stamped with its time. */
  ghost predicate Ticked(c: Policy, t: Tick, v: View, v': View) {
    var due := Elapsed(v.lastInventory, t.now, c.inventoryInterval);
    var summary := Elapsed(v.lastSummary, t.now, c.summaryInterval);
    && !Halts(t)
    && (if due then t.inventory.Some? && v'.order == Answering(t, t.inventory.value) else v'.order == v.order)
    && SameLogs(v'.logs, Extended(c, Discovered(c, t, v), Reading(t, v'.order, Discovered(c, t, v))))
    && (ReadComplete(t, v'.order, Discovered(c, t, v)) ==> AllPolledOnce(t, v'.order, Discovered(c, t, v), v'.logs))
    && v'.lastSummary == (if summary then At(t.now) else v.lastSummary)
    && v'.lastInventory ==
       (if Unsettles(c, t, v'.order, Discovered(c, t, v))
           || (summary && !AllCurrent(t, v'.order, |v'.order|, v'.queues)) then NegInf
        else if due then At(t.now) else v.lastInventory)
  }

  /** The tick that ends a run: it is not entered, its inventory fails or cannot be batched, or its log breaks. */
  ghost predicate TickedLast(c: Policy, t: Tick, v: View, v': View) {
    var due := Elapsed(v.lastInventory, t.now, c.inventoryInterval);
    || ((Halts(t) || (due && t.inventory.None?)) && v'.logs == v.logs && v'.order == v.order)
    || (due && t.inventory.Some? && v'.order == Answering(t, t.inventory.value) && !Pollable(v'.order, v'.queues)
        && v'.logs == Discovered(c, t, v))
    || (Ticked(c, t, v, v') && !t.logOk)
  }

  /** The ticks so far were whole ones. */
  ghost predicate ViewedSoFar(c: Policy, ticks: seq<Tick>, views: seq<View>) {
    && 0 < |views| <= |ticks| + 1
    && forall i: nat :: i < |views| - 1 ==> ViewedAt(c, ticks, views, i)
  }

  ghost predicate ViewedAt(c: Policy, ticks: seq<Tick>, views: seq<View>, i: nat)
    requires i + 1 < |views| <= |ticks| + 1
  {
    Ticked(c, ticks[i], views[i], views[i + 1])
  }

  /** The views of a run: whole ticks, and perhaps a last one that ended it. */
  ghost predicate Viewed(c: Policy, ticks: seq<Tick>, views: seq<View>, stopped: bool) {
    if stopped then
      && 1 < |views| <= |ticks| + 1 && ViewedSoFar(c, ticks, views[..|views| - 1])
      && TickedLast(c, ticks[|views| - 2], views[|views| - 2], views[|views| - 1])
    else |views| == |ticks| + 1 && ViewedSoFar(c, ticks, views)
  }

  lemma ViewedNext(c: Policy, ticks: seq<Tick>, views: seq<View>, v: View, stopped: bool)
    requires ViewedSoFar(c, ticks, views) && |views| <= |ticks|
    requires var t, last := ticks[|views| - 1], views[|views| - 1];
             if stopped then TickedLast(c, t, last, v) else Ticked(c, t, last, v)
    ensures if stopped then Viewed(c, ticks, views + [v], true) else ViewedSoFar(c, ticks, views + [v])
  {
    var views' := views + [v];
    if stopped {
      assert views'[..|views|] == views;
    } else {
      forall i: nat | i < |views| ensures ViewedAt(c, ticks, views', i) {
        if i + 1 < |views| {
          assert ViewedAt(c, ticks, views, i);
        }
      }
    }
  }

  // ----- Each phase keeps everything together

  lemma DiscoverySound(c: Policy, t: Tick, order: seq<int>, queues: map<int, Queue>, budgets: map<int, Budget>,
                       logs: Logs, kicked: seq<(int, real)>, writes: nat,
                       listed: seq<int>, found: map<int, Queue>, snapshots: seq<Snapshot>, spent: map<int, Budget>)
    requires Sound(c, order, queues, budgets, logs, t.now, kicked, writes) && t.inventory.Some?
    requires Relisted(t.inventory.value, t, queues, budgets, listed, found, snapshots, spent)
    ensures Sound(c, listed, found, spent, Extended(c, logs, Discovery(t)), t.now, kicked, writes)
    ensures Pictured(listed, found, snapshots) && listed == Answering(t, t.inventory.value)
  {
    ListingSteps(c, t, logs, queues, budgets, listed, found, snapshots, spent);
    ListingShaped(t.inventory.value, t, queues, budgets, listed, found, snapshots, spent);
    NoKicks(c, kicked, logs, Discovery(t));
  }

  /** The first `n` queues of the list are restarted, the others untouched. */
  ghost predicate FailedUpTo(order: seq<int>, n: nat, queues: map<int, Queue>, failed: map<int, Queue>, now: real) {
    && n <= |order| && failed.Keys == queues.Keys
    && (forall k :: 0 <= k < |order| ==> order[k] in queues)
    && (forall k :: 0 <= k < |order| ==>
          failed[order[k]] == if k < n then Abandoned(queues[order[k]], now) else queues[order[k]])
  }

  lemma FailureSound(c: Policy, t: Tick, order: seq<int>, queues: map<int, Queue>, budgets: map<int, Budget>,
                     logs: Logs, kicked: seq<(int, real)>, writes: nat, batch: Option<seq<Snapshot>>, failed: map<int, Queue>)
    requires Sound(c, order, queues, budgets, logs, t.now, kicked, writes) && Aligned(batch, order, queues)
    requires FailedUpTo(order, |order|, queues, failed, t.now)
    ensures Sound(c, order, failed, budgets, Extended(c, logs, Failure(t, order)), t.now, kicked, writes)
    ensures Aligned(batch, order, failed)
  {
    FailureSteps(c, t, logs, order, queues, budgets, failed);
    NoKicks(c, kicked, logs, Failure(t, order));
  }

  lemma SameLogsSound(c: Policy, queues: map<int, Queue>, budgets: map<int, Budget>,
                     logs: Logs, clock: real, kicked: seq<(int, real)>, writes: nat, logs': Logs, order: seq<int>)
    requires Sound(c, order, queues, budgets, logs, clock, kicked, writes) && SameLogs(logs', logs)
    ensures Sound(c, order, queues, budgets, logs', clock, kicked, writes)
  {
    forall fd: int
      ensures Faithful(c, queues, budgets, logs', fd) && EndsBy(logs', clock, fd) && Tallies(kicked, logs', fd)
    {
      assert Faithful(c, queues, budgets, logs, fd) && EndsBy(logs, clock, fd) && Tallies(kicked, logs, fd);
      assert AgreeOn(logs', logs, fd);
    }
  }

  lemma SoundLater(c: Policy, order: seq<int>, queues: map<int, Queue>, budgets: map<int, Budget>,
                   logs: Logs, clock: real, kicked: seq<(int, real)>, writes: nat, later: real)
    requires Sound(c, order, queues, budgets, logs, clock, kicked, writes) && clock <= later
    ensures Sound(c, order, queues, budgets, logs, later, kicked, writes)
  {
    TimelyLater(logs, clock, later);
  }

  // ----- Taking inventory

  lemma ListingSteps(c: Policy, t: Tick, logs: Logs, was: map<int, Queue>, budgets: map<int, Budget>,
                     listed: seq<int>, found: map<int, Queue>, snapshots: seq<Snapshot>, spent: map<int, Budget>)
    requires t.inventory.Some? && Follows(c, was, budgets, logs) && Timely(logs, t.now)
    requires Listing(t.inventory.value, t, was, listed, found, snapshots) && Spending(budgets, found, spent)
    ensures Follows(c, found, spent, Extended(c, logs, Discovery(t)))
    ensures Timely(Extended(c, logs, Discovery(t)), t.now)
  {
    forall fd: int ensures Stepped(c, logs, Discovery(t), found, spent, t.now, fd) {
      assert Faithful(c, was, budgets, logs, fd);
      ListingOne(c, t, logs, was, budgets, listed, found, snapshots, spent, fd);
    }
    StepsFollow(c, logs, Discovery(t), was, budgets, found, spent, t.now);
  }

  lemma ListingShaped(vhosts: seq<int>, t: Tick, was: map<int, Queue>, budgets: map<int, Budget>,
                      listed: seq<int>, found: map<int, Queue>, snapshots: seq<Snapshot>, spent: map<int, Budget>)
    requires Listing(vhosts, t, was, listed, found, snapshots) && Spending(budgets, found, spent)
    ensures Shaped(listed, found, spent) && Pictured(listed, found, snapshots)
  {
    DistinctSize(listed);
    forall x: int ensures x in Elements(listed) <==> x in found.Keys {
      assert FoundAt(vhosts, t, was, listed, found, x);
    }
    assert Elements(listed) == found.Keys;
    forall k | 0 <= k < |listed| ensures listed[k] in spent {
      assert SpentOn(budgets, found, spent, listed[k]);
    }
  }

  lemma ListingOne(c: Policy, t: Tick, logs: Logs, was: map<int, Queue>, budgets: map<int, Budget>,
                   listed: seq<int>, found: map<int, Queue>, snapshots: seq<Snapshot>, spent: map<int, Budget>, fd: int)
    requires t.inventory.Some? && IsRun(c, logs(fd)) && SlotIn(was, budgets, fd) == Reached(logs(fd))
    requires Listing(t.inventory.value, t, was, listed, found, snapshots)
    requires Spending(budgets, found, spent)
    ensures SlotIn(found, spent, fd) == Reached(Extended(c, logs, Discovery(t))(fd))
  {
    assert FoundAt(t.inventory.value, t, was, listed, found, fd) && SpentOn(budgets, found, spent, fd);
    assert Budgeted(Reached(logs(fd))) by {
      RunBudgeted(c, logs(fd));
    }
  }

  lemma RunBudgeted(c: Policy, tr: seq<Turn>)
    requires IsRun(c, tr)
    ensures Budgeted(Reached(tr))
  {
    if tr != [] {
      assert Legal(c, tr[|tr| - 1]);
    }
  }

  lemma FailureSteps(c: Policy, t: Tick, logs: Logs, order: seq<int>,
                     queues: map<int, Queue>, budgets: map<int, Budget>, failed: map<int, Queue>)
    requires Shaped(order, queues, budgets) && Follows(c, queues, budgets, logs) && Timely(logs, t.now)
    requires FailedUpTo(order, |order|, queues, failed, t.now)
    ensures Follows(c, failed, budgets, Extended(c, logs, Failure(t, order)))
    ensures Timely(Extended(c, logs, Failure(t, order)), t.now)
  {
    forall fd: int ensures Stepped(c, logs, Failure(t, order), failed, budgets, t.now, fd) {
      assert Faithful(c, queues, budgets, logs, fd);
      FailureOne(c, t, logs, order, queues, budgets, failed, fd);
    }
    StepsFollow(c, logs, Failure(t, order), queues, budgets, failed, budgets, t.now);
  }

  lemma FailureOne(c: Policy, t: Tick, logs: Logs, order: seq<int>,
                   queues: map<int, Queue>, budgets: map<int, Budget>, failed: map<int, Queue>, fd: int)
    requires Shaped(order, queues, budgets) && Faithful(c, queues, budgets, logs, fd)
    requires FailedUpTo(order, |order|, queues, failed, t.now)
    ensures SlotIn(failed, budgets, fd) == Reached(Extended(c, logs, Failure(t, order))(fd))
  {
    RunBudgeted(c, logs(fd));
    if fd in queues {
      Exhausted(order, queues.Keys, fd);
      var k :| 0 <= k < |order| && order[k] == fd;
      assert failed[order[k]] == Abandoned(queues[order[k]], t.now);
    }
  }

  /** Budgets survive; an FD found for the first time gets a fresh one. */
  ghost predicate Spending(budgets: map<int, Budget>, found: map<int, Queue>, spent: map<int, Budget>) {
    forall fd: int :: SpentOn(budgets, found, spent, fd)
  }

  ghost predicate SpentOn(budgets: map<int, Budget>, found: map<int, Queue>, spent: map<int, Budget>, fd: int) {
    && (fd in spent <==> fd in budgets || fd in found)
    && (fd in spent ==> spent[fd] == if fd in budgets then budgets[fd] else FRESH)
  }

  lemma SpendingGrows(budgets: map<int, Budget>, found: map<int, Queue>, spent: map<int, Budget>, fd: int, q: Queue)
    requires Spending(budgets, found, spent)
    ensures Spending(budgets, found[fd := q], if fd in spent then spent else spent[fd := FRESH])
  {
    var found', spent' := found[fd := q], if fd in spent then spent else spent[fd := FRESH];
    forall x: int ensures SpentOn(budgets, found', spent', x) {
      assert SpentOn(budgets, found, spent, x);
    }
  }

  /** The whole outcome of a walk. */
  ghost predicate Relisted(vhosts: seq<int>, t: Tick, was: map<int, Queue>, budgets: map<int, Budget>,
                           listed: seq<int>, found: map<int, Queue>, snapshots: seq<Snapshot>, spent: map<int, Budget>) {
    Listing(vhosts, t, was, listed, found, snapshots) && Spending(budgets, found, spent)
  }

  /** The snapshots of the listed queues, in the order of the list. */
  ghost predicate Pictured(order: seq<int>, queues: map<int, Queue>, snapshots: seq<Snapshot>) {
    && |snapshots| == |order|
    && forall k :: 0 <= k < |order| ==> order[k] in queues && snapshots[k] == queues[order[k]].snapshot
  }

  /** The FDs of `vhosts` that answer, in order. */
  function Answering(t: Tick, vhosts: seq<int>): seq<int> {
    if vhosts == [] then []
    else
      var n := |vhosts| - 1;
      if t.found(vhosts[n]).Row? then Answering(t, vhosts[..n]) + [vhosts[n]] else Answering(t, vhosts[..n])
  }

  lemma AnsweringGrows(t: Tick, vhosts: seq<int>, fd: int)
    ensures Answering(t, vhosts + [fd]) == if t.found(fd).Row? then Answering(t, vhosts) + [fd] else Answering(t, vhosts)
  {
    assert (vhosts + [fd])[..|vhosts|] == vhosts;
  }

  /** The outcome of walking `vhosts`: the answering FDs in order, with their queue objects and snapshots. */
  ghost predicate Listing(vhosts: seq<int>, t: Tick, was: map<int, Queue>,
                          listed: seq<int>, found: map<int, Queue>, snapshots: seq<Snapshot>) {
    && listed == Answering(t, vhosts) && Distinct(listed) && |snapshots| == |listed|
    && (forall k :: 0 <= k < |listed| ==> listed[k] in found && snapshots[k] == found[listed[k]].snapshot)
    && (forall fd: int :: FoundAt(vhosts, t, was, listed, found, fd))
  }

  ghost predicate FoundAt(vhosts: seq<int>, t: Tick, was: map<int, Queue>, listed: seq<int>, found: map<int, Queue>, fd: int) {
    && (fd in found <==> fd in listed)
    && (fd in found <==> fd in vhosts && t.found(fd).Row?)
    && (fd in found ==> found[fd] == Occupant(was, fd, t.found(fd).row.s))
  }

  lemma ListingGrows(vhosts: seq<int>, t: Tick, was: map<int, Queue>,
                     listed: seq<int>, found: map<int, Queue>, snapshots: seq<Snapshot>, fd: int)
    requires Listing(vhosts, t, was, listed, found, snapshots) && fd !in vhosts
    ensures if t.found(fd).Row? then
              var s := t.found(fd).row.s;
              Listing(vhosts + [fd], t, was, listed + [fd], found[fd := Occupant(was, fd, s)], snapshots + [s])
            else Listing(vhosts + [fd], t, was, listed, found, snapshots)
  {
    AnsweringGrows(t, vhosts, fd);
    assert FoundAt(vhosts, t, was, listed, found, fd);
    var row := t.found(fd).Row?;
    var listed' := if row then listed + [fd] else listed;
    var found' := if row then found[fd := Occupant(was, fd, t.found(fd).row.s)] else found;
    forall x: int ensures FoundAt(vhosts + [fd], t, was, listed', found', x) {
      assert FoundAt(vhosts, t, was, listed, found, x);
    }
  }
}
