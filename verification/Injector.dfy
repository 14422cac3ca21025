/** The bounded lost-wakeup injector (fault-injection/host/vhost_fault.c): the lock-free `gate` handler run by
    any number of concurrent calls, inside the lifecycle of the module that arms and removes it. */
module Injector {
  import opened Words

  const EPOLLIN: nat := 1

  datatype Config = Config(targetWait: u64, startsNS: u64, endsNS: u64, maxDrops: nat)

  /** One handler call: not yet past its filter, past the `matched` increment, holding a read of `dropped`, or
      done. A cleared call zeroed its poll key. */
  datatype CallPC = Entered(waiter: u64, now: u64) | Counted | Trying(count: nat) | Passed | Cleared | Ignored

  datatype Call = Call(pc: CallPC, key: u64)

  datatype Gate = Gate(matched: nat, dropped: nat, calls: seq<Call>)

  predicate Finished(pc: CallPC) {
    pc.Passed? || pc.Cleared? || pc.Ignored?
  }

  predicate Quiescent(g: Gate) {
    forall i :: 0 <= i < |g.calls| ==> Finished(g.calls[i].pc)
  }

  predicate Selected(c: Config, waiter: u64, key: u64, now: u64) {
    waiter == c.targetWait && And(key, EPOLLIN) != 0 && c.startsNS <= now < c.endsNS
  }

  /** One atomic action of call `i`: the filter with the increment of `matched`, the read of `dropped`, or one
      compare-and-swap (the loop test before it is local). */
  function Acted(c: Config, g: Gate, i: nat): Gate
    requires i < |g.calls|
  {
    var call := g.calls[i];
    match call.pc
    case Entered(waiter, now) =>
      if Selected(c, waiter, call.key, now) then
        g.(matched := g.matched + 1, calls := g.calls[i := call.(pc := Counted)])
      else
        g.(calls := g.calls[i := call.(pc := Ignored)])
    case Counted => g.(calls := g.calls[i := call.(pc := Trying(g.dropped))])
    case Trying(count) =>
      if count >= c.maxDrops then
        g.(calls := g.calls[i := call.(pc := Passed)])
      else if g.dropped == count then
        g.(dropped := count + 1, calls := g.calls[i := Call(Cleared, 0)])
      else
        g.(calls := g.calls[i := call.(pc := Trying(g.dropped))])
    case _ => g
  }

  // ----- The counters

  predicate IsCleared(pc: CallPC) {
    pc.Cleared?
  }

  predicate IsMatched(pc: CallPC) {
    pc.Counted? || pc.Trying? || pc.Passed? || pc.Cleared?
  }

  function CountCleared(calls: seq<Call>): nat {
    if calls == [] then 0
    else CountCleared(calls[..|calls| - 1]) + if IsCleared(calls[|calls| - 1].pc) then 1 else 0
  }

  function CountMatched(calls: seq<Call>): nat {
    if calls == [] then 0
    else CountMatched(calls[..|calls| - 1]) + if IsMatched(calls[|calls| - 1].pc) then 1 else 0
  }

  lemma {:induction false} CountsUpdate(calls: seq<Call>, i: nat, call: Call)
    requires i < |calls|
    ensures CountCleared(calls[i := call]) ==
            CountCleared(calls) + (if IsCleared(call.pc) then 1 else 0) - (if IsCleared(calls[i].pc) then 1 else 0)
    ensures CountMatched(calls[i := call]) ==
            CountMatched(calls) + (if IsMatched(call.pc) then 1 else 0) - (if IsMatched(calls[i].pc) then 1 else 0)
  {
    var n := |calls| - 1;
    if i == n {
      assert calls[i := call][..n] == calls[..n];
    } else {
      CountsUpdate(calls[..n], i, call);
      assert calls[i := call][..n] == calls[..n][i := call];
    }
  }

  lemma {:induction false} CountsCompare(calls: seq<Call>)
    ensures CountCleared(calls) <= CountMatched(calls)
    ensures (forall i :: 0 <= i < |calls| ==> IsMatched(calls[i].pc) ==> IsCleared(calls[i].pc)) ==>
              CountCleared(calls) == CountMatched(calls)
  {
    if calls != [] {
      CountsCompare(calls[..|calls| - 1]);
    }
  }

  /** `dropped` counts the cleared calls and never passes the limit; a call holds only counts that `dropped` has
      had; a call passes only once the limit is reached. */
  predicate GateInv(c: Config, g: Gate) {
    && g.dropped == CountCleared(g.calls)
    && g.matched == CountMatched(g.calls)
    && g.dropped <= c.maxDrops
    && (forall i :: 0 <= i < |g.calls| && g.calls[i].pc.Trying? ==> g.calls[i].pc.count <= g.dropped)
    && (forall i :: 0 <= i < |g.calls| && g.calls[i].pc.Passed? ==> g.dropped == c.maxDrops)
    && (forall i :: 0 <= i < |g.calls| && g.calls[i].pc.Cleared? ==> g.calls[i].key == 0)
  }

  lemma ActedKeepsInv(c: Config, g: Gate, i: nat)
    requires GateInv(c, g) && i < |g.calls|
    ensures GateInv(c, Acted(c, g, i))
  {
    var g' := Acted(c, g, i);
    if g'.calls != g.calls {
      CountsUpdate(g.calls, i, g'.calls[i]);
      assert g'.calls == g.calls[i := g'.calls[i]];
    }
  }

  /** A failed compare-and-swap strictly raises the local count: the call saw another one succeed. */
  lemma RetryRaisesCount(c: Config, g: Gate, i: nat)
    requires GateInv(c, g) && i < |g.calls| && g.calls[i].pc.Trying?
    requires Acted(c, g, i).calls[i].pc.Trying?
    ensures g.calls[i].pc.count < Acted(c, g, i).calls[i].pc.count <= c.maxDrops
  {
    assert g.calls[i].pc.count <= g.dropped;
  }

  /** A selected call that runs alone needs no retry: it counts itself, reads the drops and swallows its wakeup exactly
      when the limit is not reached. */
  lemma UncontendedCall(c: Config, g: Gate, i: nat)
    requires GateInv(c, g) && i < |g.calls| && g.calls[i].pc.Entered?
    requires Selected(c, g.calls[i].pc.waiter, g.calls[i].key, g.calls[i].pc.now)
    ensures var g' := Acted(c, Acted(c, Acted(c, g, i), i), i);
            && g'.matched == g.matched + 1
            && if g.dropped < c.maxDrops then g'.calls[i] == Call(Cleared, 0) && g'.dropped == g.dropped + 1
               else g'.calls[i] == Call(Passed, g.calls[i].key) && g'.dropped == g.dropped
  {
  }

  /** Once no call is running, exactly the smaller of the matches and the limit was dropped. */
  lemma QuiescentDrops(c: Config, g: Gate)
    requires GateInv(c, g) && Quiescent(g)
    ensures g.dropped == if g.matched <= c.maxDrops then g.matched else c.maxDrops
  {
    CountsCompare(g.calls);
    if i :| 0 <= i < |g.calls| && g.calls[i].pc.Passed? {
    } else {
      forall i | 0 <= i < |g.calls| && IsMatched(g.calls[i].pc) ensures IsCleared(g.calls[i].pc) {
        assert Finished(g.calls[i].pc);
      }
    }
  }

  /** How many own actions a call still needs at most. */
  function Rank(c: Config, pc: CallPC): nat {
    match pc
    case Entered(_, _) => c.maxDrops + 3
    case Counted => c.maxDrops + 2
    case Trying(count) => if count <= c.maxDrops then c.maxDrops - count + 1 else 1
    case _ => 0
  }

  /** Each own action of an unfinished call lowers its rank, and no other action changes it. */
  lemma ActionsBoundCalls(c: Config, g: Gate, i: nat, j: nat)
    requires GateInv(c, g) && i < |g.calls| && j < |g.calls|
    ensures var pc, pc' := g.calls[j].pc, Acted(c, g, i).calls[j].pc;
            if i == j && !Finished(pc) then Rank(c, pc') < Rank(c, pc) else pc' == pc
  {
    if i == j && g.calls[j].pc.Trying? {
      assert g.calls[j].pc.count <= g.dropped;
    }
  }

  // ----- The module lifecycle

  datatype InitPC = NotStarted | Validated | Held | Pinned | Resolved | Armed | Activated | Failed | Loaded

  datatype Work = Unscheduled | Scheduled | Draining | Unregistered | Complete | Cancelled

  datatype ExitPC = Resident | Stopped | ExitDraining | Released | Gone

  /** `firing`: the probe is registered and takes new calls. `gets`, `puts`, `registrations` and `removals`
      count the file references and the probe registrations. */
  datatype Module = Module(
    init: InitPC, work: Work, exit: ExitPC, firing: bool, active: bool,
    gets: nat, puts: nat, registrations: nat, removals: nat)

  datatype State = State(m: Module, g: Gate)

  const UNLOADED := Module(NotStarted, Unscheduled, Resident, false, false, 0, 0, 0, 0)

  datatype Move =
    | Init(ok: bool)
    | DisarmStart | DisarmWait | DisarmFinish
    | ExitCancel | ExitCheck | ExitWait | ExitPut
    | Enter(waiter: u64, key: u64, now: u64)
    | Act(i: nat)

  /** cancel_delayed_work_sync waits for a running disarm; unregister_kprobe waits for running handlers; the
      module can exit only after a successful init. */
  predicate Enabled(s: State, mv: Move) {
    match mv
    case Init(_) => !s.m.init.Failed? && !s.m.init.Loaded?
    case DisarmStart => s.m.work.Scheduled?
    case DisarmWait => s.m.work.Draining? && Quiescent(s.g)
    case DisarmFinish => s.m.work.Unregistered?
    case ExitCancel => s.m.init.Loaded? && s.m.exit.Resident? && !s.m.work.Draining? && !s.m.work.Unregistered?
    case ExitCheck => s.m.exit.Stopped?
    case ExitWait => s.m.exit.ExitDraining? && Quiescent(s.g)
    case ExitPut => s.m.exit.Released?
    case Enter(_, _, _) => s.m.firing
    case Act(i) => i < |s.g.calls|
  }

  /** The next statement of fault_init; a failure after fget drops the reference again. */
  function Initialised(m: Module, ok: bool): Module {
    match m.init
    case NotStarted => m.(init := if ok then Validated else Failed)
    case Validated => if ok then m.(init := Held, gets := m.gets + 1) else m.(init := Failed)
    case Held => if ok then m.(init := Pinned) else m.(init := Failed, puts := m.puts + 1)
    case Pinned => if ok then m.(init := Resolved) else m.(init := Failed, puts := m.puts + 1)
    case Resolved =>
      if ok then m.(init := Armed, firing := true, registrations := m.registrations + 1)
      else m.(init := Failed, puts := m.puts + 1)
    case Armed => m.(init := Activated, active := true)
    case Activated => m.(init := Loaded, work := Scheduled)
    case _ => m
  }

  function Next(c: Config, s: State, mv: Move): State
    requires Enabled(s, mv)
  {
    var m := s.m;
    match mv
    case Init(ok) => s.(m := Initialised(m, ok))
    case DisarmStart => s.(m := m.(work := Draining, firing := false))
    case DisarmWait => s.(m := m.(work := Unregistered, removals := m.removals + 1))
    case DisarmFinish => s.(m := m.(work := Complete, active := false))
    case ExitCancel => s.(m := m.(exit := Stopped, work := if m.work.Scheduled? then Cancelled else m.work))
    case ExitCheck =>
      s.(m := if m.active then m.(exit := ExitDraining, firing := false) else m.(exit := Released))
    case ExitWait => s.(m := m.(exit := Released, removals := m.removals + 1))
    case ExitPut => s.(m := m.(exit := Gone, puts := m.puts + 1))
    case Enter(waiter, key, now) => s.(g := s.g.(calls := s.g.calls + [Call(Entered(waiter, now), key)]))
    case Act(i) => s.(g := Acted(c, s.g, i))
  }

  ghost predicate IsRun(c: Config, states: seq<State>, moves: seq<Move>) {
    && |states| == |moves| + 1
    && states[0] == State(UNLOADED, Gate(0, 0, []))
    && forall n: nat {:trigger moves[n]} :: n < |moves| ==>
         Enabled(states[n], moves[n]) && states[n + 1] == Next(c, states[n], moves[n])
  }

  /** Whether the probe is registered with the kernel: until removal has waited for the last handler. */
  predicate Registered(m: Module) {
    m.removals < m.registrations
  }

  /** Everything the lifecycle keeps. */
  predicate ModuleInv(s: State) {
    var m := s.m;
    && (m.init.NotStarted? || m.init.Validated? ==> m.gets == 0)
    && (!m.init.NotStarted? && !m.init.Validated? && !m.init.Failed? ==> m.gets == 1)
    && m.puts <= m.gets <= 1
    && (m.init.Failed? ==> m.puts == m.gets)
    && (!m.init.Failed? ==> m.puts == if m.exit.Gone? then 1 else 0)
    && m.registrations == (if m.init.Armed? || m.init.Activated? || m.init.Loaded? then 1 else 0)
    && (!m.init.Loaded? ==> m.work.Unscheduled? && m.exit.Resident?)
    && (m.init.Loaded? ==> !m.work.Unscheduled?)
    && m.active == (m.init.Activated? || (m.init.Loaded? && !m.work.Complete?))
    && m.removals == (if m.work.Unregistered? || m.work.Complete? then 1 else 0)
                     + (if (m.exit.Released? || m.exit.Gone?) && m.active then 1 else 0)
    && m.firing == (m.registrations == 1 && (m.work.Unscheduled? || m.work.Scheduled? || m.work.Cancelled?)
                    && (m.exit.Resident? || m.exit.Stopped?))
    && (!m.exit.Resident? ==> m.work.Complete? || m.work.Cancelled?)
    && (m.exit.ExitDraining? ==> m.work.Cancelled?)
    && (m.work.Cancelled? ==> !m.exit.Resident?)
    && (m.registrations == 0 || m.removals == 1 ==> Quiescent(s.g))
  }

  lemma ActKeepsInv(c: Config, s: State, i: nat)
    requires ModuleInv(s) && GateInv(c, s.g) && i < |s.g.calls|
    ensures ModuleInv(Next(c, s, Act(i))) && GateInv(c, Next(c, s, Act(i)).g)
  {
    ActedKeepsInv(c, s.g, i);
    if Quiescent(s.g) {
      assert Finished(s.g.calls[i].pc);
    }
  }

  lemma EnterKeepsInv(c: Config, s: State, waiter: u64, key: u64, now: u64)
    requires ModuleInv(s) && GateInv(c, s.g) && s.m.firing
    ensures var s' := Next(c, s, Enter(waiter, key, now)); ModuleInv(s') && GateInv(c, s'.g)
  {
    assert (s.g.calls + [Call(Entered(waiter, now), key)])[..|s.g.calls|] == s.g.calls;
  }

  lemma InitKeepsInv(s: State, ok: bool)
    requires ModuleInv(s) && Enabled(s, Init(ok))
    ensures ModuleInv(s.(m := Initialised(s.m, ok)))
  {
  }

  lemma DisarmKeepsInv(c: Config, s: State, mv: Move)
    requires ModuleInv(s) && Enabled(s, mv) && (mv.DisarmStart? || mv.DisarmWait? || mv.DisarmFinish?)
    ensures ModuleInv(Next(c, s, mv)) && Next(c, s, mv).g == s.g
  {
  }

  lemma ExitKeepsInv(c: Config, s: State, mv: Move)
    requires ModuleInv(s) && Enabled(s, mv) && (mv.ExitCancel? || mv.ExitCheck? || mv.ExitWait? || mv.ExitPut?)
    ensures ModuleInv(Next(c, s, mv)) && Next(c, s, mv).g == s.g
  {
  }

  lemma NextKeepsInv(c: Config, s: State, mv: Move)
    requires ModuleInv(s) && GateInv(c, s.g) && Enabled(s, mv)
    ensures ModuleInv(Next(c, s, mv)) && GateInv(c, Next(c, s, mv).g)
  {
    match mv
    case Act(i) => ActKeepsInv(c, s, i);
    case Enter(waiter, key, now) => EnterKeepsInv(c, s, waiter, key, now);
    case Init(ok) => InitKeepsInv(s, ok);
    case DisarmStart => DisarmKeepsInv(c, s, mv);
    case DisarmWait => DisarmKeepsInv(c, s, mv);
    case DisarmFinish => DisarmKeepsInv(c, s, mv);
    case _ => ExitKeepsInv(c, s, mv);
  }

  lemma {:induction false} InvHolds(c: Config, states: seq<State>, moves: seq<Move>, n: nat)
    requires IsRun(c, states, moves) && n <= |moves|
    ensures ModuleInv(states[n]) && GateInv(c, states[n].g)
  {
    if n > 0 {
      InvHolds(c, states, moves, n - 1);
      assert moves[n - 1] == moves[n - 1];
      NextKeepsInv(c, states[n - 1], moves[n - 1]);
    }
  }

  // ----- The calls, by the moves that made them

  /** What a handler call is entered with. */
  datatype Wakeup = Wakeup(waiter: u64, key: u64, now: u64)

  /** The wakeups among the first `n` moves, in order; the i-th one made call i. */
  function Wakeups(moves: seq<Move>, n: nat): seq<Wakeup>
    requires n <= |moves|
  {
    if n == 0 then []
    else if moves[n - 1].Enter? then
      Wakeups(moves, n - 1) + [Wakeup(moves[n - 1].waiter, moves[n - 1].key, moves[n - 1].now)]
    else Wakeups(moves, n - 1)
  }

  /** A wakeup of the target waiter, with the EPOLLIN bit (bit 0 of the key) set, inside the window. */
  predicate Targeted(c: Config, w: Wakeup) {
    w.waiter == c.targetWait && w.key % 2 == 1 && c.startsNS <= w.now && w.now < c.endsNS
  }

  lemma SelectedIsTargeted(c: Config, w: Wakeup)
    ensures Selected(c, w.waiter, w.key, w.now) <==> Targeted(c, w)
  {
    if w.key > 0 {
      assert And(w.key, 1) == (if w.key % 2 == 1 then 1 else 0) + 2 * And(w.key / 2, 0);
    }
  }

  /** Call and wakeup belong together: past the filter exactly when the wakeup is targeted; the key is zero once the
      call has cleared it, and in every other case still the key of the wakeup. */
  predicate Answers(c: Config, call: Call, w: Wakeup) {
    && (call.pc.Entered? ==> call.pc.waiter == w.waiter && call.pc.now == w.now)
    && (IsMatched(call.pc) ==> Targeted(c, w)) && (call.pc.Ignored? ==> !Targeted(c, w))
    && call.key == if call.pc.Cleared? then 0 else w.key
  }

  lemma ActedAnswers(c: Config, g: Gate, i: nat, j: nat, w: Wakeup)
    requires i < |g.calls| && j < |g.calls| && Answers(c, g.calls[j], w)
    ensures |Acted(c, g, i).calls| == |g.calls| && Answers(c, Acted(c, g, i).calls[j], w)
  {
    SelectedIsTargeted(c, w);
  }

  lemma {:induction false} CallsAnswer(c: Config, states: seq<State>, moves: seq<Move>, n: nat)
    requires IsRun(c, states, moves) && n <= |moves|
    ensures |states[n].g.calls| == |Wakeups(moves, n)|
    ensures forall i :: 0 <= i < |states[n].g.calls| ==> Answers(c, states[n].g.calls[i], Wakeups(moves, n)[i])
  {
    if n > 0 {
      CallsAnswer(c, states, moves, n - 1);
      var s, mv := states[n - 1], moves[n - 1];
      assert Enabled(s, mv) && states[n] == Next(c, s, mv);
      forall j | 0 <= j < |s.g.calls|
        ensures |states[n].g.calls| >= |s.g.calls| && Answers(c, states[n].g.calls[j], Wakeups(moves, n - 1)[j])
      {
        if mv.Act? {
          ActedAnswers(c, s.g, mv.i, j, Wakeups(moves, n - 1)[j]);
        }
      }
    }
  }

  /** The wakeups whose key was changed before their waiter saw it. */
  function Swallowed(calls: seq<Call>, ws: seq<Wakeup>): nat
    requires |calls| == |ws|
  {
    if calls == [] then 0
    else
      var n := |calls| - 1;
      Swallowed(calls[..n], ws[..n]) + if calls[n].key != ws[n].key then 1 else 0
  }

  /** The targeted wakeups whose call is past the filter. */
  function Hits(c: Config, calls: seq<Call>, ws: seq<Wakeup>): nat
    requires |calls| == |ws|
  {
    if calls == [] then 0
    else
      var n := |calls| - 1;
      Hits(c, calls[..n], ws[..n]) + if Targeted(c, ws[n]) && !calls[n].pc.Entered? then 1 else 0
  }

  lemma {:induction false} CountsByKey(c: Config, calls: seq<Call>, ws: seq<Wakeup>)
    requires |calls| == |ws| && forall i :: 0 <= i < |calls| ==> Answers(c, calls[i], ws[i])
    ensures CountCleared(calls) == Swallowed(calls, ws) && CountMatched(calls) == Hits(c, calls, ws)
  {
    if calls != [] {
      var n := |calls| - 1;
      CountsByKey(c, calls[..n], ws[..n]);
    }
  }

  /** For any number of concurrent calls: `dropped` never exceeds the limit and equals the number of wakeups whose key
      was changed, each of them targeted; `matched` equals the number of targeted wakeups past the filter; and at
      quiescence dropped is min(matched, max_drops). */
  lemma DropsBounded(c: Config, states: seq<State>, moves: seq<Move>, n: nat)
    requires IsRun(c, states, moves) && n <= |moves|
    ensures var g, ws := states[n].g, Wakeups(moves, n);
            && |g.calls| == |ws|
            && g.dropped <= c.maxDrops
            && g.dropped == Swallowed(g.calls, ws) && g.matched == Hits(c, g.calls, ws)
            && (forall i :: 0 <= i < |ws| && g.calls[i].key != ws[i].key ==> Targeted(c, ws[i]) && g.calls[i].key == 0)
            && (Quiescent(g) ==> g.dropped == if g.matched <= c.maxDrops then g.matched else c.maxDrops)
  {
    InvHolds(c, states, moves, n);
    CallsAnswer(c, states, moves, n);
    CountsByKey(c, states[n].g.calls, Wakeups(moves, n));
    if Quiescent(states[n].g) {
      QuiescentDrops(c, states[n].g);
    }
  }

  function ActionsOf(moves: seq<Move>, i: nat, n: nat): nat
    requires n <= |moves|
  {
    if n == 0 then 0 else ActionsOf(moves, i, n - 1) + if moves[n - 1] == Act(i) then 1 else 0
  }

  /** In every run a call finishes after at most max_drops + 3 actions of its own, however the others interleave. */
  lemma {:induction false} CallsEnd(c: Config, states: seq<State>, moves: seq<Move>, i: nat, n: nat)
    requires IsRun(c, states, moves) && n <= |moves|
    ensures if i < |states[n].g.calls| then
              var pc := states[n].g.calls[i].pc;
              Finished(pc) || ActionsOf(moves, i, n) + Rank(c, pc) <= c.maxDrops + 3
            else ActionsOf(moves, i, n) == 0
  {
    if n > 0 {
      CallsEnd(c, states, moves, i, n - 1);
      InvHolds(c, states, moves, n - 1);
      var s, mv := states[n - 1], moves[n - 1];
      assert states[n] == Next(c, s, mv);
      if mv.Act? && i < |s.g.calls| {
        ActionsBoundCalls(c, s.g, mv.i, i);
      }
    }
  }

  /** For every interleaving of init, delayed disarm and exit: the file stays pinned while the probe is
      registered; a failed init released what it took and left no probe; an unloaded module registered and
      removed the probe exactly once, released the file exactly once, and no handler runs or can start. */
  lemma LifecycleSafe(c: Config, states: seq<State>, moves: seq<Move>, n: nat)
    requires IsRun(c, states, moves) && n <= |moves|
    ensures var m := states[n].m;
            && m.removals <= m.registrations <= 1 && m.puts <= m.gets <= 1
            && (Registered(m) ==> m.gets == 1 && m.puts == 0)
            && (m.init.Failed? ==> m.puts == m.gets && m.registrations == 0)
            && (m.exit.Gone? ==> m.registrations == 1 && m.removals == 1 && m.gets == 1 && m.puts == 1
                                 && !m.firing && Quiescent(states[n].g))
  {
    InvHolds(c, states, moves, n);
  }

  /** Once every handler has finished, a loaded module can always be taken one step further towards its end: neither
      the delayed disarm nor the exit can get stuck. */
  lemma NeverStuck(c: Config, states: seq<State>, moves: seq<Move>, n: nat)
    requires IsRun(c, states, moves) && n <= |moves| && states[n].m.init.Loaded? && Quiescent(states[n].g)
    ensures states[n].m.exit.Gone? ||
            exists mv: Move :: !mv.Init? && !mv.Enter? && !mv.Act? && Enabled(states[n], mv)
  {
    InvHolds(c, states, moves, n);
    var s := states[n];
    assert s.m.exit.Resident? && s.m.work.Draining? ==> Enabled(s, DisarmWait);
    assert s.m.exit.Resident? && s.m.work.Unregistered? ==> Enabled(s, DisarmFinish);
    assert s.m.exit.Resident? && !s.m.work.Draining? && !s.m.work.Unregistered? ==> Enabled(s, ExitCancel);
    assert s.m.exit.Stopped? ==> Enabled(s, ExitCheck);
    assert s.m.exit.ExitDraining? ==> Enabled(s, ExitWait);
    assert s.m.exit.Released? ==> Enabled(s, ExitPut);
  }

  /** After the unload nothing is intercepted any more: no handler starts and no key is cleared, so a wakeup
      written then reaches its waiter. */
  lemma {:induction false} NothingAfterUnload(c: Config, states: seq<State>, moves: seq<Move>, n: nat, k: nat)
    requires IsRun(c, states, moves) && n <= k <= |moves| && states[n].m.exit.Gone?
    ensures states[k].m.exit.Gone? && states[k].g == states[n].g
    ensures forall j :: n <= j < k ==> !moves[j].Enter?
  {
    if n < k {
      NothingAfterUnload(c, states, moves, n, k - 1);
      InvHolds(c, states, moves, k - 1);
      var s, mv := states[k - 1], moves[k - 1];
      assert Enabled(s, mv) && states[k] == Next(c, s, mv);
      if mv.Act? {
        assert Finished(s.g.calls[mv.i].pc);
      }
    }
  }
}
