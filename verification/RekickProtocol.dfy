/** The verified write (internal/watch/target_linux.go, Rekick) as small steps, interleaved with a QEMU that
    may close, reuse or rebind descriptors, recreate eventfds and reattach the queue at any point. */
module RekickProtocol {
  import opened Words
  import opened Snapshots

  /** Eventfd objects are numbered by birth, so a number names one object for ever. */
  type Obj = nat

  datatype Eventfd = Eventfd(id: u32, nonblock: bool)

  datatype File = Event(o: Obj) | Other

  /** The kernel state around one pinned vhost file: the live eventfd objects, QEMU's descriptor table, the
      eventfd attached to the TX queue, references held elsewhere, the agent's duplicate, and the rest of the
      attachment as the probe reports it. `kicks` records what the agent wrote to which object. */
  datatype World = World(
    live: map<Obj, Eventfd>, born: nat, qemu: map<int, File>, kick: Option<Obj>, elsewhere: set<Obj>,
    pin: Option<File>, queue: Snapshot, alive: bool, kicks: seq<(Obj, u64)>)

  predicate Referenced(w: World, o: Obj) {
    || w.kick == Some(o) || o in w.elsewhere || w.pin == Some(Event(o))
    || (exists fd :: fd in w.qemu && w.qemu[fd] == Event(o))
  }

  /** References point to live objects, and live objects have distinct eventfd ids. */
  predicate Consistent(w: World) {
    && (forall o :: o in w.live ==> o < w.born)
    && (w.kick.Some? ==> w.kick.value in w.live)
    && (forall o :: o in w.elsewhere ==> o in w.live)
    && (w.pin.Some? && w.pin.value.Event? ==> w.pin.value.o in w.live)
    && (forall fd :: fd in w.qemu && w.qemu[fd].Event? ==> w.qemu[fd].o in w.live)
    && (forall a, b :: a in w.live && b in w.live && w.live[a].id == w.live[b].id ==> a == b)
  }

  /** What the probe finds; the counters and flags of the sample are whatever they are at that moment. */
  function Probe(w: World, volatile: Snapshot): Snapshot
    requires Consistent(w)
  {
    var q := w.queue.(timestampNS := volatile.timestampNS, workFlags := volatile.workFlags,
                      lastAvail := volatile.lastAvail, lastUsed := volatile.lastUsed);
    if w.kick.None? then q.(kickFile := 0, context := 0, eventID := 0)
    else q.(eventID := w.live[w.kick.value].id)
  }

  // ----- The environment

  datatype Disturbance =
    | Create(fd: int, id: u32, nonblock: bool)
    | OpenOther(fd: int)
    | Close(fd: int)
    | Rebind(from: int, to: int)
    | Attach(fd: int)
    | Detach
    | Reconfigure(queue: Snapshot)
    | SetNonblock(o: Obj, nonblock: bool)
    | Share(fd: int)
    | Unshare(o: Obj)
    | Reap(o: Obj)
    | Exit

  /** A new eventfd gets an id no live one has; an object is freed, and its id may be reused, only when nothing
      refers to it. */
  predicate Enabled(w: World, d: Disturbance) {
    match d
    case Create(fd, id, _) => w.alive && forall o :: o in w.live ==> w.live[o].id != id
    case OpenOther(_) => w.alive
    case Close(fd) => true
    case Rebind(from, _) => w.alive && from in w.qemu
    case Attach(fd) => w.alive && fd in w.qemu && w.qemu[fd].Event?
    case Detach => true
    case Reconfigure(_) => true
    case SetNonblock(o, _) => o in w.live
    case Share(fd) => fd in w.qemu && w.qemu[fd].Event?
    case Unshare(_) => true
    case Reap(o) => o in w.live && !Referenced(w, o)
    case Exit => true
  }

  function Disturbed(w: World, d: Disturbance): World
    requires Enabled(w, d)
  {
    match d
    case Create(fd, id, nonblock) =>
      w.(live := w.live[w.born := Eventfd(id, nonblock)], born := w.born + 1, qemu := w.qemu[fd := Event(w.born)])
    case OpenOther(fd) => w.(qemu := w.qemu[fd := Other])
    case Close(fd) => w.(qemu := w.qemu - {fd})
    case Rebind(from, to) => w.(qemu := w.qemu[to := w.qemu[from]])
    case Attach(fd) => w.(kick := Some(w.qemu[fd].o))
    case Detach => w.(kick := None)
    case Reconfigure(q) => w.(queue := q)
    case SetNonblock(o, b) => w.(live := w.live[o := w.live[o].(nonblock := b)])
    case Share(fd) => w.(elsewhere := w.elsewhere + {w.qemu[fd].o})
    case Unshare(o) => w.(elsewhere := w.elsewhere - {o})
    case Reap(o) => w.(live := w.live - {o})
    case Exit => w.(alive := false, qemu := map[])
  }

  lemma DisturbedConsistent(w: World, d: Disturbance)
    requires Consistent(w) && Enabled(w, d)
    ensures Consistent(Disturbed(w, d))
    ensures var w' := Disturbed(w, d);
            && w'.pin == w.pin && w'.kicks == w.kicks
            && (w.pin.Some? && w.pin.value.Event? ==>
                  w.pin.value.o in w'.live && w'.live[w.pin.value.o].id == w.live[w.pin.value.o].id)
  {
  }

  // ----- The protocol

  datatype PC = Start | Duplicated | Identified | Unblocking | Compared | Armed | Closing(ok: bool) | Done(ok: bool)

  /** Rekick's arguments and position. `candidates` is events[s.EventID]. */
  datatype Agent = Agent(pc: PC, s: Snapshot, candidates: seq<int>)

  /** What the kernel answers to the step's own call, beyond the state itself: whether it succeeds, and the
      volatile part of a snapshot. */
  datatype Reply = Reply(ok: bool, volatile: Snapshot)

  function Min(fds: seq<int>): (m: int)
    requires fds != []
    ensures m in fds && forall fd :: fd in fds ==> m <= fd
  {
    if |fds| == 1 then fds[0]
    else
      var m := Min(fds[1..]);
      assert forall fd :: fd in fds ==> fd == fds[0] || fd in fds[1..];
      if fds[0] <= m then fds[0] else m
  }

  function Refused(w: World, a: Agent): (World, Agent) {
    (w, a.(pc := if w.pin.None? then Done(false) else Closing(false)))
  }

  /** One step of Rekick. */
  function Advance(w: World, a: Agent, r: Reply): (World, Agent)
    requires Consistent(w)
  {
    match a.pc
    case Start =>
      if !Validate(a.s).Valid? || a.candidates == [] then Refused(w, a)
      else
        var fd := Min(a.candidates);
        if !r.ok || fd !in w.qemu then Refused(w, a)
        else (w.(pin := Some(w.qemu[fd])), a.(pc := Duplicated))
    case Duplicated =>
      if !r.ok || w.pin.None? || w.pin.value.Other? || w.live[w.pin.value.o].id != a.s.eventID then Refused(w, a)
      else (w, a.(pc := Identified))
    case Identified =>
      if !r.ok || w.pin.None? || w.pin.value.Other? || !w.live[w.pin.value.o].nonblock then Refused(w, a)
      else (w, a.(pc := Unblocking))
    case Unblocking =>
      var current := Probe(w, r.volatile);
      if !r.ok || !Validate(current).Valid? || Identity(current) != Identity(a.s) then Refused(w, a)
      else (w, a.(pc := Compared))
    case Compared =>
      if !w.alive then Refused(w, a) else (w, a.(pc := Armed))
    case Armed =>
      if !r.ok || w.pin.None? || w.pin.value.Other? then Refused(w, a)
      else (w.(kicks := w.kicks + [(w.pin.value.o, 1)]), a.(pc := Closing(true)))
    case Closing(ok) => (w.(pin := None), a.(pc := Done(ok)))
    case Done(_) => (w, a)
  }

  // ----- Every interleaving

  datatype Move = Own(r: Reply) | Foreign(d: Disturbance)

  datatype State = State(w: World, a: Agent)

  ghost predicate Moves(s: State, m: Move, s': State) {
    match m
    case Own(r) => Consistent(s.w) && (s'.w, s'.a) == Advance(s.w, s.a, r)
    case Foreign(d) => Enabled(s.w, d) && s' == State(Disturbed(s.w, d), s.a)
  }

  /** A run: the states between the moves, from a call of Rekick on. */
  ghost predicate IsRun(states: seq<State>, moves: seq<Move>) {
    && |states| == |moves| + 1
    && Consistent(states[0].w) && states[0].w.pin.None? && states[0].w.kicks == [] && states[0].a.pc.Start?
    && forall n: nat :: n < |moves| ==> MovesAt(states, moves, n)
  }

  ghost predicate MovesAt(states: seq<State>, moves: seq<Move>, n: nat)
    requires |states| == |moves| + 1 && n < |moves|
  {
    Moves(states[n], moves[n], states[n + 1])
  }

  /** Step `m` is the confirming snapshot: it saw the queue attached to `o`, with the caller's identity. */
  ghost predicate Confirms(states: seq<State>, moves: seq<Move>, m: nat, o: Obj)
    requires |states| == |moves| + 1 && m < |moves|
  {
    && moves[m].Own? && states[m].a.pc.Unblocking? && states[m + 1].a.pc.Compared?
    && states[m].w.kick == Some(o) && o in states[m].w.live
    && Consistent(states[m].w)
    && Validate(Probe(states[m].w, moves[m].r.volatile)).Valid?
    && Identity(Probe(states[m].w, moves[m].r.volatile)) == Identity(states[m].a.s)
  }

  predicate Pinned(s: State, o: Obj) {
    s.w.pin == Some(Event(o)) && o in s.w.live && s.w.live[o].id == s.a.s.eventID
  }

  /** What holds at every program point. */
  ghost predicate Inv(states: seq<State>, moves: seq<Move>, n: nat)
    requires |states| == |moves| + 1 && n <= |moves|
  {
    var s := states[n];
    && Consistent(s.w)
    && s.a.s == states[0].a.s
    && match s.a.pc
       case Start => s.w.pin.None? && s.w.kicks == []
       case Duplicated => s.w.pin.Some? && s.w.kicks == []
       case Identified => (exists o: Obj :: Pinned(s, o)) && s.w.kicks == []
       case Unblocking => (exists o: Obj :: Pinned(s, o)) && s.w.kicks == []
       case Compared => (exists o: Obj, m: nat :: m < n && Pinned(s, o) && Confirms(states, moves, m, o)) && s.w.kicks == []
       case Armed => (exists o: Obj, m: nat :: m < n && Pinned(s, o) && Confirms(states, moves, m, o)) && s.w.kicks == []
       case Closing(ok) => s.w.pin.Some? && Outcome(states, moves, n, ok)
       case Done(ok) => s.w.pin.None? && Outcome(states, moves, n, ok)
  }

  /** A successful call wrote the value 1 once, to the eventfd its confirming snapshot saw attached; any other
      call wrote nothing. */
  ghost predicate Outcome(states: seq<State>, moves: seq<Move>, n: nat, ok: bool)
    requires |states| == |moves| + 1 && n <= |moves|
  {
    if ok then exists o: Obj, m: nat :: m < n && Confirms(states, moves, m, o) && states[n].w.kicks == [(o, 1)]
    else states[n].w.kicks == []
  }

  lemma DisturbedKeepsInv(states: seq<State>, moves: seq<Move>, n: nat)
    requires IsRun(states, moves) && n < |moves| && Inv(states, moves, n) && moves[n].Foreign?
    ensures Inv(states, moves, n + 1)
  {
    var s, s' := states[n], states[n + 1];
    assert MovesAt(states, moves, n);
    DisturbedConsistent(s.w, moves[n].d);
    assert forall o: Obj :: Pinned(s, o) ==> Pinned(s', o);
  }

  /** The confirming snapshot: the attached eventfd and the pinned one are both live and carry the same id, so
      they are one object. */
  lemma ConfirmKeepsInv(states: seq<State>, moves: seq<Move>, n: nat)
    requires IsRun(states, moves) && n < |moves| && Inv(states, moves, n) && moves[n].Own?
    requires states[n].a.pc.Unblocking?
    ensures Inv(states, moves, n + 1)
  {
    var s, s', r := states[n], states[n + 1], moves[n].r;
    assert MovesAt(states, moves, n);
    if s'.a.pc.Compared? {
      var o: Obj :| Pinned(s, o);
      assert Probe(s.w, r.volatile).eventID == s.a.s.eventID;
      assert s.w.kick == Some(o);
      assert Confirms(states, moves, n, o) && Pinned(s', o);
    }
  }

  lemma ChecksKeepInv(states: seq<State>, moves: seq<Move>, n: nat)
    requires IsRun(states, moves) && n < |moves| && Inv(states, moves, n) && moves[n].Own?
    requires states[n].a.pc.Start? || states[n].a.pc.Duplicated? || states[n].a.pc.Identified?
    ensures Inv(states, moves, n + 1)
  {
    var s, s' := states[n], states[n + 1];
    assert MovesAt(states, moves, n);
    if s.a.pc.Duplicated? {
      assert s'.a.pc.Identified? ==> Pinned(s', s.w.pin.value.o);
    } else if s.a.pc.Identified? {
      var o: Obj :| Pinned(s, o);
      assert s'.a.pc.Unblocking? ==> Pinned(s', o);
    }
  }

  lemma WriteKeepsInv(states: seq<State>, moves: seq<Move>, n: nat)
    requires IsRun(states, moves) && n < |moves| && Inv(states, moves, n) && moves[n].Own?
    requires states[n].a.pc.Compared? || states[n].a.pc.Armed?
    ensures Inv(states, moves, n + 1)
  {
    var s, s' := states[n], states[n + 1];
    assert MovesAt(states, moves, n);
    var o: Obj, m: nat :| m < n && Pinned(s, o) && Confirms(states, moves, m, o);
    assert s'.a.pc.Armed? ==> Pinned(s', o);
    assert s'.a.pc == Closing(true) ==> s'.w.kicks == [(o, 1)];
  }

  lemma CloseKeepsInv(states: seq<State>, moves: seq<Move>, n: nat)
    requires IsRun(states, moves) && n < |moves| && Inv(states, moves, n) && moves[n].Own?
    requires states[n].a.pc.Closing? || states[n].a.pc.Done?
    ensures Inv(states, moves, n + 1)
  {
    assert MovesAt(states, moves, n);
  }

  lemma AdvancedKeepsInv(states: seq<State>, moves: seq<Move>, n: nat)
    requires IsRun(states, moves) && n < |moves| && Inv(states, moves, n) && moves[n].Own?
    ensures Inv(states, moves, n + 1)
  {
    match states[n].a.pc
    case Start => ChecksKeepInv(states, moves, n);
    case Duplicated => ChecksKeepInv(states, moves, n);
    case Identified => ChecksKeepInv(states, moves, n);
    case Unblocking => ConfirmKeepsInv(states, moves, n);
    case Compared => WriteKeepsInv(states, moves, n);
    case Armed => WriteKeepsInv(states, moves, n);
    case Closing(_) => CloseKeepsInv(states, moves, n);
    case Done(_) => CloseKeepsInv(states, moves, n);
  }

  lemma {:induction false} InvHolds(states: seq<State>, moves: seq<Move>, n: nat)
    requires IsRun(states, moves) && n <= |moves|
    ensures Inv(states, moves, n)
  {
    if n > 0 {
      InvHolds(states, moves, n - 1);
      if moves[n - 1].Own? {
        AdvancedKeepsInv(states, moves, n - 1);
      } else {
        DisturbedKeepsInv(states, moves, n - 1);
      }
    }
  }

  /** Under every interleaving Rekick writes at most once, always the value 1, and only to the very eventfd
      object that was attached to the queue at its confirming snapshot; it reports success exactly when it
      wrote; and when it returns its duplicate is closed. */
  lemma WritesOnlyTheAttachedEventfd(states: seq<State>, moves: seq<Move>, n: nat)
    requires IsRun(states, moves) && n <= |moves|
    ensures states[n].w.kicks == [] ||
            exists o: Obj, m: nat :: m < n && Confirms(states, moves, m, o) && states[n].w.kicks == [(o, 1)]
    ensures states[n].a.pc.Done? ==>
              states[n].w.pin.None? && (states[n].a.pc.ok <==> states[n].w.kicks != [])
  {
    InvHolds(states, moves, n);
  }

  /** Rekick never changes file flags, ids, descriptors of QEMU or the attachment. */
  lemma LeavesTheWorldAlone(w: World, a: Agent, r: Reply)
    requires Consistent(w)
    ensures var (w', a') := Advance(w, a, r);
            w'.(pin := w.pin, kicks := w.kicks) == w && a'.s == a.s && a'.candidates == a.candidates
  {
  }

  function Rank(pc: PC): nat {
    match pc
    case Start => 7
    case Duplicated => 6
    case Identified => 5
    case Unblocking => 4
    case Compared => 3
    case Armed => 2
    case Closing(_) => 1
    case Done(_) => 0
  }

  function AgentMoves(moves: seq<Move>, n: nat): nat
    requires n <= |moves|
  {
    if n == 0 then 0 else AgentMoves(moves, n - 1) + if moves[n - 1].Own? then 1 else 0
  }

  /** However the environment interferes, seven own steps bring the call to its end. */
  lemma {:induction false} ReturnsAfterSevenSteps(states: seq<State>, moves: seq<Move>, n: nat)
    requires IsRun(states, moves) && n <= |moves|
    ensures AgentMoves(moves, n) + Rank(states[n].a.pc) <= 7 || states[n].a.pc.Done?
  {
    if n > 0 {
      ReturnsAfterSevenSteps(states, moves, n - 1);
      assert MovesAt(states, moves, n - 1);
    }
  }

  // ----- Without interference

  /** The caller's snapshot still describes the queue of a live process, and the first candidate descriptor is
      the nonblocking eventfd attached to it. */
  predicate StillAttached(w: World, a: Agent, r: Reply)
    requires Consistent(w)
  {
    && r.ok && w.alive && Validate(a.s).Valid? && a.candidates != []
    && Validate(Probe(w, r.volatile)).Valid? && Identity(Probe(w, r.volatile)) == Identity(a.s)
    && w.kick.Some? && w.live[w.kick.value].nonblock
    && var fd := Min(a.candidates); fd in w.qemu && w.qemu[fd] == Event(w.kick.value)
  }

  function PCAfter(n: nat): PC
    requires n <= 7
  {
    match n
    case 0 => Start
    case 1 => Duplicated
    case 2 => Identified
    case 3 => Unblocking
    case 4 => Compared
    case 5 => Armed
    case 6 => Closing(true)
    case _ => Done(true)
  }

  /** Where an undisturbed call stands after `n` steps: the attached eventfd is pinned from step 1 until it is
      closed by step 7, and written by step 6. */
  function Undisturbed(s: State, n: nat): State
    requires n <= 7 && s.w.kick.Some?
  {
    var o := s.w.kick.value;
    State(s.w.(pin := if 1 <= n <= 6 then Some(Event(o)) else None, kicks := if n >= 6 then [(o, 1)] else []),
          s.a.(pc := PCAfter(n)))
  }

  lemma PinningIsConsistent(s: State, n: nat)
    requires Consistent(s.w) && s.w.kick.Some? && n <= 7
    ensures Consistent(Undisturbed(s, n).w)
  {
  }

  lemma AttachedId(w: World, a: Agent, r: Reply)
    requires Consistent(w) && StillAttached(w, a, r)
    ensures w.live[w.kick.value].id == a.s.eventID
  {
    assert Identity(Probe(w, r.volatile)).eventID == Identity(a.s).eventID;
  }

  lemma UndisturbedStep(s: State, r: Reply, n: nat)
    requires Consistent(s.w) && StillAttached(s.w, s.a, r) && n < 7
    ensures Consistent(Undisturbed(s, n).w)
    ensures var x, y := Undisturbed(s, n), Undisturbed(s, n + 1); Advance(x.w, x.a, r) == (y.w, y.a)
  {
    PinningIsConsistent(s, n);
    AttachedId(s.w, s.a, r);
    var x := Undisturbed(s, n);
    assert n == 3 ==> Probe(x.w, r.volatile) == Probe(s.w, r.volatile);
    assert n == 5 ==> x.w.kicks + [(s.w.kick.value, 1)] == [(s.w.kick.value, 1)];
  }

  /** Left alone, Rekick withholds no wakeup it can verify: when its snapshot still describes the queue and the
      descriptor it picks is the attached eventfd, its seventh step returns success after one write to it. */
  lemma {:induction false} UndisturbedWrites(states: seq<State>, moves: seq<Move>, r: Reply, n: nat)
    requires IsRun(states, moves) && n <= |moves| && n <= 7
    requires forall k :: 0 <= k < n ==> moves[k] == Own(r)
    requires StillAttached(states[0].w, states[0].a, r)
    ensures states[n] == Undisturbed(states[0], n)
    ensures n == 7 ==> states[n].a.pc == Done(true) && states[n].w.kicks == [(states[0].w.kick.value, 1)]
  {
    if n > 0 {
      UndisturbedWrites(states, moves, r, n - 1);
      UndisturbedStep(states[0], r, n - 1);
      assert MovesAt(states, moves, n - 1);
    }
  }

  // ----- What was checked before a write

  /** The arguments of the call never change. */
  lemma {:induction false} ArgumentsStay(states: seq<State>, moves: seq<Move>, n: nat)
    requires IsRun(states, moves) && n <= |moves|
    ensures states[n].a.s == states[0].a.s && states[n].a.candidates == states[0].a.candidates
  {
    if n > 0 {
      ArgumentsStay(states, moves, n - 1);
      assert MovesAt(states, moves, n - 1);
      if moves[n - 1].Own? {
        LeavesTheWorldAlone(states[n - 1].w, states[n - 1].a, moves[n - 1].r);
      }
    }
  }

  /** A step towards the write goes to the next program point and keeps the duplicate; no other move changes either. */
  lemma StepDown(states: seq<State>, moves: seq<Move>, n: nat)
    requires IsRun(states, moves) && n < |moves| && 2 <= Rank(states[n + 1].a.pc) <= 6
    ensures if moves[n].Own? then
              Rank(states[n].a.pc) == Rank(states[n + 1].a.pc) + 1
              && (states[n].a.pc.Start? || states[n + 1].w.pin == states[n].w.pin)
            else states[n + 1].a.pc == states[n].a.pc && states[n + 1].w.pin == states[n].w.pin
  {
    assert MovesAt(states, moves, n);
  }

  /** A call at some program point before the write went through every earlier one, with the same duplicate. */
  lemma {:induction false} WentThrough(states: seq<State>, moves: seq<Move>, n: nat, rank: nat) returns (m: nat)
    requires IsRun(states, moves) && n <= |moves| && 2 <= Rank(states[n].a.pc) < rank <= 7
    ensures m < n && moves[m].Own? && Rank(states[m].a.pc) == rank && Rank(states[m + 1].a.pc) == rank - 1
    ensures states[m + 1].w.pin == states[n].w.pin && (states[m].a.pc.Start? || states[m].w.pin == states[n].w.pin)
  {
    StepDown(states, moves, n - 1);
    if Rank(states[n - 1].a.pc) == rank {
      m := n - 1;
    } else {
      m := WentThrough(states, moves, n - 1, rank);
    }
  }

  /** What the five checks before the write have seen, each at its own move of the call: the caller's snapshot was
      valid and the smallest candidate descriptor of QEMU was duplicated; the duplicate was an eventfd with the
      expected id; it was nonblocking; the queue was still the caller's and attached to this eventfd; QEMU was alive. */
  ghost predicate Vetted(states: seq<State>, moves: seq<Move>, d: nat, i: nat, b: nat, m: nat, l: nat, o: Obj)
    requires |states| == |moves| + 1 && d < i < b < m < l < |moves|
  {
    var s, fds := states[0].a.s, states[0].a.candidates;
    && moves[d].Own? && moves[d].r.ok && Validate(s).Valid? && fds != []
    && (exists fd :: fd in fds && (forall x :: x in fds ==> fd <= x) && fd in states[d].w.qemu && states[d].w.qemu[fd] == Event(o))
    && moves[i].Own? && moves[i].r.ok && o in states[i].w.live && states[i].w.live[o].id == s.eventID
    && moves[b].Own? && moves[b].r.ok && o in states[b].w.live && states[b].w.live[o].nonblock
    && moves[m].Own? && moves[m].r.ok && states[m].w.kick == Some(o) && SameQueue(states[m].w.queue, s)
    && moves[l].Own? && states[l].w.alive
  }

  /** The attachment is the caller's, field by field. */
  predicate SameQueue(q: Snapshot, s: Snapshot) {
    && q.vq == s.vq && q.kickFile == s.kickFile && q.context == s.context && q.avail == s.avail && q.used == s.used
    && q.backend == s.backend && q.features == s.features && q.work == s.work && q.wait == s.wait
    && q.pollWQH == s.pollWQH && q.contextWQH == s.contextWQH && q.num == s.num && q.littleEndian == s.littleEndian
    && q.reserved == s.reserved
  }

  lemma FirstChecks(states: seq<State>, moves: seq<Move>, m: nat)
    requires IsRun(states, moves) && m < |moves| && moves[m].Own? && Rank(states[m + 1].a.pc) == Rank(states[m].a.pc) - 1
    ensures states[m].a.pc.Start? && states[m + 1].a.pc.Duplicated? ==>
              var fds := states[m].a.candidates;
              && moves[m].r.ok && Validate(states[m].a.s).Valid? && fds != []
              && (exists fd :: fd in fds && (forall x :: x in fds ==> fd <= x) && fd in states[m].w.qemu
                    && states[m + 1].w.pin == Some(states[m].w.qemu[fd]))
    ensures states[m].a.pc.Duplicated? ==>
              && moves[m].r.ok && states[m].w.pin.Some? && states[m].w.pin.value.Event?
              && states[m].w.pin.value.o in states[m].w.live
              && states[m].w.live[states[m].w.pin.value.o].id == states[m].a.s.eventID
    ensures states[m].a.pc.Identified? ==>
              && moves[m].r.ok && states[m].w.pin.Some? && states[m].w.pin.value.Event?
              && states[m].w.pin.value.o in states[m].w.live
              && states[m].w.live[states[m].w.pin.value.o].nonblock
  {
    assert MovesAt(states, moves, m);
  }

  lemma LastChecks(states: seq<State>, moves: seq<Move>, m: nat)
    requires IsRun(states, moves) && m < |moves| && moves[m].Own? && Rank(states[m + 1].a.pc) == Rank(states[m].a.pc) - 1
    ensures states[m].a.pc.Unblocking? ==>
              && moves[m].r.ok && Consistent(states[m].w) && states[m].w.kick.Some?
              && SameQueue(states[m].w.queue, states[m].a.s)
              && states[m].w.live[states[m].w.kick.value].id == states[m].a.s.eventID
    ensures states[m].a.pc.Compared? ==> states[m].w.alive
  {
    assert MovesAt(states, moves, m);
    if states[m].a.pc.Unblocking? {
      IdentityExact(Probe(states[m].w, moves[m].r.volatile), states[m].a.s);
    }
  }

  /** Every write of every run was vetted: five own moves, in this order, saw what they check, all about the eventfd
      that is then written. */
  lemma WriteIsVetted(states: seq<State>, moves: seq<Move>, n: nat)
    returns (d: nat, i: nat, b: nat, m: nat, l: nat, o: Obj)
    requires IsRun(states, moves) && n < |moves| && WritesAt(states, moves, n)
    ensures d < i < b < m < l < n && Vetted(states, moves, d, i, b, m, l, o)
    ensures states[m].a.pc.Unblocking? && states[m + 1].a.pc.Compared?
    ensures moves[n].r.ok && states[n + 1].w.kicks == [(o, 1)]
  {
    o := WriteStep(states, moves, n);
    l := WentThrough(states, moves, n, 3);
    m := WentThrough(states, moves, l, 4);
    b := WentThrough(states, moves, m, 5);
    i := WentThrough(states, moves, b, 6);
    d := WentThrough(states, moves, i, 7);
    VettingSteps(states, moves, d, i, b, m, l, o);
  }

  lemma WriteStep(states: seq<State>, moves: seq<Move>, n: nat) returns (o: Obj)
    requires IsRun(states, moves) && n < |moves| && WritesAt(states, moves, n)
    ensures states[n].w.pin == Some(Event(o)) && moves[n].r.ok && states[n + 1].w.kicks == [(o, 1)]
  {
    InvHolds(states, moves, n);
    assert MovesAt(states, moves, n);
    var m: nat;
    o, m :| m < n && Pinned(states[n], o) && Confirms(states, moves, m, o);
    assert states[n].w.kicks + [(o, 1)] == [(o, 1)];
  }

  lemma VettingSteps(states: seq<State>, moves: seq<Move>, d: nat, i: nat, b: nat, m: nat, l: nat, o: Obj)
    requires IsRun(states, moves) && d < i < b < m < l < |moves|
    requires moves[d].Own? && Rank(states[d].a.pc) == 7 && Rank(states[d + 1].a.pc) == 6
    requires moves[i].Own? && Rank(states[i].a.pc) == 6 && Rank(states[i + 1].a.pc) == 5
    requires moves[b].Own? && Rank(states[b].a.pc) == 5 && Rank(states[b + 1].a.pc) == 4
    requires moves[m].Own? && Rank(states[m].a.pc) == 4 && Rank(states[m + 1].a.pc) == 3
    requires moves[l].Own? && Rank(states[l].a.pc) == 3 && Rank(states[l + 1].a.pc) == 2
    requires states[d + 1].w.pin == states[i].w.pin == states[b].w.pin == states[m].w.pin == Some(Event(o))
    ensures Vetted(states, moves, d, i, b, m, l, o)
  {
    assert states[m].w.kick == Some(o) && SameQueue(states[m].w.queue, states[0].a.s) && moves[m].r.ok by {
      ArgumentsStay(states, moves, m);
      LastChecks(states, moves, m);
      InvHolds(states, moves, m);
    }
    assert states[l].w.alive by {
      LastChecks(states, moves, l);
    }
    ArgumentsStay(states, moves, d);
    ArgumentsStay(states, moves, i);
    FirstChecks(states, moves, d);
    FirstChecks(states, moves, i);
    FirstChecks(states, moves, b);
  }

  /** Without interference nothing but the duplicate and the write changes. */
  lemma {:induction false} AloneStays(states: seq<State>, moves: seq<Move>, n: nat)
    requires IsRun(states, moves) && n <= |moves| && forall k :: 0 <= k < n ==> moves[k].Own?
    ensures states[n].w.(pin := states[0].w.pin, kicks := states[0].w.kicks) == states[0].w
  {
    if n > 0 {
      AloneStays(states, moves, n - 1);
      assert MovesAt(states, moves, n - 1);
      LeavesTheWorldAlone(states[n - 1].w, states[n - 1].a, moves[n - 1].r);
    }
  }

  /** A call that reports success has written. */
  lemma {:induction false} SuccessWrote(states: seq<State>, moves: seq<Move>, n: nat) returns (k: nat)
    requires IsRun(states, moves) && n <= |moves| && (states[n].a.pc == Closing(true) || states[n].a.pc == Done(true))
    ensures k < n && WritesAt(states, moves, k)
  {
    assert MovesAt(states, moves, n - 1);
    if states[n - 1].a.pc == Closing(true) || states[n - 1].a.pc == Done(true) {
      k := SuccessWrote(states, moves, n - 1);
    } else {
      k := n - 1;
    }
  }

  lemma {:induction false} AllOwn(moves: seq<Move>, n: nat)
    requires n <= |moves| && forall k :: 0 <= k < n ==> moves[k].Own?
    ensures AgentMoves(moves, n) == n
  {
    if n > 0 {
      AllOwn(moves, n - 1);
    }
  }

  /** Left alone, Rekick succeeds if and only if the caller's snapshot still describes the queue of a live process and
      the descriptor it picks is the nonblocking eventfd attached to it; otherwise it ends without a write. */
  lemma UndisturbedExact(states: seq<State>, moves: seq<Move>, r: Reply)
    requires IsRun(states, moves) && |moves| >= 7 && forall k :: 0 <= k < 7 ==> moves[k] == Own(r)
    ensures states[7].a.pc == Done(StillAttached(states[0].w, states[0].a, r))
    ensures !StillAttached(states[0].w, states[0].a, r) ==> states[7].w.kicks == []
  {
    AllOwn(moves, 7);
    ReturnsAfterSevenSteps(states, moves, 7);
    InvHolds(states, moves, 7);
    if StillAttached(states[0].w, states[0].a, r) {
      UndisturbedWrites(states, moves, r, 7);
    } else if states[7].a.pc == Done(true) {
      var k := SuccessWrote(states, moves, 7);
      var d, i, b, m, l, o := WriteIsVetted(states, moves, k);
      AloneStays(states, moves, d);
      AloneStays(states, moves, b);
      AloneStays(states, moves, m);
      AloneStays(states, moves, l);
      AttachedAlone(states, moves, r, d, i, b, m, l, o);
      assert false;
    }
  }

  lemma AttachedAlone(states: seq<State>, moves: seq<Move>, r: Reply, d: nat, i: nat, b: nat, m: nat, l: nat, o: Obj)
    requires IsRun(states, moves) && d < i < b < m < l < |moves| && Vetted(states, moves, d, i, b, m, l, o)
    requires moves[d] == Own(r) && moves[m] == Own(r) && states[m].a.pc.Unblocking? && states[m + 1].a.pc.Compared?
    requires states[d].w.qemu == states[0].w.qemu && states[b].w.live == states[0].w.live
    requires states[m].w.(pin := states[0].w.pin, kicks := states[0].w.kicks) == states[0].w
    requires states[l].w.alive == states[0].w.alive
    ensures StillAttached(states[0].w, states[0].a, r)
  {
    assert MovesAt(states, moves, m);
    ArgumentsStay(states, moves, m);
    assert Probe(states[m].w, r.volatile) == Probe(states[0].w, r.volatile);
  }

  // ----- When the write reaches the eventfd that is attached at that moment

  predicate Rebinds(mv: Move) {
    mv.Foreign? && (mv.d.Attach? || mv.d.Detach?)
  }

  /** The last move from `m` until `n` that attaches or detaches the queue. */
  function LastRebinding(moves: seq<Move>, m: nat, n: nat): (r: Option<nat>)
    requires m <= n <= |moves|
    ensures r.Some? ==> m <= r.value < n && Rebinds(moves[r.value]) && forall k :: r.value < k < n ==> !Rebinds(moves[k])
    ensures r.None? ==> forall k :: m <= k < n ==> !Rebinds(moves[k])
  {
    if m == n then None else if Rebinds(moves[n - 1]) then Some(n - 1) else LastRebinding(moves, m, n - 1)
  }

  /** What happened to the attachment from `m` until `n` left `o` attached: nothing, or lastly an attachment of a
      descriptor of `o`. */
  predicate LeaveAttached(states: seq<State>, moves: seq<Move>, m: nat, n: nat, o: Obj)
    requires |states| == |moves| + 1 && m <= n <= |moves|
  {
    match LastRebinding(moves, m, n)
    case None => true
    case Some(k) =>
      moves[k].d.Attach? && moves[k].d.fd in states[k].w.qemu && states[k].w.qemu[moves[k].d.fd] == Event(o)
  }

  lemma {:induction false} AttachmentFollows(states: seq<State>, moves: seq<Move>, m: nat, n: nat, o: Obj)
    requires IsRun(states, moves) && m <= n <= |moves| && states[m].w.kick == Some(o)
    ensures states[n].w.kick == Some(o) <==> LeaveAttached(states, moves, m, n, o)
  {
    if m < n {
      AttachmentFollows(states, moves, m, n - 1, o);
      StepKeepsAttachment(states, moves, n - 1);
    }
  }

  lemma StepKeepsAttachment(states: seq<State>, moves: seq<Move>, n: nat)
    requires IsRun(states, moves) && n < |moves|
    ensures !Rebinds(moves[n]) ==> states[n + 1].w.kick == states[n].w.kick
    ensures Rebinds(moves[n]) && moves[n].d.Attach? ==>
              var fd := moves[n].d.fd;
              fd in states[n].w.qemu && states[n].w.qemu[fd].Event? && states[n + 1].w.kick == Some(states[n].w.qemu[fd].o)
    ensures Rebinds(moves[n]) && moves[n].d.Detach? ==> states[n + 1].w.kick.None?
  {
    assert MovesAt(states, moves, n);
    if moves[n].Own? {
      LeavesTheWorldAlone(states[n].w, states[n].a, moves[n].r);
    }
  }

  /** Move `n` is the write. */
  ghost predicate WritesAt(states: seq<State>, moves: seq<Move>, n: nat)
    requires |states| == |moves| + 1 && n < |moves|
  {
    moves[n].Own? && states[n].a.pc.Armed? && states[n + 1].a.pc == Closing(true)
  }

  /** At every write of every run: the wakeup goes to the eventfd attached at the write if and only if the
      attachments and detachments since the confirming snapshot left the confirmed one attached. In particular it
      does whenever there were none. */
  lemma WriteReachesTheAttached(states: seq<State>, moves: seq<Move>, n: nat) returns (m: nat, o: Obj)
    requires IsRun(states, moves) && n < |moves| && WritesAt(states, moves, n)
    ensures m < n && Confirms(states, moves, m, o) && states[n + 1].w.kicks == [(o, 1)]
    ensures states[n].w.kick == Some(o) <==> LeaveAttached(states, moves, m, n, o)
    ensures (forall k :: m <= k < n ==> !Rebinds(moves[k])) ==> states[n].w.kick == Some(o)
  {
    InvHolds(states, moves, n);
    assert MovesAt(states, moves, n);
    o, m :| m < n && Pinned(states[n], o) && Confirms(states, moves, m, o);
    AttachmentFollows(states, moves, m, n, o);
  }

  const BEFORE := World(map[0 := Eventfd(5, true), 1 := Eventfd(6, true)], 2, map[10 := Event(0), 11 := Event(1)],
                        Some(0), {}, Some(Event(0)), SAMPLE, true, [])

  const AFTER := BEFORE.(kick := Some(1))

  function Call(pc: PC): Agent {
    Agent(pc, SAMPLE, [10])
  }

  lemma UpToTheComparison(yes: Reply)
    requires yes == Reply(true, SAMPLE)
    ensures Consistent(BEFORE)
    ensures Moves(State(BEFORE.(pin := None), Call(Start)), Own(yes), State(BEFORE, Call(Duplicated)))
    ensures Moves(State(BEFORE, Call(Duplicated)), Own(yes), State(BEFORE, Call(Identified)))
    ensures Moves(State(BEFORE, Call(Identified)), Own(yes), State(BEFORE, Call(Unblocking)))
  {
    SampleIsValid();
    assert Min([10]) == 10;
  }

  lemma TheComparison(yes: Reply)
    requires yes == Reply(true, SAMPLE)
    ensures Moves(State(BEFORE, Call(Unblocking)), Own(yes), State(BEFORE, Call(Compared)))
  {
    SampleIsValid();
    assert Consistent(BEFORE);
    assert Probe(BEFORE, SAMPLE) == SAMPLE;
  }

  const WRITTEN := AFTER.(kicks := AFTER.kicks + [(0, 1)])

  lemma AfterTheComparison(yes: Reply)
    requires yes == Reply(true, SAMPLE)
    ensures Moves(State(BEFORE, Call(Compared)), Own(yes), State(BEFORE, Call(Armed)))
    ensures Moves(State(BEFORE, Call(Armed)), Foreign(Attach(11)), State(AFTER, Call(Armed)))
    ensures Moves(State(AFTER, Call(Armed)), Own(yes), State(WRITTEN, Call(Closing(true))))
  {
    assert Consistent(BEFORE) && Consistent(AFTER);
  }

  /** The guarantee ends at the confirming snapshot: a queue reattached between it and the write is not
      noticed, and the wakeup goes to the eventfd attached before. */
  lemma ReattachmentAfterConfirmation() returns (states: seq<State>, moves: seq<Move>)
    ensures IsRun(states, moves) && |moves| == 7
    ensures states[6].w.kick == Some(1) && states[7].w.kicks == [(0, 1)]
  {
    var yes := Reply(true, SAMPLE);
    moves := [Own(yes), Own(yes), Own(yes), Own(yes), Own(yes), Foreign(Attach(11)), Own(yes)];
    states := [State(BEFORE.(pin := None), Call(Start)), State(BEFORE, Call(Duplicated)),
               State(BEFORE, Call(Identified)), State(BEFORE, Call(Unblocking)), State(BEFORE, Call(Compared)),
               State(BEFORE, Call(Armed)), State(AFTER, Call(Armed)), State(WRITTEN, Call(Closing(true)))];
    UpToTheComparison(yes);
    TheComparison(yes);
    AfterTheComparison(yes);
  }
}
