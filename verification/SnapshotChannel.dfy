/** BPF.Snapshot (internal/watch/bpf_linux.go) together with the probe that fills the one-slot sample map
    (agent/watch.bpf.c, snapshot_tx): any number of worker threads share the slot under a mutex. */
module SnapshotChannel {
  import opened Words
  import opened Snapshots

  /** A duplicated descriptor, naming the open file behind it. */
  type File = int

  datatype Result = Ok(s: Snapshot) | Err

  datatype PC = Idle | Waiting | Checking | Clearing | Probing | Reading | Leaving(r: Result) | Returned(r: Result)

  /** A worker thread: its position, the argument and the serial number of its current call. */
  datatype Thread = Thread(pc: PC, file: File, call: nat)

  predicate Inside(pc: PC) {
    pc.Checking? || pc.Clearing? || pc.Probing? || pc.Reading? || pc.Leaving?
  }

  /** `queues` says, for every vhost file, what the probe would find behind it right now. */
  datatype State = State(threads: seq<Thread>, holder: Option<nat>, slot: Snapshot, queues: map<File, Snapshot>)

  datatype Move =
    | Call(i: nat, file: File)
    | Lock(i: nat)
    /** Readlink: `vhost` says whether it succeeds and names /dev/vhost-net. */
    | Check(i: nat, vhost: bool)
    | Clear(i: nat, ok: bool)
    /** VHOST_GET_FEATURES; the probe runs first, at kernel time `time`. */
    | Ioctl(i: nat, ok: bool, time: u64)
    | Lookup(i: nat, ok: bool)
    | Unlock(i: nat)
    /** The queue behind a file changes, appears or disappears. */
    | Change(file: File, queue: Option<Snapshot>)

  predicate Enabled(s: State, m: Move) {
    match m
    case Change(_, _) => true
    case Call(i, _) => i < |s.threads| && (s.threads[i].pc.Idle? || s.threads[i].pc.Returned?)
    case Lock(i) => i < |s.threads| && s.threads[i].pc.Waiting? && s.holder.None?
    case Check(i, _) => i < |s.threads| && s.threads[i].pc.Checking?
    case Clear(i, _) => i < |s.threads| && s.threads[i].pc.Clearing?
    case Ioctl(i, _, time) => i < |s.threads| && s.threads[i].pc.Probing? && time > 0
    case Lookup(i, _) => i < |s.threads| && s.threads[i].pc.Reading?
    case Unlock(i) => i < |s.threads| && s.threads[i].pc.Leaving?
  }

  function At(s: State, i: nat, pc: PC): State
    requires i < |s.threads|
  {
    s.(threads := s.threads[i := s.threads[i].(pc := pc)])
  }

  /** What the call makes of the slot it read. */
  function Judged(v: Snapshot): Result {
    if v.timestampNS != 0 && Validate(v).Valid? then Ok(v) else Err
  }

  function Next(s: State, m: Move): State
    requires Enabled(s, m)
  {
    match m
    case Change(file, queue) =>
      s.(queues := if queue.Some? then s.queues[file := queue.value] else s.queues - {file})
    case Call(i, file) => s.(threads := s.threads[i := Thread(Waiting, file, s.threads[i].call + 1)])
    case Lock(i) => At(s, i, Checking).(holder := Some(i))
    case Check(i, vhost) => At(s, i, if vhost then Clearing else Leaving(Err))
    case Clear(i, ok) => if ok then At(s, i, Probing).(slot := ZERO) else At(s, i, Leaving(Err))
    case Ioctl(i, ok, time) =>
      var f := s.threads[i].file;
      var s' := if f in s.queues then s.(slot := s.queues[f].(timestampNS := time)) else s;
      At(s', i, if ok then Reading else Leaving(Err))
    case Lookup(i, ok) => At(s, i, Leaving(if ok then Judged(s.slot) else Err))
    case Unlock(i) => At(s, i, Returned(s.threads[i].pc.r)).(holder := None)
  }

  ghost predicate IsRun(states: seq<State>, moves: seq<Move>) {
    && |states| == |moves| + 1
    && states[0].holder.None? && (forall i :: 0 <= i < |states[0].threads| ==> states[0].threads[i].pc.Idle?)
    && forall n: nat {:trigger moves[n]} :: n < |moves| ==>
         Enabled(states[n], moves[n]) && states[n + 1] == Next(states[n], moves[n])
  }

  /** Mutual exclusion: the threads inside are exactly the holder. */
  predicate Exclusive(s: State) {
    && (s.holder.Some? ==> s.holder.value < |s.threads|)
    && (forall i :: 0 <= i < |s.threads| ==> (Inside(s.threads[i].pc) <==> s.holder == Some(i)))
    && (s.holder.Some? && s.threads[s.holder.value].pc.Probing? ==> s.slot == ZERO)
  }

  lemma NextExclusive(s: State, m: Move)
    requires Exclusive(s) && Enabled(s, m)
    ensures Exclusive(Next(s, m)) && |Next(s, m).threads| == |s.threads|
  {
  }

  lemma {:induction false} AlwaysExclusive(states: seq<State>, moves: seq<Move>, n: nat)
    requires IsRun(states, moves) && n <= |moves|
    ensures Exclusive(states[n]) && |states[n].threads| == |states[0].threads|
  {
    if n > 0 {
      AlwaysExclusive(states, moves, n - 1);
      assert moves[n - 1] == moves[n - 1];
      NextExclusive(states[n - 1], moves[n - 1]);
    }
  }

  /** Move `m` is the ioctl of the call that thread `i` is in at `n`, and `v` is the slot right after it: the
      queue behind that call's own file at that moment, or the cleared slot when there is none. */
  predicate OwnProbe(states: seq<State>, moves: seq<Move>, m: nat, n: nat, i: nat, v: Snapshot)
    requires |states| == |moves| + 1 && m < n <= |moves|
  {
    && i < |states[m].threads| && i < |states[n].threads|
    && moves[m].Ioctl? && moves[m].i == i && moves[m].ok
    && states[m].threads[i].call == states[n].threads[i].call
    && states[m].threads[i].file == states[n].threads[i].file
    && var f, queues := states[m].threads[i].file, states[m].queues;
       v == if f in queues then queues[f].(timestampNS := moves[m].time) else ZERO
  }

  /** A thread that has made its ioctl still has its own sample, and nobody else's, in the slot. */
  ghost predicate Sampled(states: seq<State>, moves: seq<Move>, n: nat, i: nat)
    requires |states| == |moves| + 1 && n <= |moves|
  {
    i < |states[n].threads| ==>
      match states[n].threads[i].pc
      case Reading => exists m: nat :: m < n && OwnProbe(states, moves, m, n, i, states[n].slot)
      case Leaving(Ok(s)) => exists m: nat :: m < n && OwnProbe(states, moves, m, n, i, s) && Judged(s) == Ok(s)
      case Returned(Ok(s)) => exists m: nat :: m < n && OwnProbe(states, moves, m, n, i, s) && Judged(s) == Ok(s)
      case _ => true
  }

  lemma StaysSampled(states: seq<State>, moves: seq<Move>, n: nat, i: nat)
    requires IsRun(states, moves) && n < |moves| && Sampled(states, moves, n, i)
    requires Exclusive(states[n]) && i < |states[n].threads|
    ensures Sampled(states, moves, n + 1, i)
  {
    var s, s', mv := states[n], states[n + 1], moves[n];
    assert Enabled(s, mv) && s' == Next(s, mv);
    var pc := s.threads[i].pc;
    if s'.threads[i].pc == pc {
      if pc.Reading? {
        var m: nat :| m < n && OwnProbe(states, moves, m, n, i, s.slot);
        assert s'.slot == s.slot;
        assert OwnProbe(states, moves, m, n + 1, i, s.slot);
      } else if (pc.Leaving? || pc.Returned?) && pc.r.Ok? {
        var m: nat :| m < n && OwnProbe(states, moves, m, n, i, pc.r.s) && Judged(pc.r.s) == pc.r;
        assert OwnProbe(states, moves, m, n + 1, i, pc.r.s);
      }
    } else if mv.Ioctl? && s'.threads[i].pc.Reading? {
      assert OwnProbe(states, moves, n, n + 1, i, s'.slot);
    } else if mv.Lookup? && s'.threads[i].pc.r.Ok? {
      var m: nat :| m < n && OwnProbe(states, moves, m, n, i, s.slot);
      assert OwnProbe(states, moves, m, n + 1, i, s.slot);
    } else if mv.Unlock? && pc.r.Ok? {
      var m: nat :| m < n && OwnProbe(states, moves, m, n, i, pc.r.s) && Judged(pc.r.s) == pc.r;
      assert OwnProbe(states, moves, m, n + 1, i, pc.r.s);
    }
  }

  lemma {:induction false} AlwaysSampled(states: seq<State>, moves: seq<Move>, n: nat, i: nat)
    requires IsRun(states, moves) && n <= |moves|
    ensures Sampled(states, moves, n, i)
  {
    AlwaysExclusive(states, moves, n);
    if n > 0 && i < |states[n].threads| {
      AlwaysExclusive(states, moves, n - 1);
      AlwaysSampled(states, moves, n - 1, i);
      StaysSampled(states, moves, n - 1, i);
    }
  }

  /** For any number of threads and any interleaving, a successful Snapshot returns the sample its own ioctl
      took of its own file: there was a queue, and the value is that queue at that moment. It is never a
      stale sample, another thread's, or one conjured up when the probe found no queue. */
  lemma SnapshotIsOwn(states: seq<State>, moves: seq<Move>, n: nat, i: nat)
    requires IsRun(states, moves) && n <= |moves|
    requires i < |states[n].threads| && states[n].threads[i].pc.Returned? && states[n].threads[i].pc.r.Ok?
    ensures var s := states[n].threads[i].pc.r.s;
            exists m: nat :: m < n && OwnProbe(states, moves, m, n, i, s)
              && var f := states[n].threads[i].file;
                 f in states[m].queues && s == states[m].queues[f].(timestampNS := moves[m].time)
                 && Validate(s).Valid?
  {
    AlwaysSampled(states, moves, n, i);
    var s := states[n].threads[i].pc.r.s;
    var m: nat :| m < n && OwnProbe(states, moves, m, n, i, s) && Judged(s) == Ok(s);
    assert states[n].threads[i].file in states[m].queues;
  }

  /** Conversely, a completed lookup decides the call by what its own ioctl found behind its own file: a valid queue is
      returned as it was at that moment, and no queue or an invalid one is an error. */
  lemma LookupDecides(states: seq<State>, moves: seq<Move>, n: nat) returns (m: nat)
    requires IsRun(states, moves) && n < |moves| && moves[n].Lookup? && moves[n].ok
    ensures m < n && moves[m].Ioctl? && moves[m].i == moves[n].i && moves[m].ok
    ensures var i := moves[n].i;
            && i < |states[m].threads| && i < |states[n].threads| && i < |states[n + 1].threads|
            && states[m].threads[i].call == states[n].threads[i].call
            && states[m].threads[i].file == states[n].threads[i].file
            && var f, queues := states[n].threads[i].file, states[m].queues;
               states[n + 1].threads[i].pc ==
               if f in queues && Validate(queues[f].(timestampNS := moves[m].time)).Valid? then
                 Leaving(Ok(queues[f].(timestampNS := moves[m].time)))
               else Leaving(Err)
  {
    var i := moves[n].i;
    AlwaysSampled(states, moves, n, i);
    m :| m < n && OwnProbe(states, moves, m, n, i, states[n].slot);
    assert Enabled(states[m], moves[m]);
  }

  /** Any failed step, and a file that is not /dev/vhost-net, make the call fail; and a call returns exactly what it
      was leaving with. */
  lemma FailuresFail(states: seq<State>, moves: seq<Move>, n: nat)
    requires IsRun(states, moves) && n < |moves| && !moves[n].Change?
    ensures var i, mv := moves[n].i, moves[n];
            && i < |states[n].threads| == |states[n + 1].threads|
            && var pc, pc' := states[n].threads[i].pc, states[n + 1].threads[i].pc;
               && ((mv.Check? && !mv.vhost) || (mv.Clear? && !mv.ok) || (mv.Ioctl? && !mv.ok) || (mv.Lookup? && !mv.ok) ==>
                     pc' == Leaving(Err))
               && (mv.Unlock? ==> pc.Leaving? && pc' == Returned(pc.r))
  {
    assert Enabled(states[n], moves[n]) && states[n + 1] == Next(states[n], moves[n]);
  }

  /** Thread `i` found, in the call it is in at `n`, that its file is /dev/vhost-net. */
  ghost predicate CheckedFile(states: seq<State>, moves: seq<Move>, m: nat, n: nat, i: nat)
    requires |states| == |moves| + 1 && m < n <= |moves|
  {
    && i < |states[m].threads| && i < |states[n].threads| && moves[m] == Check(i, true)
    && states[m].threads[i].call == states[n].threads[i].call && states[m].threads[i].file == states[n].threads[i].file
  }

  /** The ioctl is only ever made on a file that the same call found to be /dev/vhost-net. */
  lemma {:induction false} ProbesVhostOnly(states: seq<State>, moves: seq<Move>, n: nat, i: nat)
    requires IsRun(states, moves) && n <= |moves| && i < |states[n].threads|
    requires states[n].threads[i].pc.Clearing? || states[n].threads[i].pc.Probing?
    ensures exists m: nat :: m < n && CheckedFile(states, moves, m, n, i)
  {
    AlwaysExclusive(states, moves, n);
    AlwaysExclusive(states, moves, n - 1);
    var mv := moves[n - 1];
    assert Enabled(states[n - 1], mv) && states[n] == Next(states[n - 1], mv);
    if mv == Check(i, true) {
      assert CheckedFile(states, moves, n - 1, n, i);
    } else {
      ProbesVhostOnly(states, moves, n - 1, i);
      var m: nat :| m < n - 1 && CheckedFile(states, moves, m, n - 1, i);
      assert CheckedFile(states, moves, m, n, i);
    }
  }

  /** The channel never gets stuck: whoever holds the mutex can move, and a waiting thread can take it when it is free. */
  lemma NeverStuck(states: seq<State>, moves: seq<Move>, n: nat, i: nat)
    requires IsRun(states, moves) && n <= |moves| && i < |states[n].threads|
    ensures Inside(states[n].threads[i].pc) ==> exists mv: Move :: !mv.Change? && mv.i == i && Enabled(states[n], mv)
    ensures states[n].threads[i].pc.Waiting? && states[n].holder.None? ==> Enabled(states[n], Lock(i))
  {
    var s := states[n];
    assert s.threads[i].pc.Checking? ==> Enabled(s, Check(i, true));
    assert s.threads[i].pc.Clearing? ==> Enabled(s, Clear(i, true));
    assert s.threads[i].pc.Probing? ==> Enabled(s, Ioctl(i, true, 1));
    assert s.threads[i].pc.Reading? ==> Enabled(s, Lookup(i, true));
    assert s.threads[i].pc.Leaving? ==> Enabled(s, Unlock(i));
  }
}
