/** Target selection (internal/selection/selection.go): explicit PIDs anchored to a process generation, and
    running libvirt domains. */
module Selection {
  import opened Words

  datatype Target = Target(pid: int, start: string, domain: string, uuid: string)

  /** What /proc says about a QEMU process: its start time and its lower-cased UUID argument. */
  datatype Process = Process(start: string, uuid: string)

  // ----- Keys

  function Digit(d: nat): char
    requires d < 10
  {
    "0123456789"[d]
  }

  function Decimal(n: nat): (s: string)
    ensures s != [] && ':' !in s
  {
    if n < 10 then [Digit(n)] else Decimal(n / 10) + [Digit(n % 10)]
  }

  function Key(t: Target): string
    requires t.pid > 0
  {
    Decimal(t.pid) + ":" + t.start
  }

  lemma {:induction false} DecimalInjective(m: nat, n: nat)
    requires Decimal(m) == Decimal(n)
    ensures m == n
    decreases m + n
  {
    var a, b := Decimal(m), Decimal(n);
    assert a[|a| - 1] == Digit(m % 10) && b[|b| - 1] == Digit(n % 10);
    assert (|a| == 1 <==> m < 10) && (|b| == 1 <==> n < 10);
    if m >= 10 {
      assert a[..|a| - 1] == Decimal(m / 10) && b[..|b| - 1] == Decimal(n / 10);
      DecimalInjective(m / 10, n / 10);
    }
  }

  lemma SplitAtColon(a: string, b: string, x: string, y: string)
    requires ':' !in a && ':' !in b && a + ":" + x == b + ":" + y
    ensures a == b && x == y
  {
    var l, r := a + ":" + x, b + ":" + y;
    assert l[|a|] == ':' && r[|b|] == ':';
    assert forall i :: 0 <= i < |a| ==> l[i] == a[i] && l[i] != ':';
    assert forall i :: 0 <= i < |b| ==> r[i] == b[i] && r[i] != ':';
    assert |a| == |b|;
    assert a == l[..|a|] && b == r[..|b|];
    assert x == l[|a| + 1..] && y == r[|b| + 1..];
  }

  /** Two targets have the same key exactly when they are the same process generation. */
  lemma KeyExact(t: Target, u: Target)
    requires t.pid > 0 && u.pid > 0
    ensures Key(t) == Key(u) <==> t.pid == u.pid && t.start == u.start
  {
    if Key(t) == Key(u) {
      SplitAtColon(Decimal(t.pid), Decimal(u.pid), t.start, u.start);
      DecimalInjective(t.pid, u.pid);
    }
  }

  // ----- Resolve

  /** One libvirt runtime file: skipped when it is not an XML file, unreadable when `status` is None. `running`
      and `matches` are the state and the regular expression; `process` is what /proc says when it is asked. */
  datatype Domain = Domain(name: string, running: bool, matches: bool, pid: int, uuid: string, process: Option<Process>)

  datatype Entry = Skipped | Unreadable | Readable(d: Domain)

  /** Everything one Resolve call observes: one answer per explicit PID, and the directory if it is consulted. */
  datatype Observation = Observation(processes: seq<Option<Process>>, directory: Option<seq<Entry>>)

  datatype Outcome = Resolved(targets: seq<Target>, problems: nat) | Failed(problems: nat)

  /** An explicit PID is accepted when its process exists and is the generation it was first seen as. */
  predicate Accepts(anchored: map<int, string>, pid: int, p: Option<Process>) {
    p.Some? && (pid in anchored ==> anchored[pid] == p.value.start)
  }

  /** readDomain refuses files without a name or a positive PID; a match must be running, alive and carry the
      UUID of the process. */
  predicate Admits(e: Entry) {
    && e.Readable? && e.d.name != "" && e.d.pid > 0 && e.d.matches && e.d.running
    && e.d.process.Some? && e.d.uuid != "" && e.d.process.value.uuid == e.d.uuid
  }

  predicate Complains(e: Entry) {
    match e
    case Skipped => false
    case Unreadable => true
    case Readable(d) => d.name == "" || d.pid <= 0 || (d.matches && d.running && !Admits(e))
  }

  datatype Search = Search(anchored: map<int, string>, found: map<int, Target>, problems: nat)

  /** The explicit PIDs, in order. */
  function Explicit(anchored: map<int, string>, pids: seq<int>, ps: seq<Option<Process>>): Search
    requires |ps| == |pids|
  {
    if pids == [] then Search(anchored, map[], 0)
    else
      var n := |pids| - 1;
      var s := Explicit(anchored, pids[..n], ps[..n]);
      if Accepts(s.anchored, pids[n], ps[n]) then
        var p := ps[n].value;
        Search(s.anchored[pids[n] := p.start], s.found[pids[n] := Target(pids[n], p.start, "", p.uuid)], s.problems)
      else s.(problems := s.problems + 1)
  }

  function DomainTarget(d: Domain): Target
    requires d.process.Some?
  {
    Target(d.pid, d.process.value.start, d.name, d.process.value.uuid)
  }

  /** The runtime files, in order; a domain overrides an explicit PID. */
  function Matched(s: Search, entries: seq<Entry>): Search {
    if entries == [] then s
    else
      var n := |entries| - 1;
      var s' := Matched(s, entries[..n]);
      if Admits(entries[n]) then s'.(found := s'.found[entries[n].d.pid := DomainTarget(entries[n].d)])
      else if Complains(entries[n]) then s'.(problems := s'.problems + 1)
      else s'
  }

  predicate Increasing(ts: seq<Target>) {
    forall i, j :: 0 <= i < j < |ts| ==> ts[i].pid < ts[j].pid
  }

  /** The sorted list of what was found. */
  predicate Lists(ts: seq<Target>, found: map<int, Target>) {
    && Increasing(ts)
    && (forall i :: 0 <= i < |ts| ==> ts[i].pid in found && found[ts[i].pid] == ts[i])
    && (forall pid :: pid in found ==> found[pid] in ts)
  }

  predicate Keyed(found: map<int, Target>) {
    forall pid :: pid in found ==> found[pid].pid == pid
  }

  class Selector {
    const pids: seq<int>
    const pattern: bool
    var anchored: map<int, string>

    constructor (pids: seq<int>, pattern: bool)
      ensures this.pids == pids && this.pattern == pattern && anchored == map[]
    {
      this.pids, this.pattern, anchored := pids, pattern, map[];
    }

    /** The anchors move with the explicit PIDs; the result lists, by increasing PID, exactly what was found. */
    method Resolve(o: Observation) returns (r: Outcome)
      requires |o.processes| == |pids|
      modifies this
      ensures anchored == Explicit(old(anchored), pids, o.processes).anchored
      ensures var s := Explicit(old(anchored), pids, o.processes);
              if pattern && o.directory.None? then r == Failed(s.problems)
              else
                var all := if pattern then Matched(s, o.directory.value) else s;
                r.Resolved? && r.problems == all.problems && Lists(r.targets, all.found)
    {
      var found: map<int, Target>, problems := map[], 0;
      for i := 0 to |pids|
        invariant Keyed(found)
        invariant Search(anchored, found, problems) == Explicit(old(anchored), pids[..i], o.processes[..i])
      {
        var pid, p := pids[i], o.processes[i];
        assert pids[..i + 1][..i] == pids[..i] && o.processes[..i + 1][..i] == o.processes[..i];
        if p.None? {
          problems := problems + 1;
        } else if pid in anchored && anchored[pid] != p.value.start {
          problems := problems + 1;
        } else {
          anchored := anchored[pid := p.value.start];
          found := found[pid := Target(pid, p.value.start, "", p.value.uuid)];
        }
      }
      assert pids[..|pids|] == pids && o.processes[..|pids|] == o.processes;
      if pattern {
        if o.directory.None? {
          return Failed(problems);
        }
        found, problems := MatchDomains(o.directory.value, Search(anchored, found, problems));
      }
      var targets := Sort(found);
      r := Resolved(targets, problems);
    }

    method MatchDomains(entries: seq<Entry>, s: Search) returns (found: map<int, Target>, problems: nat)
      requires Keyed(s.found)
      ensures Keyed(found) && s.(found := found, problems := problems) == Matched(s, entries)
    {
      found, problems := s.found, s.problems;
      for i := 0 to |entries|
        invariant Keyed(found)
        invariant s.(found := found, problems := problems) == Matched(s, entries[..i])
      {
        var e := entries[i];
        assert entries[..i + 1][..i] == entries[..i];
        if e.Skipped? {
          continue;
        }
        if e.Unreadable? || e.d.name == "" || e.d.pid <= 0 {
          problems := problems + 1;
          continue;
        }
        if !e.d.matches || !e.d.running {
          continue;
        }
        if e.d.process.None? || e.d.uuid == "" || e.d.process.value.uuid != e.d.uuid {
          problems := problems + 1;
          continue;
        }
        var p := e.d.process.value;
        found := found[e.d.pid := Target(e.d.pid, p.start, e.d.name, p.uuid)];
      }
      assert entries[..|entries|] == entries;
    }

    /** Collects the map in whatever order it is iterated and sorts by PID. */
    method Sort(found: map<int, Target>) returns (ts: seq<Target>)
      requires Keyed(found)
      ensures Lists(ts, found)
    {
      ts := [];
      var rest := found.Keys;
      while rest != {}
        invariant rest <= found.Keys && Increasing(ts)
        invariant forall t :: t in ts ==> t.pid in found && t.pid !in rest && found[t.pid] == t
        invariant forall pid :: pid in found && pid !in rest ==> found[pid] in ts
        decreases rest
      {
        Inhabited(rest);
        var pid :| pid in rest;
        rest := rest - {pid};
        ts := Insert(ts, found[pid]);
      }
    }

    method Insert(ts: seq<Target>, t: Target) returns (r: seq<Target>)
      requires Increasing(ts) && forall i :: 0 <= i < |ts| ==> ts[i].pid != t.pid
      ensures Increasing(r)
      ensures forall x :: x in r <==> x == t || x in ts
    {
      var k := 0;
      while k < |ts| && ts[k].pid < t.pid
        invariant 0 <= k <= |ts| && forall i :: 0 <= i < k ==> ts[i].pid < t.pid
      {
        k := k + 1;
      }
      r := ts[..k] + [t] + ts[k..];
      assert ts == ts[..k] + ts[k..];
    }
  }

  /** New: refuses an empty selection, a nonpositive PID and a pattern that does not compile. `compiles` is the
      outcome of compiling the pattern, None when none is given. */
  method NewSelector(pids: seq<int>, compiles: Option<bool>) returns (r: Selector?)
    ensures r == null <==> (pids == [] && compiles.None?) || (exists pid :: pid in pids && pid <= 0)
                           || compiles == Some(false)
    ensures r != null ==> fresh(r) && r.pids == pids && r.pattern == compiles.Some? && r.anchored == map[]
  {
    if pids == [] && compiles.None? {
      return null;
    }
    for i := 0 to |pids|
      invariant forall k :: 0 <= k < i ==> pids[k] > 0
    {
      if pids[i] <= 0 {
        assert pids[i] in pids;
        return null;
      }
    }
    if compiles == Some(false) {
      return null;
    }
    r := new Selector(pids, compiles.Some?);
  }

  // ----- Every sequence of calls

  /** An anchor, once set, keeps its start time; every found explicit target carries its anchor. */
  lemma {:induction false} ExplicitAnchors(anchored: map<int, string>, pids: seq<int>, ps: seq<Option<Process>>)
    requires |ps| == |pids|
    ensures var s := Explicit(anchored, pids, ps);
            && (forall pid :: pid in anchored ==> pid in s.anchored && s.anchored[pid] == anchored[pid])
            && (forall pid :: pid in s.found ==>
                  pid in pids && pid in s.anchored && s.found[pid].pid == pid && s.found[pid].start == s.anchored[pid])
            && s.problems <= |pids|
  {
    if pids != [] {
      var n := |pids| - 1;
      ExplicitAnchors(anchored, pids[..n], ps[..n]);
    }
  }

  /** Reading `k` accepts `pid`, judged by the anchors before the call. */
  predicate AcceptedBy(anchored: map<int, string>, pids: seq<int>, ps: seq<Option<Process>>, pid: int, k: nat)
    requires |ps| == |pids|
  {
    k < |pids| && pids[k] == pid && ps[k].Some? && (pid in anchored ==> ps[k].value.start == anchored[pid])
  }

  /** The explicit phase finds exactly the PIDs that some reading accepts, each as one such reading observed it;
      a PID without anchor gets one exactly when it is found. PIDs may repeat. */
  lemma {:induction false} ExplicitExact(anchored: map<int, string>, pids: seq<int>, ps: seq<Option<Process>>, pid: int)
    requires |ps| == |pids|
    ensures var s := Explicit(anchored, pids, ps);
            && (pid in s.found <==> exists k: nat :: AcceptedBy(anchored, pids, ps, pid, k))
            && (pid in s.anchored <==> pid in anchored || pid in s.found)
            && (pid in s.found ==>
                  exists k: nat ::
                    && AcceptedBy(anchored, pids, ps, pid, k)
                    && s.found[pid] == Target(pid, ps[k].value.start, "", ps[k].value.uuid))
  {
    if pids != [] {
      var n := |pids| - 1;
      var s, s' := Explicit(anchored, pids[..n], ps[..n]), Explicit(anchored, pids, ps);
      ExplicitExact(anchored, pids[..n], ps[..n], pid);
      ExplicitAnchors(anchored, pids[..n], ps[..n]);
      assert forall k: nat :: k < n ==>
          (AcceptedBy(anchored, pids, ps, pid, k) <==> AcceptedBy(anchored, pids[..n], ps[..n], pid, k));
      if pid in s.found && s'.found[pid] == s.found[pid] {
        var k: nat :| AcceptedBy(anchored, pids[..n], ps[..n], pid, k)
                      && s.found[pid] == Target(pid, ps[k].value.start, "", ps[k].value.uuid);
        assert AcceptedBy(anchored, pids, ps, pid, k);
      } else if pid in s'.found {
        assert AcceptedBy(anchored, pids, ps, pid, n);
      }
    }
  }

  /** Reading `k` shows `pid` as the process it is anchored to. */
  predicate Confirms(anchors: map<int, string>, pids: seq<int>, ps: seq<Option<Process>>, pid: int, k: nat)
    requires |ps| == |pids|
  {
    k < |pids| && pids[k] == pid && ps[k].Some? && pid in anchors && anchors[pid] == ps[k].value.start
  }

  /** How many readings show nothing or another process than the anchored one. */
  function Refusals(anchors: map<int, string>, pids: seq<int>, ps: seq<Option<Process>>): nat
    requires |ps| == |pids|
  {
    if pids == [] then 0
    else
      var n := |pids| - 1;
      Refusals(anchors, pids[..n], ps[..n]) + if Confirms(anchors, pids, ps, pids[n], n) then 0 else 1
  }

  /** Later anchors do not change the count, once every PID that was seen has its anchor. */
  lemma {:induction false} RefusalsKept(anchors: map<int, string>, later: map<int, string>, pids: seq<int>,
                                        ps: seq<Option<Process>>)
    requires |ps| == |pids| && (forall k :: 0 <= k < |pids| && ps[k].Some? ==> pids[k] in anchors)
    requires forall pid :: pid in anchors ==> pid in later && later[pid] == anchors[pid]
    ensures Refusals(later, pids, ps) == Refusals(anchors, pids, ps)
  {
    if pids != [] {
      var n := |pids| - 1;
      RefusalsKept(anchors, later, pids[..n], ps[..n]);
    }
  }

  /** Every PID that was seen is anchored, and each reading that does not show its anchor is a problem. */
  lemma {:induction false} ExplicitProblems(anchored: map<int, string>, pids: seq<int>, ps: seq<Option<Process>>)
    requires |ps| == |pids|
    ensures var s := Explicit(anchored, pids, ps);
            && (forall k :: 0 <= k < |pids| && ps[k].Some? ==> pids[k] in s.anchored)
            && s.problems == Refusals(s.anchored, pids, ps)
  {
    if pids != [] {
      var n := |pids| - 1;
      var s, s' := Explicit(anchored, pids[..n], ps[..n]), Explicit(anchored, pids, ps);
      ExplicitProblems(anchored, pids[..n], ps[..n]);
      assert forall k :: 0 <= k < n ==> pids[..n][k] == pids[k] && ps[..n][k] == ps[k];
      RefusalsKept(s.anchored, s'.anchored, pids[..n], ps[..n]);
    }
  }

  /** Reading `k` shows the anchored process, and no reading of the PID before it shows any. */
  predicate FirstReading(anchors: map<int, string>, pids: seq<int>, ps: seq<Option<Process>>, pid: int, k: nat)
    requires |ps| == |pids|
  {
    Confirms(anchors, pids, ps, pid, k) && forall j :: 0 <= j < k && pids[j] == pid ==> ps[j].None?
  }

  /** Reading `k` is the last that shows the anchored process. */
  predicate LastReading(anchors: map<int, string>, pids: seq<int>, ps: seq<Option<Process>>, pid: int, k: nat)
    requires |ps| == |pids|
  {
    Confirms(anchors, pids, ps, pid, k) && forall j :: k < j < |pids| ==> !Confirms(anchors, pids, ps, pid, j)
  }

  lemma ReadingsKept(anchors: map<int, string>, later: map<int, string>, pids: seq<int>, ps: seq<Option<Process>>,
                     pid: int, k: nat)
    requires |ps| == |pids| > 0 && k < |pids| - 1 && pid in anchors && pid in later && anchors[pid] == later[pid]
    ensures var n := |pids| - 1;
            && (Confirms(later, pids, ps, pid, k) <==> Confirms(anchors, pids[..n], ps[..n], pid, k))
            && (FirstReading(later, pids, ps, pid, k) <==> FirstReading(anchors, pids[..n], ps[..n], pid, k))
  {
    var n := |pids| - 1;
    assert forall j :: 0 <= j < n ==> pids[..n][j] == pids[j] && ps[..n][j] == ps[j];
  }

  /** A PID is anchored to the first process that was ever read for it. */
  lemma {:induction false} AnchoredToFirst(anchored: map<int, string>, pids: seq<int>, ps: seq<Option<Process>>, pid: int)
    requires |ps| == |pids| && pid in Explicit(anchored, pids, ps).anchored && pid !in anchored
    ensures exists k: nat :: FirstReading(Explicit(anchored, pids, ps).anchored, pids, ps, pid, k)
  {
    var n := |pids| - 1;
    var s, s' := Explicit(anchored, pids[..n], ps[..n]), Explicit(anchored, pids, ps);
    ExplicitAnchors(anchored, pids[..n], ps[..n]);
    if pid in s.anchored {
      AnchoredToFirst(anchored, pids[..n], ps[..n], pid);
      var k: nat :| FirstReading(s.anchored, pids[..n], ps[..n], pid, k);
      ReadingsKept(s.anchored, s'.anchored, pids, ps, pid, k);
    } else {
      ExplicitProblems(anchored, pids[..n], ps[..n]);
      assert forall k :: 0 <= k < n ==> pids[..n][k] == pids[k] && ps[..n][k] == ps[k];
      assert FirstReading(s'.anchored, pids, ps, pid, n);
    }
  }

  /** A PID is found as the last reading that showed its anchored process. */
  lemma {:induction false} FoundAsLast(anchored: map<int, string>, pids: seq<int>, ps: seq<Option<Process>>, pid: int)
    returns (k: nat)
    requires |ps| == |pids| && pid in Explicit(anchored, pids, ps).found
    ensures var s := Explicit(anchored, pids, ps);
            && LastReading(s.anchored, pids, ps, pid, k)
            && s.found[pid] == Target(pid, ps[k].value.start, "", ps[k].value.uuid)
  {
    var n := |pids| - 1;
    var s, s' := Explicit(anchored, pids[..n], ps[..n]), Explicit(anchored, pids, ps);
    if Confirms(s'.anchored, pids, ps, pid, n) {
      k := n;
    } else {
      k := FoundAsLast(anchored, pids[..n], ps[..n], pid);
      forall j: nat | j < n
        ensures Confirms(s'.anchored, pids, ps, pid, j) <==> Confirms(s.anchored, pids[..n], ps[..n], pid, j)
      {
        ReadingsKept(s.anchored, s'.anchored, pids, ps, pid, j);
      }
    }
  }

  /** The runtime file of a running domain that matches the pattern names this target: its PID, its name, and the UUID
      that the process itself carries, with the start time of that process. */
  predicate Vouches(e: Entry, t: Target) {
    && e.Readable? && e.d.matches && e.d.running && e.d.process.Some?
    && e.d.name == t.domain != "" && e.d.pid == t.pid > 0
    && e.d.uuid == t.uuid == e.d.process.value.uuid != "" && e.d.process.value.start == t.start
  }

  lemma AdmitsExact(e: Entry, t: Target)
    ensures Vouches(e, t) <==> Admits(e) && t == DomainTarget(e.d)
  {
  }

  /** What counts as a problem: a file that cannot be read, names no domain or no process, or whose running, matching
      domain has no process with its UUID. */
  function Problems(entries: seq<Entry>): nat {
    if entries == [] then 0
    else
      var n := |entries| - 1;
      Problems(entries[..n]) +
      match entries[n]
      case Skipped => 0
      case Unreadable => 1
      case Readable(d) =>
        if d.name == "" || d.pid <= 0 then 1
        else if d.matches && d.running && (d.process.None? || d.uuid == "" || d.process.value.uuid != d.uuid) then 1
        else 0
  }

  lemma {:induction false} ProblemsCounted(s: Search, entries: seq<Entry>)
    ensures Matched(s, entries).problems == s.problems + Problems(entries)
  {
    if entries != [] {
      ProblemsCounted(s, entries[..|entries| - 1]);
    }
  }

  /** Some target of this PID is named by entry `e`. */
  predicate Names(e: Entry, pid: int) {
    Admits(e) && e.d.pid == pid
  }

  lemma NamesExact(e: Entry, pid: int)
    ensures Names(e, pid) <==> exists t: Target :: Vouches(e, t) && t.pid == pid
  {
    if Names(e, pid) {
      AdmitsExact(e, DomainTarget(e.d));
      assert Vouches(e, DomainTarget(e.d));
    }
    forall t: Target | Vouches(e, t) ensures Admits(e) && t == DomainTarget(e.d) {
      AdmitsExact(e, t);
    }
  }

  /** Entry `k` is the last that names the PID, and it names this target. */
  predicate LastNaming(entries: seq<Entry>, pid: int, t: Target, k: nat) {
    k < |entries| && Vouches(entries[k], t) && t.pid == pid && forall j :: k < j < |entries| ==> !Names(entries[j], pid)
  }

  /** A PID is found as the last runtime file that names it says; one that no file names, as the explicit phase
      left it. */
  lemma {:induction false} MatchedExact(s: Search, entries: seq<Entry>, pid: int)
    ensures var s' := Matched(s, entries);
            && s'.anchored == s.anchored
            && if forall k :: 0 <= k < |entries| ==> !Names(entries[k], pid) then
                 (pid in s'.found <==> pid in s.found) && (pid in s.found ==> s'.found[pid] == s.found[pid])
               else
                 pid in s'.found && exists k: nat :: LastNaming(entries, pid, s'.found[pid], k)
  {
    if entries != [] {
      var n := |entries| - 1;
      MatchedExact(s, entries[..n], pid);
      assert forall k :: 0 <= k < n ==> entries[..n][k] == entries[k];
      var s', s'' := Matched(s, entries[..n]), Matched(s, entries);
      if Names(entries[n], pid) {
        AdmitsExact(entries[n], DomainTarget(entries[n].d));
        assert LastNaming(entries, pid, s''.found[pid], n);
      } else if exists k :: 0 <= k < n && Names(entries[..n][k], pid) {
        var k: nat :| LastNaming(entries[..n], pid, s'.found[pid], k);
        assert LastNaming(entries, pid, s''.found[pid], k);
      }
    }
  }

  /** The life of a selector: what it was made for, the anchors it started with, and what its calls observed. */
  datatype History = History(initial: map<int, string>, pids: seq<int>, pattern: bool, calls: seq<Observation>)

  /** Every call got one answer per explicit PID. */
  predicate Answered(h: History) {
    forall k :: 0 <= k < |h.calls| ==> |h.calls[k].processes| == |h.pids|
  }

  /** The anchors after the first `n` calls. */
  function AnchorsAfter(h: History, n: nat): map<int, string>
    requires Answered(h) && n <= |h.calls|
  {
    if n == 0 then h.initial else Explicit(AnchorsAfter(h, n - 1), h.pids, h.calls[n - 1].processes).anchored
  }

  lemma {:induction false} AnchorsNeverMove(h: History, m: nat, n: nat)
    requires Answered(h) && m <= n <= |h.calls|
    ensures forall pid :: pid in AnchorsAfter(h, m) ==>
              pid in AnchorsAfter(h, n) && AnchorsAfter(h, n)[pid] == AnchorsAfter(h, m)[pid]
  {
    if m < n {
      AnchorsNeverMove(h, m, n - 1);
      ExplicitAnchors(AnchorsAfter(h, n - 1), h.pids, h.calls[n - 1].processes);
    }
  }

  /** Call `n` fails: a pattern is given and the runtime directory cannot be read. */
  predicate Unavailable(h: History, n: nat)
    requires n < |h.calls|
  {
    h.pattern && h.calls[n].directory.None?
  }

  /** What call `n` finds. */
  function FoundBy(h: History, n: nat): map<int, Target>
    requires Answered(h) && n < |h.calls|
  {
    var s := Explicit(AnchorsAfter(h, n), h.pids, h.calls[n].processes);
    if !h.pattern then s.found
    else if h.calls[n].directory.None? then map[]
    else Matched(s, h.calls[n].directory.value).found
  }

  /** A target that call `n` returns for a PID is justified by a running domain of that call. */
  predicate FromDomain(h: History, n: nat, t: Target)
    requires n < |h.calls|
  {
    && h.pattern && h.calls[n].directory.Some?
    && exists e :: e in h.calls[n].directory.value && Vouches(e, t)
  }

  /** Over any sequence of calls on changing process tables, explicit PIDs never follow reuse: two targets
      returned for one PID by two calls have the same start time, unless one of them was matched by a running
      domain with the UUID of its process. */
  lemma ExplicitPidsNeverFollowReuse(h: History, m: nat, n: nat, pid: int)
    requires Answered(h) && m <= n < |h.calls| && pid in FoundBy(h, m) && pid in FoundBy(h, n)
    ensures var t, u := FoundBy(h, m)[pid], FoundBy(h, n)[pid];
            t.start == u.start || FromDomain(h, m, t) || FromDomain(h, n, u)
  {
    FoundIsAnchored(h, m, pid);
    FoundIsAnchored(h, n, pid);
    AnchorsNeverMove(h, m + 1, n + 1);
  }

  lemma FoundIsAnchored(h: History, n: nat, pid: int)
    requires Answered(h) && n < |h.calls| && pid in FoundBy(h, n)
    ensures var t, anchors := FoundBy(h, n)[pid], AnchorsAfter(h, n + 1);
            t.pid == pid && (FromDomain(h, n, t) || (pid in h.pids && pid in anchors && t.start == anchors[pid]))
  {
    var s := Explicit(AnchorsAfter(h, n), h.pids, h.calls[n].processes);
    ExplicitAnchors(AnchorsAfter(h, n), h.pids, h.calls[n].processes);
    if h.pattern {
      MatchedExact(s, h.calls[n].directory.value, pid);
    }
  }

  /** One more call. */
  function Continued(h: History, o: Observation): History {
    h.(calls := h.calls + [o])
  }

  lemma {:induction false} AnchorsKept(h: History, o: Observation, n: nat)
    requires Answered(h) && |o.processes| == |h.pids| && n <= |h.calls|
    ensures AnchorsAfter(Continued(h, o), n) == AnchorsAfter(h, n)
  {
    if n > 0 {
      AnchorsKept(h, o, n - 1);
    }
  }

  /** Later calls change nothing about earlier ones. */
  lemma FoundKept(h: History, o: Observation, n: nat)
    requires Answered(h) && |o.processes| == |h.pids| && n < |h.calls|
    ensures FoundBy(Continued(h, o), n) == FoundBy(h, n)
    ensures forall t :: FromDomain(Continued(h, o), n, t) <==> FromDomain(h, n, t)
  {
    AnchorsKept(h, o, n);
  }

  /** The state and the result of one Resolve, as a call of the history. */
  lemma ResolveContinues(h: History, o: Observation)
    requires Answered(h) && |o.processes| == |h.pids|
    ensures var h', n, s := Continued(h, o), |h.calls|, Explicit(AnchorsAfter(h, |h.calls|), h.pids, o.processes);
            && AnchorsAfter(h', n + 1) == s.anchored
            && (!Unavailable(h', n) ==>
                  FoundBy(h', n) == (if h.pattern then Matched(s, o.directory.value) else s).found)
  {
    AnchorsKept(h, o, |h.calls|);
  }
}
