/** Rescue mode (internal/watch/run_linux.go, rescue): one unconditional verified kick per matching queue. */
module Rescue {
  import opened Words

  /** How the visit of one FD ends; a written kick may still fail to be logged. */
  datatype Reply = NoDuplicate | NoSnapshot | Refused | Written(logOk: bool)

  predicate Succeeds(r: Reply) {
    r.Written? && r.logOk
  }

  /** The listed FDs that `only` admits; a negative value admits all. */
  function Matching(vhosts: seq<int>, only: int): seq<int> {
    if vhosts == [] then []
    else
      var n := |vhosts| - 1;
      Matching(vhosts[..n], only) + if only >= 0 && only != vhosts[n] then [] else [vhosts[n]]
  }

  /** The FDs kicked, when visits stop at the first failure. */
  function Kicked(fds: seq<int>, replies: int -> Reply): (r: seq<int>)
    ensures r <= fds
  {
    if fds == [] then []
    else if Succeeds(replies(fds[0])) then
      var rest := Kicked(fds[1..], replies);
      assert [fds[0]] + rest <= [fds[0]] + fds[1..];
      [fds[0]] + rest
    else if replies(fds[0]).Written? then [fds[0]]
    else []
  }

  predicate AllSucceed(fds: seq<int>, replies: int -> Reply) {
    forall fd :: fd in fds ==> Succeeds(replies(fd))
  }

  /** Visits that all succeed are all kicked, and what follows them is kicked as if it stood alone. */
  lemma {:induction false} KickedAfter(fds: seq<int>, more: seq<int>, replies: int -> Reply)
    requires AllSucceed(fds, replies)
    ensures Kicked(fds + more, replies) == fds + Kicked(more, replies)
  {
    if fds == [] {
      assert fds + more == more && fds + Kicked(more, replies) == Kicked(more, replies);
    } else {
      var all, rest := fds + more, fds[1..];
      assert fds[0] in fds && all[0] == fds[0] && all[1..] == rest + more;
      KickedAfter(rest, more, replies);
      assert Kicked(all, replies) == [fds[0]] + Kicked(all[1..], replies);
      assert [fds[0]] + (rest + Kicked(more, replies)) == ([fds[0]] + rest) + Kicked(more, replies);
    }
  }

  lemma KickedAll(fds: seq<int>, replies: int -> Reply)
    requires AllSucceed(fds, replies)
    ensures Kicked(fds, replies) == fds
  {
    KickedAfter(fds, [], replies);
    assert fds + [] == fds;
  }

  /** A failed visit ends the walk, wherever in the list it stands. */
  lemma {:induction false} KickedUntil(fds: seq<int>, fd: int, rest: seq<int>, replies: int -> Reply)
    requires AllSucceed(fds, replies) && !Succeeds(replies(fd))
    ensures Kicked(fds + [fd] + rest, replies) == fds + if replies(fd).Written? then [fd] else []
  {
    assert fds + [fd] + rest == fds + ([fd] + rest);
    KickedAfter(fds, [fd] + rest, replies);
  }

  lemma {:induction false} MatchingSplits(a: seq<int>, b: seq<int>, only: int)
    ensures Matching(a + b, only) == Matching(a, only) + Matching(b, only)
  {
    if b == [] {
      assert a + b == a;
    } else {
      var n := |b| - 1;
      MatchingSplits(a, b[..n], only);
      assert (a + b)[..|a| + n] == a + b[..n];
    }
  }

  /** Without a choice all FDs match; otherwise only the chosen one, if it is listed. */
  lemma {:induction false} MatchingExact(vhosts: seq<int>, only: int)
    ensures only < 0 ==> Matching(vhosts, only) == vhosts
    ensures only >= 0 ==> forall fd :: fd in Matching(vhosts, only) <==> fd == only && fd in vhosts
  {
    if vhosts != [] {
      var n := |vhosts| - 1;
      MatchingExact(vhosts[..n], only);
      assert vhosts == vhosts[..n] + [vhosts[n]];
    }
  }

  /** The kicked FDs were all written and, but for the last, all logged. What follows them was not kicked, because the
      first of it could not be written or the last kick not logged. */
  lemma {:induction false} KickedExact(fds: seq<int>, replies: int -> Reply)
    ensures var r := Kicked(fds, replies);
            && r <= fds && (forall k :: 0 <= k < |r| ==> replies(r[k]).Written?)
            && (forall k :: 0 <= k < |r| - 1 ==> replies(r[k]).logOk)
            && (|r| < |fds| ==> !replies(fds[|r|]).Written? || (r != [] && !replies(r[|r| - 1]).logOk))
  {
    if fds != [] && Succeeds(replies(fds[0])) {
      KickedExact(fds[1..], replies);
      var r, rest := Kicked(fds, replies), Kicked(fds[1..], replies);
      assert r == [fds[0]] + rest;
      assert forall k :: 1 <= k < |r| ==> r[k] == rest[k - 1];
    }
  }

  predicate Admits(only: int, fd: int) {
    only < 0 || only == fd
  }

  /** The first `i` listed FDs have been dealt with, all successfully, starting from the kicks `before`. */
  ghost predicate Walked(vhosts: seq<int>, i: nat, only: int, replies: int -> Reply,
                         before: seq<int>, kicks: seq<int>, written: bool) {
    && i <= |vhosts|
    && var done := Matching(vhosts[..i], only);
       AllSucceed(done, replies) && kicks == before + done && (written <==> done != [])
  }

  lemma WalkContinues(vhosts: seq<int>, i: nat, only: int, replies: int -> Reply,
                      before: seq<int>, kicks: seq<int>, written: bool)
    requires i < |vhosts| && Walked(vhosts, i, only, replies, before, kicks, written)
    ensures !Admits(only, vhosts[i]) ==> Walked(vhosts, i + 1, only, replies, before, kicks, written)
    ensures Admits(only, vhosts[i]) && Succeeds(replies(vhosts[i])) ==>
              Walked(vhosts, i + 1, only, replies, before, kicks + [vhosts[i]], true)
  {
    assert vhosts[..i + 1][..i] == vhosts[..i];
  }

  lemma WalkStops(vhosts: seq<int>, i: nat, only: int, replies: int -> Reply,
                  before: seq<int>, kicks: seq<int>, written: bool)
    requires i < |vhosts| && Walked(vhosts, i, only, replies, before, kicks, written)
    requires Admits(only, vhosts[i]) && !Succeeds(replies(vhosts[i]))
    ensures !AllSucceed(Matching(vhosts, only), replies)
    ensures before + Kicked(Matching(vhosts, only), replies) ==
            kicks + if replies(vhosts[i]).Written? then [vhosts[i]] else []
  {
    var fd, done, rest := vhosts[i], Matching(vhosts[..i], only), Matching(vhosts[i + 1..], only);
    assert Matching(vhosts, only) == done + [fd] + rest by {
      assert vhosts[..i + 1][..i] == vhosts[..i] && vhosts == vhosts[..i + 1] + vhosts[i + 1..];
      MatchingSplits(vhosts[..i + 1], vhosts[i + 1..], only);
    }
    KickedUntil(done, fd, rest, replies);
    var last := if replies(fd).Written? then [fd] else [];
    assert before + (done + last) == (before + done) + last;
    assert fd in done + [fd] + rest;
  }

  class Rescuer {
    /** The remote FDs of which the agent holds a duplicate. */
    var open: multiset<int>
    /** The FDs kicked so far. */
    var kicks: seq<int>

    constructor ()
      ensures open == multiset{} && kicks == []
    {
      open, kicks := multiset{}, [];
    }

    /** One FD; the duplicate is closed whichever call fails. */
    method Visit(fd: int, reply: Reply) returns (ok: bool)
      modifies this
      ensures open == old(open) && ok == Succeeds(reply)
      ensures kicks == if reply.Written? then old(kicks) + [fd] else old(kicks)
    {
      if reply.NoDuplicate? {
        return false;
      }
      open := open + multiset{fd};
      ok := false;
      if reply.Written? {
        kicks := kicks + [fd];
        ok := reply.logOk;
      }
      open := open - multiset{fd};
    }

    /** The matching FDs are kicked in order until the first failure. It succeeds exactly when the inventory does,
        some FD matches and every visit succeeds; and no duplicate stays open. */
    method Run(only: int, inventory: Option<seq<int>>, replies: int -> Reply) returns (ok: bool)
      modifies this
      ensures open == old(open)
      ensures inventory.None? ==> !ok && kicks == old(kicks)
      ensures inventory.Some? ==>
                var fds := Matching(inventory.value, only);
                kicks == old(kicks) + Kicked(fds, replies) && (ok <==> fds != [] && AllSucceed(fds, replies))
    {
      if inventory.None? {
        return false;
      }
      var vhosts, written := inventory.value, false;
      for i := 0 to |vhosts|
        invariant open == old(open) && Walked(vhosts, i, only, replies, old(kicks), kicks, written)
      {
        var fd := vhosts[i];
        WalkContinues(vhosts, i, only, replies, old(kicks), kicks, written);
        if only >= 0 && only != fd {
          continue;
        }
        ghost var was := kicks;
        var visited := Visit(fd, replies(fd));
        if !visited {
          WalkStops(vhosts, i, only, replies, old(kicks), was, written);
          return false;
        }
        written := true;
      }
      assert vhosts[..|vhosts|] == vhosts;
      KickedAll(Matching(vhosts, only), replies);
      ok := written;
    }
  }
}
