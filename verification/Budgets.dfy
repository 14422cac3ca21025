/** The recovery budget of one FD slot: the cooldown and sliding-window half of Detector
    (internal/watch/model.go). */
module Budgets {
  import opened Words

  const WINDOW := 3600.0

  datatype Budget = Budget(lastKick: Stamp, attempts: seq<real>)

  const FRESH := Budget(NegInf, [])

  datatype Limits = Limits(cooldown: real, maximum: nat)

  /** Config.Validate admits only positive limits. */
  predicate Proper(l: Limits) {
    l.cooldown > 0.0 && l.maximum > 0
  }

  /** The attempts that still count against the window at `now`, in order. */
  function Prune(attempts: seq<real>, now: real): seq<real> {
    if attempts == [] then []
    else
      var last := attempts[|attempts| - 1];
      var kept := Prune(attempts[..|attempts| - 1], now);
      if now - last < WINDOW then kept + [last] else kept
  }

  /** The state half of Allowed: expired attempts are dropped whatever the answer. */
  function Pruned(b: Budget, now: real): Budget {
    b.(attempts := Prune(b.attempts, now))
  }

  /** The answer half of Allowed. */
  predicate Allowed(b: Budget, now: real, l: Limits) {
    Elapsed(b.lastKick, now, l.cooldown) && |Prune(b.attempts, now)| < l.maximum
  }

  function Kicked(b: Budget, now: real): Budget {
    Budget(At(now), b.attempts + [now])
  }

  // ----- What the limits mean

  /** Any two kicks are a cooldown apart, and any `maximum + 1` of them span an hour: every span shorter than
      3600 s holds at most `maximum`. */
  ghost predicate WithinLimits(ks: seq<real>, l: Limits) {
    && (forall i, j :: 0 <= i < j < |ks| ==> ks[j] - ks[i] >= l.cooldown)
    && (forall i :: 0 <= i < |ks| - l.maximum ==> ks[i + l.maximum] - ks[i] >= 3600.0)
  }

  /** The budget remembers a suffix of the kicks; the forgotten ones left the window by `seen`. */
  ghost predicate Tracks(b: Budget, ks: seq<real>, seen: real) {
    && (b.lastKick == if ks == [] then NegInf else At(ks[|ks| - 1]))
    && (forall i, j :: 0 <= i <= j < |ks| ==> ks[i] <= ks[j])
    && (forall i :: 0 <= i < |ks| ==> ks[i] <= seen)
    && |b.attempts| <= |ks|
    && b.attempts == ks[|ks| - |b.attempts|..]
    && (forall i :: 0 <= i < |ks| - |b.attempts| ==> seen - ks[i] >= WINDOW)
  }

  /** On ordered times pruning drops a prefix: what is kept is exactly the young suffix. */
  lemma {:induction false} PruneIsSuffix(ts: seq<real>, now: real)
    requires forall i, j :: 0 <= i <= j < |ts| ==> ts[i] <= ts[j]
    ensures |Prune(ts, now)| <= |ts|
    ensures Prune(ts, now) == ts[|ts| - |Prune(ts, now)|..]
    ensures forall i :: 0 <= i < |ts| ==> (now - ts[i] < WINDOW <==> i >= |ts| - |Prune(ts, now)|)
  {
    if ts != [] {
      var init, last := ts[..|ts| - 1], ts[|ts| - 1];
      PruneIsSuffix(init, now);
      if now - last < WINDOW {
        assert Prune(ts, now) == ts[|ts| - |Prune(ts, now)|..];
      } else {
        forall i | 0 <= i < |init| ensures now - init[i] >= WINDOW {
          assert ts[i] <= last;
        }
        assert init != [] ==> now - init[|init| - 1] >= WINDOW;
      }
    }
  }

  lemma PruneTracks(b: Budget, ks: seq<real>, seen: real, now: real)
    requires Tracks(b, ks, seen) && seen <= now
    ensures Tracks(Pruned(b, now), ks, now)
  {
    var d := |ks| - |b.attempts|;
    PruneIsSuffix(b.attempts, now);
    var kept := Prune(b.attempts, now);
    assert kept == ks[|ks| - |kept|..];
    forall i | 0 <= i < |ks| - |kept| ensures now - ks[i] >= WINDOW {
      if i >= d {
        assert ks[i] == b.attempts[i - d];
      }
    }
  }

  lemma AllowedKeepsLimits(b: Budget, ks: seq<real>, seen: real, now: real, l: Limits)
    requires Proper(l) && Tracks(b, ks, seen) && seen <= now && WithinLimits(ks, l) && Allowed(b, now, l)
    ensures WithinLimits(ks + [now], l)
  {
    RecentExact(b, ks, seen, now);
    var more, n := ks + [now], |ks|;
    forall i, j | 0 <= i < j < |more| ensures more[j] - more[i] >= l.cooldown {
      assert j == n ==> ks[i] <= ks[n - 1];
    }
    forall i | 0 <= i < |more| - l.maximum ensures more[i + l.maximum] - more[i] >= WINDOW {
      assert i + l.maximum == n ==> now - ks[i] >= WINDOW;
    }
  }

  lemma LimitsAllow(b: Budget, ks: seq<real>, seen: real, now: real, l: Limits)
    requires Proper(l) && Tracks(b, ks, seen) && seen <= now && WithinLimits(ks + [now], l)
    ensures Allowed(b, now, l)
  {
    RecentExact(b, ks, seen, now);
    var more, n := ks + [now], |ks|;
    assert n > 0 ==> more[n] - more[n - 1] >= l.cooldown;
    if n >= l.maximum {
      assert more[n - l.maximum + l.maximum] - more[n - l.maximum] >= WINDOW;
      assert more[n - l.maximum] == ks[n - l.maximum];
    }
  }

  /** The budget allows a kick at `now` exactly when one more kick keeps the limits: it neither
      overspends nor refuses a kick the limits permit. */
  lemma AllowedExact(b: Budget, ks: seq<real>, seen: real, now: real, l: Limits)
    requires Proper(l) && Tracks(b, ks, seen) && seen <= now && WithinLimits(ks, l)
    ensures Allowed(b, now, l) <==> WithinLimits(ks + [now], l)
  {
    if Allowed(b, now, l) {
      AllowedKeepsLimits(b, ks, seen, now, l);
    }
    if WithinLimits(ks + [now], l) {
      LimitsAllow(b, ks, seen, now, l);
    }
  }

  /** The attempts left after pruning are the kicks younger than a window. */
  lemma RecentExact(b: Budget, ks: seq<real>, seen: real, now: real)
    requires Tracks(b, ks, seen) && seen <= now
    ensures |Prune(b.attempts, now)| <= |ks|
    ensures forall i :: 0 <= i < |ks| ==> (now - ks[i] < 3600.0 <==> i >= |ks| - |Prune(b.attempts, now)|)
  {
    PruneIsSuffix(b.attempts, now);
    var d := |ks| - |b.attempts|;
    forall i | 0 <= i < |ks| ensures now - ks[i] < WINDOW <==> i >= |ks| - |Prune(b.attempts, now)| {
      if i >= d {
        assert ks[i] == b.attempts[i - d];
      }
    }
  }

  /** What one query of the budget at `now` leaves behind, with or without a kick. */
  predicate Spends(b: Budget, b': Budget, now: real, kick: bool, l: Limits) {
    if kick then Allowed(b, now, l) && b' == Kicked(Pruned(b, now), now)
    else b' == b || b' == Pruned(b, now)
  }

  /** Every use of the budget keeps the limits and the bookkeeping. */
  lemma SpendKeepsLimits(b: Budget, b': Budget, ks: seq<real>, seen: real, now: real, kick: bool, l: Limits)
    requires Proper(l) && Tracks(b, ks, seen) && seen <= now && WithinLimits(ks, l)
    requires Spends(b, b', now, kick, l)
    ensures var ks' := ks + if kick then [now] else [];
            Tracks(b', ks', now) && WithinLimits(ks', l)
  {
    if kick {
      assert WithinLimits(ks + [now], l) by {
        AllowedKeepsLimits(b, ks, seen, now, l);
      }
      assert Tracks(Kicked(Pruned(b, now), now), ks + [now], now) by {
        PruneTracks(b, ks, seen, now);
        KickedTracks(Pruned(b, now), ks, now);
      }
    } else {
      assert ks + [] == ks;
      assert Tracks(Pruned(b, now), ks, now) by {
        PruneTracks(b, ks, seen, now);
      }
      TracksLater(b, ks, seen, now);
    }
  }

  lemma TracksLater(b: Budget, ks: seq<real>, seen: real, now: real)
    requires Tracks(b, ks, seen) && seen <= now
    ensures Tracks(b, ks, now)
  {
  }

  lemma KickedTracks(b: Budget, ks: seq<real>, now: real)
    requires Tracks(b, ks, now)
    ensures Tracks(Kicked(b, now), ks + [now], now)
  {
  }

  // ----- The kicks of all slots of a loop

  /** The kicks of slot `fd` among all kicks of the loop. */
  function TimesOf(kicks: seq<(int, real)>, fd: int): seq<real> {
    if kicks == [] then []
    else
      var last := kicks[|kicks| - 1];
      TimesOf(kicks[..|kicks| - 1], fd) + if last.0 == fd then [last.1] else []
  }

  lemma TimesGrow(kicks: seq<(int, real)>, fd: int, now: real, x: int)
    ensures TimesOf(kicks + [(fd, now)], x) == TimesOf(kicks, x) + if x == fd then [now] else []
  {
    assert (kicks + [(fd, now)])[..|kicks|] == kicks;
  }
}
