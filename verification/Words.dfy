/** Machine words as bounded integers, and the wrap-around arithmetic of 16-bit
    ring indices (VIRTIO 1.2, sections 2.7.6 and 2.7.8). */
module Words {

  type u8 = x: int | 0 <= x < 0x100
  type u16 = x: int | 0 <= x < 0x1_0000
  type u32 = x: int | 0 <= x < 0x1_0000_0000
  type u64 = x: int | 0 <= x < 0x1_0000_0000_0000_0000

  datatype Option<+T> = None | Some(value: T)

  /** Seconds on the monotonic clock, or the "never" value -Inf. */
  datatype Stamp = NegInf | At(t: real)

  /** `now - since >= span`, where -Inf is infinitely long ago. */
  predicate Elapsed(since: Stamp, now: real, span: real) {
    since.NegInf? || now - since.t >= span
  }

  predicate Distinct(xs: seq<int>) {
    forall i, j :: 0 <= i < j < |xs| ==> xs[i] != xs[j]
  }

  function Elements(xs: seq<int>): set<int> {
    set x | x in xs
  }

  lemma {:induction false} DistinctSize(xs: seq<int>)
    requires Distinct(xs)
    ensures |Elements(xs)| == |xs|
  {
    if xs != [] {
      var n := |xs| - 1;
      DistinctSize(xs[..n]);
      assert xs == xs[..n] + [xs[n]];
      assert Elements(xs) == Elements(xs[..n]) + {xs[n]};
      assert xs[n] !in Elements(xs[..n]);
    }
  }

  lemma {:induction false} SubsetSize(a: set<int>, b: set<int>)
    requires a <= b
    ensures |a| <= |b|
  {
    if a != {} {
      Inhabited(a);
      var x :| x in a;
      SubsetSize(a - {x}, b - {x});
    }
  }

  /** Distinct members of a set that are as many as the set are all of it. */
  lemma Exhausted(xs: seq<int>, s: set<int>, x: int)
    requires Distinct(xs) && |xs| == |s| && x in s && forall i :: 0 <= i < |xs| ==> xs[i] in s
    ensures x in xs
  {
    DistinctSize(xs);
    if x !in xs {
      SubsetSize(Elements(xs), s - {x});
    }
  }

  lemma Inhabited(s: set<int>)
    ensures s == {} || exists x :: x in s
  {
    if forall x :: x !in s {
      assert s == {};
    }
  }

  /** The 16-bit word a free-running counter shows. */
  function Low16(n: int): u16 {
    n % 0x1_0000
  }

  /** uint16 subtraction. */
  function Sub16(a: u16, b: u16): u16 {
    Low16(a - b)
  }

  /** Bitwise AND, one bit at a time. */
  function And(x: nat, y: nat): nat {
    if x == 0 || y == 0 then 0
    else (if x % 2 == 1 && y % 2 == 1 then 1 else 0) + 2 * And(x / 2, y / 2)
  }

  function Pow2(k: nat): (p: nat)
    ensures p > 0
  {
    if k == 0 then 1 else 2 * Pow2(k - 1)
  }

  /** The bit trick `n & (n-1) == 0` recognises exactly the powers of two. */
  lemma {:induction false} PowerOfTwoTrick(n: nat)
    requires n >= 1
    ensures And(n, n - 1) == 0 <==> exists k: nat :: n == Pow2(k)
  {
    if n == 1 {
      assert n == Pow2(0);
    } else if n % 2 == 1 {
      AndSelf(n / 2);
      assert And(n, n - 1) == 2 * And(n / 2, n / 2);
      forall k: nat ensures n != Pow2(k) {
        assert k > 0 ==> Pow2(k) == 2 * Pow2(k - 1);
      }
    } else {
      var h := n / 2;
      assert n == 2 * h && (n - 1) / 2 == h - 1;
      assert And(n, n - 1) == 2 * And(h, h - 1);
      PowerOfTwoTrick(h);
      DoublePower(h);
    }
  }

  lemma DoublePower(h: nat)
    requires h >= 1
    ensures (exists k: nat :: 2 * h == Pow2(k)) <==> (exists k: nat :: h == Pow2(k))
  {
    if k: nat :| h == Pow2(k) {
      assert 2 * h == Pow2(k + 1);
    }
    if k: nat :| 2 * h == Pow2(k) {
      var j: nat := k - 1;
      assert h == Pow2(j);
    }
  }

  lemma {:induction false} AndSelf(n: nat)
    ensures And(n, n) == n
  {
    if n > 0 {
      AndSelf(n / 2);
    }
  }

  /** A wrapped difference of two counters is accepted as a backlog of at most
      `num` exactly when the true difference is one, provided the counters are less
      than one lap apart forwards and less than a lap minus `num` apart backwards. */
  lemma WrappedBacklog(a: int, b: int, num: nat)
    requires num <= 32768
    requires num - 0x1_0000 < a - b < 0x1_0000
    ensures Sub16(Low16(a), Low16(b)) <= num <==> 0 <= a - b <= num
    ensures Sub16(Low16(a), Low16(b)) == 0 <==> a == b
    ensures 0 <= a - b ==> Sub16(Low16(a), Low16(b)) == a - b
  {
    assert Sub16(Low16(a), Low16(b)) == (a - b) % 0x1_0000;
  }

  /** Less than a lap apart, two counters show the same word only when equal. */
  lemma WrappedEquality(a: int, b: int)
    requires -0x1_0000 < a - b < 0x1_0000
    ensures Low16(a) == Low16(b) <==> a == b
  {
  }

  /** Two counters show the same word exactly when they are a whole number of laps apart. */
  lemma SameWord(a: int, b: int)
    ensures Low16(a) == Low16(b) <==> (a - b) % 0x1_0000 == 0
  {
    var laps := a / 0x1_0000 - b / 0x1_0000;
    assert a - b == 0x1_0000 * laps + (Low16(a) - Low16(b));
  }
}
