/** The operator M_k as a pure function on vectors of length 2^k.

    The three channels A, B, C of the butterfly evaluation are the three
    families a_k, b_k, c_k of the recursive construction. Every channel only
    moves entries: after i levels, position t of channel ch holds the input
    entry at Origin(ch, i, t). One level combines the two halves of a block
    of size 2^i (h = 2^(i-1)) as follows, generation 0 being the identity:
      A = C of the right half, then C of the left half   (halves swapped),
      B = A of the left half,  then B of the right half,
      C = B of the left half,  then A of the right half.
    Apply(ch, i, s) is the channel applied to s, and ApplyHalvesA/B/C state
    that it satisfies exactly that recursion on halves. MSpec(k, s) is the
    fusion a_k s + b_k s + c_k s, that is the product M_k s. */
module Operator {
  import opened Vectors

  datatype Channel = A | B | C

  /** The input position that channel ch carries to position t after i levels. */
  function Origin(ch: Channel, i: nat, t: nat): (r: nat)
    requires t < Pow2(i)
    ensures r < Pow2(i)
    decreases i
  {
    if i == 0 then t
    else
      var h := Pow2(i - 1);
      match ch
      case A => if t < h then h + Origin(C, i - 1, t) else Origin(C, i - 1, t - h)
      case B => if t < h then Origin(A, i - 1, t) else h + Origin(B, i - 1, t - h)
      case C => if t < h then Origin(B, i - 1, t) else h + Origin(A, i - 1, t - h)
  }

  /** Channel ch after i levels, applied to s. */
  function Apply(ch: Channel, i: nat, s: seq<int>): seq<int>
    requires |s| == Pow2(i)
  {
    seq(|s|, t requires 0 <= t < |s| => s[Origin(ch, i, t)])
  }

  /** M_k s, the fusion of the three channels. */
  function MSpec(k: nat, s: seq<int>): seq<int>
    requires |s| == Pow2(k)
  {
    Sum3(Apply(A, k, s), Apply(B, k, s), Apply(C, k, s))
  }

  /** Every channel is a symmetric permutation: its index map is its own inverse,
      so it is a bijection of [0, 2^i). */
  lemma {:induction false} OriginInvolutive(ch: Channel, i: nat, t: nat)
    requires t < Pow2(i)
    ensures Origin(ch, i, Origin(ch, i, t)) == t
    decreases i, 1
  {
    if i > 0 {
      match ch
      case A => OriginInvolutiveA(i, t);
      case B => OriginInvolutiveB(i, t);
      case C => OriginInvolutiveC(i, t);
    }
  }

  lemma {:induction false} OriginInvolutiveA(i: nat, t: nat)
    requires 0 < i && t < Pow2(i)
    ensures Origin(A, i, Origin(A, i, t)) == t
    decreases i, 0
  {
    var h := Pow2(i - 1);
    if t < h {
      OriginInvolutive(C, i - 1, t);
    } else {
      OriginInvolutive(C, i - 1, t - h);
    }
  }

  lemma {:induction false} OriginInvolutiveB(i: nat, t: nat)
    requires 0 < i && t < Pow2(i)
    ensures Origin(B, i, Origin(B, i, t)) == t
    decreases i, 0
  {
    var h := Pow2(i - 1);
    if t < h {
      OriginInvolutive(A, i - 1, t);
    } else {
      OriginInvolutive(B, i - 1, t - h);
    }
  }

  lemma {:induction false} OriginInvolutiveC(i: nat, t: nat)
    requires 0 < i && t < Pow2(i)
    ensures Origin(C, i, Origin(C, i, t)) == t
    decreases i, 0
  {
    var h := Pow2(i - 1);
    if t < h {
      OriginInvolutive(B, i - 1, t);
    } else {
      OriginInvolutive(A, i - 1, t - h);
    }
  }

  /** One butterfly level on channel A: C of the right half followed by C of
      the left half. */
  lemma ApplyHalvesA(i: nat, s: seq<int>)
    requires 0 < i && |s| == Pow2(i)
    ensures Apply(A, i, s) == Apply(C, i - 1, s[Pow2(i - 1)..]) + Apply(C, i - 1, s[..Pow2(i - 1)])
  {
    var h := Pow2(i - 1);
    var r := Apply(C, i - 1, s[h..]) + Apply(C, i - 1, s[..h]);
    forall t | 0 <= t < |s|
      ensures Apply(A, i, s)[t] == r[t]
    {
      if t < h {
        assert r[t] == s[h..][Origin(C, i - 1, t)];
      } else {
        assert r[t] == s[..h][Origin(C, i - 1, t - h)];
      }
    }
  }

  /** One butterfly level on channel B: A of the left half followed by B of
      the right half. */
  lemma ApplyHalvesB(i: nat, s: seq<int>)
    requires 0 < i && |s| == Pow2(i)
    ensures Apply(B, i, s) == Apply(A, i - 1, s[..Pow2(i - 1)]) + Apply(B, i - 1, s[Pow2(i - 1)..])
  {
    var h := Pow2(i - 1);
    var r := Apply(A, i - 1, s[..h]) + Apply(B, i - 1, s[h..]);
    forall t | 0 <= t < |s|
      ensures Apply(B, i, s)[t] == r[t]
    {
      if t < h {
        assert r[t] == s[..h][Origin(A, i - 1, t)];
      } else {
        assert r[t] == s[h..][Origin(B, i - 1, t - h)];
      }
    }
  }

  /** One butterfly level on channel C: B of the left half followed by A of
      the right half. */
  lemma ApplyHalvesC(i: nat, s: seq<int>)
    requires 0 < i && |s| == Pow2(i)
    ensures Apply(C, i, s) == Apply(B, i - 1, s[..Pow2(i - 1)]) + Apply(A, i - 1, s[Pow2(i - 1)..])
  {
    var h := Pow2(i - 1);
    var r := Apply(B, i - 1, s[..h]) + Apply(A, i - 1, s[h..]);
    forall t | 0 <= t < |s|
      ensures Apply(C, i, s)[t] == r[t]
    {
      if t < h {
        assert r[t] == s[..h][Origin(B, i - 1, t)];
      } else {
        assert r[t] == s[h..][Origin(A, i - 1, t - h)];
      }
    }
  }

  /** Generation 0 is the identity on every channel. */
  lemma ApplyZero(ch: Channel, s: seq<int>)
    requires |s| == 1
    ensures Apply(ch, 0, s) == s
  {
  }

  /** Applying a channel twice gives back the input. */
  lemma ApplyInvolutive(ch: Channel, i: nat, s: seq<int>)
    requires |s| == Pow2(i)
    ensures Apply(ch, i, Apply(ch, i, s)) == s
  {
    forall t | 0 <= t < |s|
      ensures Apply(ch, i, Apply(ch, i, s))[t] == s[t]
    {
      OriginInvolutive(ch, i, t);
    }
  }

  /** Every channel only moves entries around: its output is a rearrangement
      of its input. */
  lemma {:induction false} ApplyIsPermutation(ch: Channel, i: nat, s: seq<int>)
    requires |s| == Pow2(i)
    ensures multiset(Apply(ch, i, s)) == multiset(s)
    decreases i
  {
    if i == 0 {
      ApplyZero(ch, s);
    } else {
      var h := Pow2(i - 1);
      var s1, s2 := s[..h], s[h..];
      match ch
      case A =>
        ApplyHalvesA(i, s);
        ApplyIsPermutation(C, i - 1, s2);
        ApplyIsPermutation(C, i - 1, s1);
        HalvesRearranged(s, h, Apply(C, i - 1, s2), Apply(C, i - 1, s1), true);
      case B =>
        ApplyHalvesB(i, s);
        ApplyIsPermutation(A, i - 1, s1);
        ApplyIsPermutation(B, i - 1, s2);
        HalvesRearranged(s, h, Apply(A, i - 1, s1), Apply(B, i - 1, s2), false);
      case C =>
        ApplyHalvesC(i, s);
        ApplyIsPermutation(B, i - 1, s1);
        ApplyIsPermutation(A, i - 1, s2);
        HalvesRearranged(s, h, Apply(B, i - 1, s1), Apply(A, i - 1, s2), false);
    }
  }

  /** Every channel is self-adjoint: <Apply x, y> == <x, Apply y>. */
  lemma {:induction false} ApplySelfAdjoint(ch: Channel, i: nat, x: seq<int>, y: seq<int>)
    requires |x| == |y| == Pow2(i)
    ensures Dot(Apply(ch, i, x), y) == Dot(x, Apply(ch, i, y))
    decreases i, 1
  {
    if i == 0 {
      ApplyZero(ch, x);
      ApplyZero(ch, y);
    } else {
      match ch
      case A => ApplySelfAdjointA(i, x, y);
      case B => ApplySelfAdjointB(i, x, y);
      case C => ApplySelfAdjointC(i, x, y);
    }
  }

  lemma {:induction false} ApplySelfAdjointA(i: nat, x: seq<int>, y: seq<int>)
    requires 0 < i && |x| == |y| == Pow2(i)
    ensures Dot(Apply(A, i, x), y) == Dot(x, Apply(A, i, y))
    decreases i, 0
  {
    var h := Pow2(i - 1);
    var x1, x2, y1, y2 := x[..h], x[h..], y[..h], y[h..];
    assert |x1| == |x2| == |y1| == |y2| == h;
    assert x == x1 + x2 && y == y1 + y2;
    var p1, p2 := Apply(C, i - 1, x2), Apply(C, i - 1, x1);
    var q1, q2 := Apply(C, i - 1, y2), Apply(C, i - 1, y1);
    ApplySelfAdjoint(C, i - 1, x2, y1);
    ApplySelfAdjoint(C, i - 1, x1, y2);
    ApplyHalvesA(i, x);
    ApplyHalvesA(i, y);
    PairingOfHalves(x1, x2, y1, y2, p1, p2, q1, q2);
  }

  lemma {:induction false} ApplySelfAdjointB(i: nat, x: seq<int>, y: seq<int>)
    requires 0 < i && |x| == |y| == Pow2(i)
    ensures Dot(Apply(B, i, x), y) == Dot(x, Apply(B, i, y))
    decreases i, 0
  {
    var h := Pow2(i - 1);
    var x1, x2, y1, y2 := x[..h], x[h..], y[..h], y[h..];
    assert |x1| == |x2| == |y1| == |y2| == h;
    assert x == x1 + x2 && y == y1 + y2;
    var p1, p2 := Apply(A, i - 1, x1), Apply(B, i - 1, x2);
    var q1, q2 := Apply(A, i - 1, y1), Apply(B, i - 1, y2);
    ApplySelfAdjoint(A, i - 1, x1, y1);
    ApplySelfAdjoint(B, i - 1, x2, y2);
    ApplyHalvesB(i, x);
    ApplyHalvesB(i, y);
    PairingOfHalves(x1, x2, y1, y2, p1, p2, q1, q2);
  }

  lemma {:induction false} ApplySelfAdjointC(i: nat, x: seq<int>, y: seq<int>)
    requires 0 < i && |x| == |y| == Pow2(i)
    ensures Dot(Apply(C, i, x), y) == Dot(x, Apply(C, i, y))
    decreases i, 0
  {
    var h := Pow2(i - 1);
    var x1, x2, y1, y2 := x[..h], x[h..], y[..h], y[h..];
    assert |x1| == |x2| == |y1| == |y2| == h;
    assert x == x1 + x2 && y == y1 + y2;
    var p1, p2 := Apply(B, i - 1, x1), Apply(A, i - 1, x2);
    var q1, q2 := Apply(B, i - 1, y1), Apply(A, i - 1, y2);
    ApplySelfAdjoint(B, i - 1, x1, y1);
    ApplySelfAdjoint(A, i - 1, x2, y2);
    ApplyHalvesC(i, x);
    ApplyHalvesC(i, y);
    PairingOfHalves(x1, x2, y1, y2, p1, p2, q1, q2);
  }

  /** A constant vector is left unchanged by every channel. */
  lemma ApplyConst(ch: Channel, i: nat, c: int)
    ensures Apply(ch, i, Const(Pow2(i), c)) == Const(Pow2(i), c)
  {
  }

  /** Every channel is linear. */
  lemma ApplyLinear(ch: Channel, i: nat, a: int, x: seq<int>, b: int, y: seq<int>)
    requires |x| == |y| == Pow2(i)
    ensures Apply(ch, i, Lin(a, x, b, y)) == Lin(a, Apply(ch, i, x), b, Apply(ch, i, y))
  {
  }

  /** M_k is self-adjoint, which the symmetric eigensolver relies on. */
  lemma MSelfAdjoint(k: nat, x: seq<int>, y: seq<int>)
    requires |x| == |y| == Pow2(k)
    ensures Dot(MSpec(k, x), y) == Dot(x, MSpec(k, y))
  {
    DotSum3(Apply(A, k, x), Apply(B, k, x), Apply(C, k, x), y);
    DotSum3(Apply(A, k, y), Apply(B, k, y), Apply(C, k, y), x);
    ApplySelfAdjoint(A, k, x, y);
    ApplySelfAdjoint(B, k, x, y);
    ApplySelfAdjoint(C, k, x, y);
    DotSymmetric(x, MSpec(k, y));
    DotSymmetric(x, Apply(A, k, y));
    DotSymmetric(x, Apply(B, k, y));
    DotSymmetric(x, Apply(C, k, y));
  }

  /** M_k is linear. */
  lemma MLinear(k: nat, a: int, x: seq<int>, b: int, y: seq<int>)
    requires |x| == |y| == Pow2(k)
    ensures MSpec(k, Lin(a, x, b, y)) == Lin(a, MSpec(k, x), b, MSpec(k, y))
  {
    var l := MSpec(k, Lin(a, x, b, y));
    var r := Lin(a, MSpec(k, x), b, MSpec(k, y));
    forall t | 0 <= t < |x|
      ensures l[t] == r[t]
    {
      var p, q, u := Origin(A, k, t), Origin(B, k, t), Origin(C, k, t);
      calc {
        l[t];
        (a * x[p] + b * y[p]) + (a * x[q] + b * y[q]) + (a * x[u] + b * y[u]);
        a * (x[p] + x[q] + x[u]) + b * (y[p] + y[q] + y[u]);
        r[t];
      }
    }
  }

  /** A constant input c yields 3c in every position. */
  lemma MConst(k: nat, c: int)
    ensures MSpec(k, Const(Pow2(k), c)) == Const(Pow2(k), 3 * c)
  {
  }

  /** The hand-traced case of a single level: M_1 [1, 0] == [2, 1]. */
  lemma MFirstLevelExample()
    ensures MSpec(1, [1, 0]) == [2, 1]
  {
    var s := [1, 0];
    assert Pow2(1) == 2 && Pow2(0) == 1;
    var a, b, c := Apply(A, 1, s), Apply(B, 1, s), Apply(C, 1, s);
    assert a[0] == 0 && a[1] == 1;
    assert b[0] == 1 && b[1] == 0;
    assert c[0] == 1 && c[1] == 0;
    var m := MSpec(1, s);
    assert m[0] == 2 && m[1] == 1;
  }

  /** The all-ones case: M_2 [1, 1, 1, 1] == [3, 3, 3, 3]. */
  lemma MAllOnesExample()
    ensures MSpec(2, [1, 1, 1, 1]) == [3, 3, 3, 3]
  {
    assert Pow2(2) == 4 by { assert Pow2(1) == 2; }
    assert Const(4, 1) == [1, 1, 1, 1];
    assert Const(4, 3) == [3, 3, 3, 3];
    MConst(2, 1);
  }
}
