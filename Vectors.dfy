/** Vectors of integer entries and the few operations on them that the
    operator and the dense matrices share: powers of two, the inner product,
    the elementwise three-way sum, linear combinations and fixed-width blocks. */
module Vectors {

  /** 2^n. */
  function Pow2(n: nat): (r: nat)
    ensures r >= 1
  {
    if n == 0 then 1 else 2 * Pow2(n - 1)
  }

  /** The inner product <x, y>. */
  function Dot(x: seq<int>, y: seq<int>): int
    requires |x| == |y|
  {
    if |x| == 0 then 0 else x[0] * y[0] + Dot(x[1..], y[1..])
  }

  /** The elementwise sum x + y + z, as numpy evaluates `x + y + z`. */
  function Sum3(x: seq<int>, y: seq<int>, z: seq<int>): seq<int>
    requires |x| == |y| == |z|
  {
    seq(|x|, t requires 0 <= t < |x| => x[t] + y[t] + z[t])
  }

  /** The linear combination a*x + b*y. */
  function Lin(a: int, x: seq<int>, b: int, y: seq<int>): seq<int>
    requires |x| == |y|
  {
    seq(|x|, t requires 0 <= t < |x| => a * x[t] + b * y[t])
  }

  /** The vector of length n whose every entry is c. */
  function Const(n: nat, c: int): seq<int>
  {
    seq(n, t => c)
  }

  /** j * w, by repeated addition, so that offsets of blocks stay linear terms. */
  function Times(j: nat, w: nat): nat
  {
    if j == 0 then 0 else Times(j - 1, w) + w
  }

  /** The position where block j of width w starts. */
  function Offset(j: nat, w: nat): nat
  {
    Times(j, w)
  }

  /** The number of whole blocks of width w in n entries. */
  function Blocks(n: nat, w: nat): nat
    requires 0 < w
    decreases n
  {
    if n < w then 0 else 1 + Blocks(n - w, w)
  }

  lemma {:induction false} TimesIsProduct(j: nat, w: nat)
    ensures Times(j, w) == j * w
  {
    if j > 0 {
      TimesIsProduct(j - 1, w);
    }
  }

  /** Blocks(n, w) is the floor division n // w. */
  lemma BlocksIsQuotient(n: nat, w: nat)
    requires 0 < w
    ensures Blocks(n, w) == n / w
  {
    BlocksBounds(n, w);
    TimesIsProduct(Blocks(n, w), w);
    QuotientUnique(Blocks(n, w), n, w);
  }

  /** Blocks(n, w) whole blocks fit into n, one more does not. */
  lemma {:induction false} BlocksBounds(n: nat, w: nat)
    requires 0 < w
    ensures Times(Blocks(n, w), w) <= n < Times(Blocks(n, w), w) + w
    decreases n
  {
    if n >= w {
      BlocksBounds(n - w, w);
    }
  }

  /** The quotient is the only q with q*w <= n < q*w + w. */
  lemma QuotientUnique(q: nat, n: nat, w: nat)
    requires 0 < w && q * w <= n < q * w + w
    ensures n / w == q
  {
    var d := n / w;
    if q > d {
      MulMonotone(d + 1, q, w);
    } else if q < d {
      MulMonotone(q + 1, d, w);
    }
  }

  lemma MulMonotone(a: nat, b: nat, w: nat)
    requires a <= b
    ensures a * w <= b * w
  {
  }

  /** Later blocks start later. */
  lemma {:induction false} OffsetMonotone(a: nat, b: nat, w: nat)
    requires a <= b
    ensures Offset(a, w) <= Offset(b, w)
    decreases b
  {
    if a < b {
      OffsetMonotone(a, b - 1, w);
    }
  }

  /** Block j of width w of s: the entries at [j*w, (j+1)*w). Only whole
      blocks exist, hence j < Blocks(|s|, w). */
  function Block(s: seq<int>, j: nat, w: nat): (b: seq<int>)
    requires 0 < w && j < Blocks(|s|, w)
    ensures |b| == w
  {
    BlockFits(j, |s|, w);
    s[Offset(j, w) .. Offset(j, w) + w]
  }

  /** A block that exists lies inside the sequence. */
  lemma {:induction false} BlockFits(j: nat, n: nat, w: nat)
    requires 0 < w && j < Blocks(n, w)
    ensures Offset(j, w) + w <= n
    decreases j
  {
    if j > 0 {
      BlockFits(j - 1, n - w, w);
    }
  }

  /** Conversely, a block that lies inside the sequence exists. */
  lemma {:induction false} FitsBelowBlocks(j: nat, n: nat, w: nat)
    requires 0 < w && Offset(j, w) + w <= n
    ensures j < Blocks(n, w)
    decreases j
  {
    if j > 0 {
      FitsBelowBlocks(j - 1, n - w, w);
    }
  }

  /** Offsets of half-width blocks: 2j blocks of width h end where j blocks of width 2h do. */
  lemma {:induction false} TimesDouble(j: nat, h: nat)
    ensures Times(2 * j, h) == Times(j, 2 * h)
    decreases j
  {
    if j > 0 {
      TimesDouble(j - 1, h);
      assert Times(2 * j, h) == Times(2 * j - 2, h) + 2 * h;
    }
  }

  /** The two halves of block j of width 2h are blocks 2j and 2j+1 of width h. */
  lemma BlockHalves(s: seq<int>, j: nat, h: nat)
    requires 0 < h && j < Blocks(|s|, 2 * h)
    ensures 2 * j + 1 < Blocks(|s|, h)
    ensures Block(s, j, 2 * h)[..h] == Block(s, 2 * j, h)
    ensures Block(s, j, 2 * h)[h..] == Block(s, 2 * j + 1, h)
  {
    BlockFits(j, |s|, 2 * h);
    TimesDouble(j, h);
    var o := Offset(j, 2 * h);
    assert Offset(2 * j + 1, h) == o + h;
    FitsBelowBlocks(2 * j + 1, |s|, h);
    assert Block(s, j, 2 * h) == s[o..o + 2 * h];
    assert Block(s, 2 * j, h) == s[o..o + h];
    assert Block(s, 2 * j + 1, h) == s[o + h..o + 2 * h];
  }

  /** d with the entries from position at on overwritten by piece, as a
      slice assignment d[at:at+|piece|] = piece does. */
  function Splice(d: seq<int>, at: nat, piece: seq<int>): (r: seq<int>)
    requires at + |piece| <= |d|
    ensures |r| == |d|
  {
    d[..at] + piece + d[at + |piece|..]
  }

  /** Two adjacent slice assignments are one. */
  lemma SpliceTwice(d: seq<int>, at: nat, p: seq<int>, q: seq<int>)
    requires at + |p| + |q| <= |d|
    ensures Splice(Splice(d, at, p), at + |p|, q) == Splice(d, at, p + q)
  {
    var e := Splice(d, at, p);
    assert e[..at + |p|] == d[..at] + p;
    assert e[at + |p| + |q|..] == d[at + |p| + |q|..];
  }

  /** A slice assignment that ends by position e leaves d[e..] alone. */
  lemma SpliceAfter(d: seq<int>, at: nat, piece: seq<int>, e: nat)
    requires at + |piece| <= e <= |d|
    ensures Splice(d, at, piece)[e..] == d[e..]
  {
    var r := Splice(d, at, piece);
    forall t | e <= t < |d|
      ensures r[t] == d[t]
    {
      assert r[t] == d[at + |piece|..][t - at - |piece|];
    }
  }

  /** Writing a whole block leaves the entries before it alone and makes
      the block the written piece. */
  lemma SpliceBlock(d: seq<int>, j: nat, w: nat, piece: seq<int>)
    requires 0 < w && j < Blocks(|d|, w) && |piece| == w
    ensures Offset(j, w) + w <= |d|
    ensures Splice(d, Offset(j, w), piece)[..Offset(j, w)] == d[..Offset(j, w)]
    ensures Block(Splice(d, Offset(j, w), piece), j, w) == piece
  {
    BlockFits(j, |d|, w);
  }

  /** Two vectors that rearrange the two halves of s (in either order) together
      rearrange s. */
  lemma HalvesRearranged(s: seq<int>, h: nat, u: seq<int>, w: seq<int>, swapped: bool)
    requires h <= |s|
    requires multiset(u) == multiset(if swapped then s[h..] else s[..h])
    requires multiset(w) == multiset(if swapped then s[..h] else s[h..])
    ensures multiset(u + w) == multiset(s)
  {
    assert s == s[..h] + s[h..];
  }

  /** Blocks of a three-way sum are the three-way sums of the blocks. */
  lemma BlockSum3(x: seq<int>, y: seq<int>, z: seq<int>, j: nat, w: nat)
    requires |x| == |y| == |z| && 0 < w && j < Blocks(|x|, w)
    ensures Block(Sum3(x, y, z), j, w) == Sum3(Block(x, j, w), Block(y, j, w), Block(z, j, w))
  {
    BlockFits(j, |x|, w);
    var s := Sum3(x, y, z);
    var o := Offset(j, w);
    forall t | 0 <= t < w
      ensures Block(s, j, w)[t] == x[o + t] + y[o + t] + z[o + t]
    {
    }
  }

  /** The inner product of two concatenations is the sum of the inner products. */
  lemma {:induction false} DotAppend(x1: seq<int>, x2: seq<int>, y1: seq<int>, y2: seq<int>)
    requires |x1| == |y1| && |x2| == |y2|
    ensures Dot(x1 + x2, y1 + y2) == Dot(x1, y1) + Dot(x2, y2)
  {
    if |x1| > 0 {
      assert (x1 + x2)[1..] == x1[1..] + x2;
      assert (y1 + y2)[1..] == y1[1..] + y2;
      DotAppend(x1[1..], x2, y1[1..], y2);
    } else {
      assert x1 + x2 == x2 && y1 + y2 == y2;
    }
  }

  /** Pairings of two-part vectors add up part by part. */
  lemma PairingOfHalves(x1: seq<int>, x2: seq<int>, y1: seq<int>, y2: seq<int>,
                        p1: seq<int>, p2: seq<int>, q1: seq<int>, q2: seq<int>)
    requires |x1| == |y1| == |p1| == |q1| && |x2| == |y2| == |p2| == |q2|
    requires Dot(p1, y1) + Dot(p2, y2) == Dot(x1, q1) + Dot(x2, q2)
    ensures Dot(p1 + p2, y1 + y2) == Dot(x1 + x2, q1 + q2)
  {
    DotAppend(p1, p2, y1, y2);
    DotAppend(x1, x2, q1, q2);
  }

  lemma {:induction false} DotSymmetric(x: seq<int>, y: seq<int>)
    requires |x| == |y|
    ensures Dot(x, y) == Dot(y, x)
  {
    if |x| > 0 {
      DotSymmetric(x[1..], y[1..]);
    }
  }

  /** The inner product is additive in its first argument: <x + y + z, w> splits. */
  lemma {:induction false} DotSum3(x: seq<int>, y: seq<int>, z: seq<int>, w: seq<int>)
    requires |x| == |y| == |z| == |w|
    ensures Dot(Sum3(x, y, z), w) == Dot(x, w) + Dot(y, w) + Dot(z, w)
  {
    if |x| > 0 {
      assert Sum3(x, y, z)[1..] == Sum3(x[1..], y[1..], z[1..]);
      DotSum3(x[1..], y[1..], z[1..], w[1..]);
    }
  }

  /** Against the all-ones vector the inner product is the plain sum. */
  lemma {:induction false} DotOnesIsSum(x: seq<int>)
    ensures Dot(x, Const(|x|, 1)) == Sum(x)
  {
    if |x| > 0 {
      assert Const(|x|, 1)[1..] == Const(|x| - 1, 1);
      DotOnesIsSum(x[1..]);
    }
  }

  function Sum(x: seq<int>): int
  {
    if |x| == 0 then 0 else x[0] + Sum(x[1..])
  }
}
