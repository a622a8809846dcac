/** Dense matrices as values, and the explicit recursive construction of
    recursiveMatrix846.cpp (populateM) as pure functions.

    Family(ch, i) is a_i, b_i or c_i: the 2x2 swap and identities at i = 1,
    and for i >= 2 the quadrant assembly
      a_i = [[0, c_{i-1}], [c_{i-1}, 0]],
      b_i = [[a_{i-1}, 0], [0, b_{i-1}]],
      c_i = [[b_{i-1}, 0], [0, a_{i-1}]].
    MFamily(i) is m_i = a_i + b_i + c_i. FamilyEntry ties the construction to
    the index map of the butterfly channels, and MFamilyMul states that the
    two constructions of M_k agree: m_k v is MSpec(k, v). */
module Matrices {
  import opened Vectors
  import opened Operator

  /** A dense matrix stored as its rows. */
  type Grid = seq<seq<int>>

  /** g has n rows of n entries. */
  predicate Square(g: Grid, n: nat)
  {
    |g| == n && forall r :: 0 <= r < n ==> |g[r]| == n
  }

  /** The n x n zero matrix. */
  function Zeros(n: nat): (g: Grid)
    ensures Square(g, n)
    ensures forall r, c :: 0 <= r < n && 0 <= c < n ==> g[r][c] == 0
  {
    seq(n, r => Const(n, 0))
  }

  /** The entrywise sum x + y of two matrices of the same shape. */
  function Add(x: Grid, y: Grid): (z: Grid)
    requires |x| == |y| && forall r :: 0 <= r < |x| ==> |x[r]| == |y[r]|
    ensures |z| == |x| && forall r :: 0 <= r < |z| ==> |z[r]| == |x[r]|
  {
    seq(|x|, r requires 0 <= r < |x| =>
      seq(|x[r]|, c requires 0 <= c < |x[r]| => x[r][c] + y[r][c]))
  }

  /** The matrix-vector product g v. */
  function Mul(g: Grid, v: seq<int>): (w: seq<int>)
    requires forall r :: 0 <= r < |g| ==> |g[r]| == |v|
    ensures |w| == |g|
  {
    seq(|g|, r requires 0 <= r < |g| => Dot(g[r], v))
  }

  /** The 2h x 2h matrix with the four given h x h quadrants. */
  function Quadrants(tl: Grid, tr: Grid, bl: Grid, br: Grid, h: nat): (g: Grid)
    requires Square(tl, h) && Square(tr, h) && Square(bl, h) && Square(br, h)
    ensures Square(g, 2 * h)
  {
    seq(2 * h, r requires 0 <= r < 2 * h =>
      seq(2 * h, c requires 0 <= c < 2 * h =>
        if r < h then (if c < h then tl[r][c] else tr[r][c - h])
        else (if c < h then bl[r - h][c] else br[r - h][c - h])))
  }

  /** a_i, b_i, c_i of populateM: amatrices[i - 1], bmatrices[i - 1], cmatrices[i - 1]. */
  function Family(ch: Channel, i: nat): (g: Grid)
    requires 1 <= i
    ensures Square(g, Pow2(i))
    decreases i
  {
    if i == 1 then
      match ch
      case A => [[0, 1], [1, 0]]
      case B => [[1, 0], [0, 1]]
      case C => [[1, 0], [0, 1]]
    else
      var h := Pow2(i - 1);
      match ch
      case A => Quadrants(Zeros(h), Family(C, i - 1), Family(C, i - 1), Zeros(h), h)
      case B => Quadrants(Family(A, i - 1), Zeros(h), Zeros(h), Family(B, i - 1), h)
      case C => Quadrants(Family(B, i - 1), Zeros(h), Zeros(h), Family(A, i - 1), h)
  }

  /** m_i = (a_i + b_i) + c_i: mmatrices[i - 1] of populateM. */
  function MFamily(i: nat): (g: Grid)
    requires 1 <= i
    ensures Square(g, Pow2(i))
  {
    Add(Add(Family(A, i), Family(B, i)), Family(C, i))
  }

  /** Row r of a channel matrix holds its single 1 in column Origin(ch, i, r):
      the quadrant recursion of populateM and the half recursion of the
      butterfly describe the same matrices. */
  lemma {:induction false} FamilyEntry(ch: Channel, i: nat, r: nat, c: nat)
    requires 1 <= i && r < Pow2(i) && c < Pow2(i)
    ensures Family(ch, i)[r][c] == if c == Origin(ch, i, r) then 1 else 0
    decreases i, 1
  {
    if i == 1 {
      assert Pow2(1) == 2;
    } else {
      match ch
      case A => FamilyEntryA(i, r, c);
      case B => FamilyEntryB(i, r, c);
      case C => FamilyEntryC(i, r, c);
    }
  }

  /** Entry (r, c) of a matrix made of four quadrants. */
  lemma QuadrantAt(tl: Grid, tr: Grid, bl: Grid, br: Grid, h: nat, r: nat, c: nat)
    requires Square(tl, h) && Square(tr, h) && Square(bl, h) && Square(br, h)
    requires r < 2 * h && c < 2 * h
    ensures Quadrants(tl, tr, bl, br, h)[r][c] ==
              if r < h then (if c < h then tl[r][c] else tr[r][c - h])
              else (if c < h then bl[r - h][c] else br[r - h][c - h])
  {
  }

  lemma {:induction false} FamilyEntryA(i: nat, r: nat, c: nat)
    requires 1 < i && r < Pow2(i) && c < Pow2(i)
    ensures Family(A, i)[r][c] == if c == Origin(A, i, r) then 1 else 0
    decreases i, 0
  {
    var h := Pow2(i - 1);
    var z, f := Zeros(h), Family(C, i - 1);
    assert Pow2(i) == 2 * h;
    assert Family(A, i) == Quadrants(z, f, f, z, h);
    QuadrantAt(z, f, f, z, h, r, c);
    if r < h {
      assert Origin(A, i, r) == h + Origin(C, i - 1, r);
      if h <= c {
        FamilyEntry(C, i - 1, r, c - h);
      }
    } else {
      assert Origin(A, i, r) == Origin(C, i - 1, r - h);
      if c < h {
        FamilyEntry(C, i - 1, r - h, c);
      }
    }
  }

  lemma {:induction false} FamilyEntryB(i: nat, r: nat, c: nat)
    requires 1 < i && r < Pow2(i) && c < Pow2(i)
    ensures Family(B, i)[r][c] == if c == Origin(B, i, r) then 1 else 0
    decreases i, 0
  {
    var h := Pow2(i - 1);
    var z, fa, fb := Zeros(h), Family(A, i - 1), Family(B, i - 1);
    assert Pow2(i) == 2 * h;
    assert Family(B, i) == Quadrants(fa, z, z, fb, h);
    QuadrantAt(fa, z, z, fb, h, r, c);
    if r < h {
      assert Origin(B, i, r) == Origin(A, i - 1, r);
      if c < h {
        FamilyEntry(A, i - 1, r, c);
      }
    } else {
      assert Origin(B, i, r) == h + Origin(B, i - 1, r - h);
      if h <= c {
        FamilyEntry(B, i - 1, r - h, c - h);
      }
    }
  }

  lemma {:induction false} FamilyEntryC(i: nat, r: nat, c: nat)
    requires 1 < i && r < Pow2(i) && c < Pow2(i)
    ensures Family(C, i)[r][c] == if c == Origin(C, i, r) then 1 else 0
    decreases i, 0
  {
    var h := Pow2(i - 1);
    var z, fa, fb := Zeros(h), Family(A, i - 1), Family(B, i - 1);
    assert Pow2(i) == 2 * h;
    assert Family(C, i) == Quadrants(fb, z, z, fa, h);
    QuadrantAt(fb, z, z, fa, h, r, c);
    if r < h {
      assert Origin(C, i, r) == Origin(B, i - 1, r);
      if c < h {
        FamilyEntry(B, i - 1, r, c);
      }
    } else {
      assert Origin(C, i, r) == h + Origin(A, i - 1, r - h);
      if h <= c {
        FamilyEntry(A, i - 1, r - h, c - h);
      }
    }
  }

  /** Every a_i, b_i, c_i is a symmetric 0/1 permutation matrix: row r has a
      1 in column Origin(ch, i, r) and 0 elsewhere, column c has its 1 in row
      Origin(ch, i, c) (the index map is a bijection), and every row sums to 1. */
  lemma FamilyIsPermutation(ch: Channel, i: nat)
    requires 1 <= i
    ensures forall r, c :: 0 <= r < Pow2(i) && 0 <= c < Pow2(i) ==>
              Family(ch, i)[r][c] == if c == Origin(ch, i, r) then 1 else 0
    ensures forall r, c :: 0 <= r < Pow2(i) && 0 <= c < Pow2(i) ==>
              (c == Origin(ch, i, r) <==> r == Origin(ch, i, c))
    ensures forall r, c :: 0 <= r < Pow2(i) && 0 <= c < Pow2(i) ==>
              Family(ch, i)[r][c] == Family(ch, i)[c][r]
    ensures forall r :: 0 <= r < Pow2(i) ==> Sum(Family(ch, i)[r]) == 1
  {
    forall r, c | 0 <= r < Pow2(i) && 0 <= c < Pow2(i)
      ensures Family(ch, i)[r][c] == if c == Origin(ch, i, r) then 1 else 0
    {
      FamilyEntry(ch, i, r, c);
    }
    forall r, c | 0 <= r < Pow2(i) && 0 <= c < Pow2(i)
      ensures c == Origin(ch, i, r) <==> r == Origin(ch, i, c)
    {
      OriginInvolutive(ch, i, r);
      OriginInvolutive(ch, i, c);
    }
    FamilyRowSums(ch, i);
  }

  /** Every row of a_i, b_i, c_i sums to 1. */
  lemma FamilyRowSums(ch: Channel, i: nat)
    requires 1 <= i
    ensures forall r :: 0 <= r < Pow2(i) ==> Sum(Family(ch, i)[r]) == 1
  {
    var g := Family(ch, i);
    var ones := Const(Pow2(i), 1);
    FamilyMul(ch, i, ones);
    ApplyConst(ch, i, 1);
    forall r | 0 <= r < Pow2(i)
      ensures Sum(g[r]) == 1
    {
      DotOnesIsSum(g[r]);
      assert Mul(g, ones)[r] == Dot(g[r], ones);
    }
  }

  /** The base case m_1 = [[2, 1], [1, 2]]. */
  lemma MFamilyBase()
    ensures MFamily(1) == [[2, 1], [1, 2]]
  {
    assert Pow2(1) == 2;
    var m := MFamily(1);
    assert m[0] == [2, 1];
    assert m[1] == [1, 2];
  }

  /** The vector with a single 1 at position p picks entry p. */
  lemma {:induction false} DotUnit(u: seq<int>, s: seq<int>, p: nat)
    requires |u| == |s| && p < |u|
    requires forall c :: 0 <= c < |u| ==> u[c] == if c == p then 1 else 0
    ensures Dot(u, s) == s[p]
  {
    if p == 0 {
      DotNull(u[1..], s[1..]);
    } else {
      DotUnit(u[1..], s[1..], p - 1);
    }
  }

  /** A vector of zeros is orthogonal to everything. */
  lemma {:induction false} DotNull(u: seq<int>, s: seq<int>)
    requires |u| == |s|
    requires forall c :: 0 <= c < |u| ==> u[c] == 0
    ensures Dot(u, s) == 0
  {
    if |u| > 0 {
      DotNull(u[1..], s[1..]);
    }
  }

  /** Multiplying by a_i, b_i, c_i is applying the butterfly channel. */
  lemma FamilyMul(ch: Channel, i: nat, s: seq<int>)
    requires 1 <= i && |s| == Pow2(i)
    ensures Mul(Family(ch, i), s) == Apply(ch, i, s)
  {
    var g := Family(ch, i);
    forall r | 0 <= r < Pow2(i)
      ensures Dot(g[r], s) == s[Origin(ch, i, r)]
    {
      forall c | 0 <= c < Pow2(i)
        ensures g[r][c] == if c == Origin(ch, i, r) then 1 else 0
      {
        FamilyEntry(ch, i, r, c);
      }
      DotUnit(g[r], s, Origin(ch, i, r));
    }
  }

  /** Row r of x + y + z is the entrywise sum of the rows r. */
  lemma RowOfAdd3(x: Grid, y: Grid, z: Grid, n: nat, r: nat)
    requires Square(x, n) && Square(y, n) && Square(z, n) && r < n
    ensures Add(Add(x, y), z)[r] == Sum3(x[r], y[r], z[r])
  {
    var xy := Add(x, y);
    var row := Add(xy, z)[r];
    forall t | 0 <= t < n
      ensures row[t] == Sum3(x[r], y[r], z[r])[t]
    {
      assert xy[r][t] == x[r][t] + y[r][t];
      assert row[t] == xy[r][t] + z[r][t];
    }
  }

  /** Row r of (x + y + z) w is the sum of rows r of x w, y w and z w. */
  lemma MulAdd3Row(x: Grid, y: Grid, z: Grid, w: seq<int>, r: nat)
    requires Square(x, |w|) && Square(y, |w|) && Square(z, |w|) && r < |w|
    ensures Dot(Add(Add(x, y), z)[r], w) == Mul(x, w)[r] + Mul(y, w)[r] + Mul(z, w)[r]
  {
    RowOfAdd3(x, y, z, |w|, r);
    DotSum3(x[r], y[r], z[r], w);
  }

  /** Row r of m_k v: the dot product of row r of a_k + b_k + c_k with v is
      the sum of the three channels of v at position r. */
  lemma MFamilyMulRow(k: nat, v: seq<int>, r: nat)
    requires 1 <= k && |v| == Pow2(k) && r < Pow2(k)
    ensures Dot(MFamily(k)[r], v) == MSpec(k, v)[r]
  {
    FamilyMul(A, k, v);
    FamilyMul(B, k, v);
    FamilyMul(C, k, v);
    MulAdd3Row(Family(A, k), Family(B, k), Family(C, k), v, r);
  }

  /** The central agreement: m_k v, with m_k from the explicit construction,
      is the fused butterfly result MSpec(k, v). */
  lemma MFamilyMul(k: nat, v: seq<int>)
    requires 1 <= k && |v| == Pow2(k)
    ensures Mul(MFamily(k), v) == MSpec(k, v)
  {
    forall r | 0 <= r < Pow2(k)
      ensures Mul(MFamily(k), v)[r] == MSpec(k, v)[r]
    {
      MFamilyMulRow(k, v, r);
    }
  }

  /** m_k is symmetric, its entries lie in 0..3 and every row sums to 3. */
  lemma MFamilyShape(k: nat)
    requires 1 <= k
    ensures forall r, c :: 0 <= r < Pow2(k) && 0 <= c < Pow2(k) ==>
              0 <= MFamily(k)[r][c] <= 3 && MFamily(k)[r][c] == MFamily(k)[c][r]
    ensures forall r :: 0 <= r < Pow2(k) ==> Sum(MFamily(k)[r]) == 3
  {
    var m := MFamily(k);
    var a, b, c := Family(A, k), Family(B, k), Family(C, k);
    FamilyIsPermutation(A, k);
    FamilyIsPermutation(B, k);
    FamilyIsPermutation(C, k);
    forall r, t | 0 <= r < Pow2(k) && 0 <= t < Pow2(k)
      ensures 0 <= m[r][t] <= 3 && m[r][t] == m[t][r]
    {
      assert m[r][t] == a[r][t] + b[r][t] + c[r][t];
      assert m[t][r] == a[t][r] + b[t][r] + c[t][r];
    }
    var ones := Const(Pow2(k), 1);
    MFamilyMul(k, ones);
    MConst(k, 1);
    forall r | 0 <= r < Pow2(k)
      ensures Sum(m[r]) == 3
    {
      DotOnesIsSum(m[r]);
      assert Mul(m, ones)[r] == Dot(m[r], ones);
    }
  }

  /** g with the square block blk written at (r0, c0), but only in the cells
      that come before (rows, cols) in row-major order: the state of a nested
      rows/cols loop that copies blk into g. */
  function Put(g: Grid, r0: nat, c0: nat, blk: Grid, rows: nat, cols: nat): (p: Grid)
    requires Square(g, |g|) && Square(blk, |blk|)
    requires r0 + |blk| <= |g| && c0 + |blk| <= |g|
    ensures Square(p, |g|)
  {
    seq(|g|, r requires 0 <= r < |g| =>
      seq(|g|, c requires 0 <= c < |g| =>
        if r0 <= r < r0 + |blk| && c0 <= c < c0 + |blk| && (r < rows || (r == rows && c < cols))
        then blk[r - r0][c - c0] else g[r][c]))
  }

  /** g with the whole block blk written at (r0, c0). */
  function PutBlock(g: Grid, r0: nat, c0: nat, blk: Grid): (p: Grid)
    requires Square(g, |g|) && Square(blk, |blk|)
    requires r0 + |blk| <= |g| && c0 + |blk| <= |g|
    ensures Square(p, |g|)
  {
    Put(g, r0, c0, blk, r0 + |blk|, c0)
  }

  /** Before the first cell nothing is written. */
  lemma PutNothing(g: Grid, r0: nat, c0: nat, blk: Grid)
    requires Square(g, |g|) && Square(blk, |blk|)
    requires r0 + |blk| <= |g| && c0 + |blk| <= |g|
    ensures Put(g, r0, c0, blk, r0, c0) == g
  {
    var p := Put(g, r0, c0, blk, r0, c0);
    forall r | 0 <= r < |g|
      ensures p[r] == g[r]
    {
    }
  }

  /** Writing cell (rows, cols) advances the loop state by one cell. */
  lemma PutStep(g: Grid, r0: nat, c0: nat, blk: Grid, rows: nat, cols: nat)
    requires Square(g, |g|) && Square(blk, |blk|)
    requires r0 + |blk| <= |g| && c0 + |blk| <= |g|
    requires r0 <= rows < r0 + |blk| && c0 <= cols < c0 + |blk|
    ensures var p := Put(g, r0, c0, blk, rows, cols);
            p[rows := p[rows][cols := blk[rows - r0][cols - c0]]] == Put(g, r0, c0, blk, rows, cols + 1)
  {
    var p := Put(g, r0, c0, blk, rows, cols);
    var q := Put(g, r0, c0, blk, rows, cols + 1);
    var u := p[rows := p[rows][cols := blk[rows - r0][cols - c0]]];
    forall r | 0 <= r < |g|
      ensures u[r] == q[r]
    {
    }
  }

  /** A finished row continues at the start of the next one. */
  lemma PutNextRow(g: Grid, r0: nat, c0: nat, blk: Grid, rows: nat)
    requires Square(g, |g|) && Square(blk, |blk|)
    requires r0 + |blk| <= |g| && c0 + |blk| <= |g|
    ensures Put(g, r0, c0, blk, rows, c0 + |blk|) == Put(g, r0, c0, blk, rows + 1, c0)
  {
    var p := Put(g, r0, c0, blk, rows, c0 + |blk|);
    var q := Put(g, r0, c0, blk, rows + 1, c0);
    forall r | 0 <= r < |g|
      ensures p[r] == q[r]
    {
    }
  }

  /** The four quadrant loops of populateM, run in order on any 2h x 2h
      matrix, leave exactly the quadrant assembly. */
  lemma FourQuadrants(g: Grid, tl: Grid, tr: Grid, bl: Grid, br: Grid, h: nat)
    requires Square(g, 2 * h)
    requires Square(tl, h) && Square(tr, h) && Square(bl, h) && Square(br, h)
    ensures PutBlock(PutBlock(PutBlock(PutBlock(g, 0, 0, tl), 0, h, tr), h, 0, bl), h, h, br)
            == Quadrants(tl, tr, bl, br, h)
  {
    var g1 := PutBlock(g, 0, 0, tl);
    var g2 := PutBlock(g1, 0, h, tr);
    var g3 := PutBlock(g2, h, 0, bl);
    var g4 := PutBlock(g3, h, h, br);
    var q := Quadrants(tl, tr, bl, br, h);
    forall r | 0 <= r < 2 * h
      ensures g4[r] == q[r]
    {
      forall c | 0 <= c < 2 * h
        ensures g4[r][c] == q[r][c]
      {
        assert g4[r][c] == if h <= r && h <= c then br[r - h][c - h] else g3[r][c];
        assert g3[r][c] == if h <= r && c < h then bl[r - h][c] else g2[r][c];
        assert g2[r][c] == if r < h && h <= c then tr[r][c - h] else g1[r][c];
        assert g1[r][c] == if r < h && c < h then tl[r][c] else g[r][c];
      }
    }
  }

  /** Every row of g has n entries. */
  predicate Rows(g: Grid, n: nat)
  {
    forall r :: 0 <= r < |g| ==> |g[r]| == n
  }

  /** The rows of g laid end to end: the row-major layout. */
  function RowMajor(g: Grid): seq<int>
  {
    if |g| == 0 then [] else RowMajor(g[..|g| - 1]) + g[|g| - 1]
  }

  /** The row-major layout of |g| rows of n entries has |g| * n entries. */
  lemma {:induction false} RowMajorLength(g: Grid, n: nat)
    requires Rows(g, n)
    ensures |RowMajor(g)| == |g| * n
  {
    if |g| > 0 {
      RowMajorLength(g[..|g| - 1], n);
    }
  }

  /** Entry (i, j) sits at position i * n + j of the row-major layout. */
  lemma {:induction false} RowMajorAt(g: Grid, n: nat, i: nat, j: nat)
    requires Rows(g, n) && i < |g| && j < n
    ensures i * n + j < |RowMajor(g)| && RowMajor(g)[i * n + j] == g[i][j]
  {
    var last := |g| - 1;
    RowMajorLength(g[..last], n);
    if i < last {
      RowMajorAt(g[..last], n, i, j);
      MulMonotone(i + 1, last, n);
    }
  }

  /** Appending a row appends it to the layout. */
  lemma RowMajorSnoc(g: Grid, i: nat)
    requires i < |g|
    ensures RowMajor(g[..i + 1]) == RowMajor(g[..i]) + g[i]
  {
    assert g[..i + 1][..i] == g[..i];
  }

  /** x + y in the cells before (i, j) in row-major order, 0 elsewhere: the
      state of the nested loop of operator+. */
  function SumUpTo(x: Grid, y: Grid, i: nat, j: nat): (g: Grid)
    requires Square(x, |x|) && Square(y, |x|)
    ensures Square(g, |x|)
  {
    seq(|x|, r requires 0 <= r < |x| =>
      seq(|x|, c requires 0 <= c < |x| =>
        if r < i || (r == i && c < j) then x[r][c] + y[r][c] else 0))
  }

  lemma SumUpToStart(x: Grid, y: Grid)
    requires Square(x, |x|) && Square(y, |x|)
    ensures SumUpTo(x, y, 0, 0) == Zeros(|x|)
  {
    var p := SumUpTo(x, y, 0, 0);
    forall r | 0 <= r < |x|
      ensures p[r] == Zeros(|x|)[r]
    {
    }
  }

  lemma SumUpToStep(x: Grid, y: Grid, i: nat, j: nat)
    requires Square(x, |x|) && Square(y, |x|) && i < |x| && j < |x|
    ensures var p := SumUpTo(x, y, i, j);
            p[i := p[i][j := x[i][j] + y[i][j]]] == SumUpTo(x, y, i, j + 1)
  {
    var p := SumUpTo(x, y, i, j);
    var q := SumUpTo(x, y, i, j + 1);
    var u := p[i := p[i][j := x[i][j] + y[i][j]]];
    forall r | 0 <= r < |x|
      ensures u[r] == q[r]
    {
    }
  }

  lemma SumUpToNextRow(x: Grid, y: Grid, i: nat)
    requires Square(x, |x|) && Square(y, |x|)
    ensures SumUpTo(x, y, i, |x|) == SumUpTo(x, y, i + 1, 0)
  {
    var p := SumUpTo(x, y, i, |x|);
    var q := SumUpTo(x, y, i + 1, 0);
    forall r | 0 <= r < |x|
      ensures p[r] == q[r]
    {
    }
  }

  lemma SumUpToEnd(x: Grid, y: Grid)
    requires Square(x, |x|) && Square(y, |x|)
    ensures SumUpTo(x, y, |x|, 0) == Add(x, y)
  {
    var p := SumUpTo(x, y, |x|, 0);
    forall r | 0 <= r < |x|
      ensures p[r] == Add(x, y)[r]
    {
    }
  }
}
