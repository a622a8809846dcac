/** The RecursiveMatrix container of recursiveMatrix846.cpp, populateM, and
    the row-major flatten of findEigenvalues.

    The matrix keeps its size n and a grid of rows that set updates in place.
    Entries are integers; the source stores doubles, but every value it
    stores is 0, 1, 2 or 3. operator+ ends the program on a size mismatch;
    here it returns None instead. */
module RecursiveMatrices {
  import opened Vectors
  import opened Operator
  import opened Matrices

  datatype Option<T> = None | Some(value: T)

  class RecursiveMatrix {
    var n: int
    var data: Grid

    /** data has n rows of n entries. */
    ghost predicate Valid()
      reads this
    {
      0 <= n && Square(data, n)
    }

    /** RecursiveMatrix(size): a size x size matrix of zeros. */
    constructor(size: nat)
      ensures Valid() && n == size && data == Zeros(size)
    {
      n := size;
      data := Zeros(size);
    }

    /** set(i, j, value): entry (i, j) becomes value, every other entry keeps
        its value, so get(i, j) returns value afterwards. */
    method Set(i: nat, j: nat, value: int)
      requires Valid() && i < n && j < n
      modifies this
      ensures Valid() && n == old(n)
      ensures data == old(data)[i := old(data)[i][j := value]]
    {
      data := data[i := data[i][j := value]];
    }

    /** get(i, j): the entry that the row-major flatten stores at
        position i * n + j. */
    function Get(i: nat, j: nat): (r: int)
      reads this
      requires Valid() && i < n && j < n
      ensures i * n + j < |RowMajor(data)| && r == RowMajor(data)[i * n + j]
    {
      RowMajorAt(data, n, i, j);
      data[i][j]
    }

    /** size(): the number of rows, which is also the number of columns. */
    function Size(): (r: int)
      reads this
      requires Valid()
      ensures r == |data| && forall t :: 0 <= t < |data| ==> |data[t]| == r
    {
      n
    }

    /** operator+: for equal sizes a fresh matrix holding the entrywise sum,
        both operands unchanged; for different sizes the error exit, None. */
    method Plus(other: RecursiveMatrix) returns (r: Option<RecursiveMatrix>)
      requires Valid() && other.Valid()
      ensures r.None? <==> n != other.n
      ensures r.Some? ==> fresh(r.value) && r.value.Valid() && r.value.n == n &&
                          r.value.data == Add(data, other.data)
    {
      if n != other.n {
        return None;
      }
      var x, y := data, other.data;
      var result := new RecursiveMatrix(n);
      SumUpToStart(x, y);
      var i := 0;
      while i < n
        invariant 0 <= i <= n
        invariant result.n == n && result.data == SumUpTo(x, y, i, 0)
      {
        var j := 0;
        while j < n
          invariant 0 <= j <= n
          invariant result.n == n && result.data == SumUpTo(x, y, i, j)
        {
          SumUpToStep(x, y, i, j);
          result.Set(i, j, x[i][j] + y[i][j]);
          j := j + 1;
        }
        SumUpToNextRow(x, y, i);
        i := i + 1;
      }
      SumUpToEnd(x, y);
      r := Some(result);
    }
  }

  /** One of the four quadrant loop pairs of populateM: rows r0..r0+h-1,
      columns c0..c0+h-1, each cell of ai, bi and ci set from the matching
      cell of the blocks ga, gb and gc (a zero block where the source sets 0). */
  method FillQuadrant(ai: RecursiveMatrix, bi: RecursiveMatrix, ci: RecursiveMatrix,
                      r0: nat, c0: nat, h: nat, ga: Grid, gb: Grid, gc: Grid)
    requires ai != bi && bi != ci && ai != ci
    requires ai.Valid() && bi.Valid() && ci.Valid() && ai.n == bi.n == ci.n
    requires Square(ga, h) && Square(gb, h) && Square(gc, h)
    requires r0 + h <= ai.n && c0 + h <= ai.n
    modifies ai, bi, ci
    ensures ai.Valid() && bi.Valid() && ci.Valid()
    ensures ai.n == old(ai.n) && bi.n == old(bi.n) && ci.n == old(ci.n)
    ensures ai.data == PutBlock(old(ai.data), r0, c0, ga)
    ensures bi.data == PutBlock(old(bi.data), r0, c0, gb)
    ensures ci.data == PutBlock(old(ci.data), r0, c0, gc)
  {
    ghost var a0, b0, e0 := ai.data, bi.data, ci.data;
    PutNothing(a0, r0, c0, ga);
    PutNothing(b0, r0, c0, gb);
    PutNothing(e0, r0, c0, gc);
    var rows := r0;
    while rows < r0 + h
      invariant r0 <= rows <= r0 + h
      invariant ai.n == |a0| && bi.n == |a0| && ci.n == |a0|
      invariant ai.data == Put(a0, r0, c0, ga, rows, c0)
      invariant bi.data == Put(b0, r0, c0, gb, rows, c0)
      invariant ci.data == Put(e0, r0, c0, gc, rows, c0)
    {
      var cols := c0;
      while cols < c0 + h
        invariant c0 <= cols <= c0 + h
        invariant ai.n == |a0| && bi.n == |a0| && ci.n == |a0|
        invariant ai.data == Put(a0, r0, c0, ga, rows, cols)
        invariant bi.data == Put(b0, r0, c0, gb, rows, cols)
        invariant ci.data == Put(e0, r0, c0, gc, rows, cols)
      {
        PutStep(a0, r0, c0, ga, rows, cols);
        PutStep(b0, r0, c0, gb, rows, cols);
        PutStep(e0, r0, c0, gc, rows, cols);
        ai.Set(rows, cols, ga[rows - r0][cols - c0]);
        bi.Set(rows, cols, gb[rows - r0][cols - c0]);
        ci.Set(rows, cols, gc[rows - r0][cols - c0]);
        cols := cols + 1;
      }
      PutNextRow(a0, r0, c0, ga, rows);
      PutNextRow(b0, r0, c0, gb, rows);
      PutNextRow(e0, r0, c0, gc, rows);
      rows := rows + 1;
    }
  }

  /** a + b + c, evaluated as (a + b) + c like the source's `ai + bi + ci`;
      the three sizes agree wherever populateM forms this sum. */
  method SumOfThree(a: RecursiveMatrix, b: RecursiveMatrix, c: RecursiveMatrix)
    returns (m: RecursiveMatrix)
    requires a.Valid() && b.Valid() && c.Valid() && a.n == b.n == c.n
    ensures fresh(m) && m.Valid() && m.n == a.n
    ensures m.data == Add(Add(a.data, b.data), c.data)
  {
    var ab := a.Plus(b);
    var abc := ab.value.Plus(c);
    m := abc.value;
  }

  /** The 2x2 matrix [[x00, x01], [x10, x11]], made by the constructor and four
      set calls as the base case of populateM does. */
  method Base(x00: int, x01: int, x10: int, x11: int) returns (m: RecursiveMatrix)
    ensures fresh(m) && m.Valid() && m.n == 2 && m.data == [[x00, x01], [x10, x11]]
  {
    m := new RecursiveMatrix(2);
    assert Const(2, 0) == [0, 0];
    assert m.data == [[0, 0], [0, 0]];
    m.Set(0, 0, x00);
    m.Set(0, 1, x01);
    assert m.data[0] == [x00, x01];
    m.Set(1, 0, x10);
    m.Set(1, 1, x11);
    assert m.data[1] == [x10, x11];
  }

  /** One pass of the populateM loop: fresh a_i, b_i, c_i of size 2^i filled
      quadrant by quadrant from a_{i-1}, b_{i-1}, c_{i-1}. */
  method NextFamilies(i: nat, pa: RecursiveMatrix, pb: RecursiveMatrix, pc: RecursiveMatrix)
    returns (ai: RecursiveMatrix, bi: RecursiveMatrix, ci: RecursiveMatrix)
    requires 2 <= i
    requires pa.Valid() && pb.Valid() && pc.Valid()
    requires pa.n == Pow2(i - 1) && pb.n == Pow2(i - 1) && pc.n == Pow2(i - 1)
    ensures fresh(ai) && fresh(bi) && fresh(ci) && ai != bi && bi != ci && ai != ci
    ensures ai.Valid() && bi.Valid() && ci.Valid()
    ensures ai.n == Pow2(i) && bi.n == Pow2(i) && ci.n == Pow2(i)
    ensures var h := Pow2(i - 1);
            ai.data == Quadrants(Zeros(h), pc.data, pc.data, Zeros(h), h) &&
            bi.data == Quadrants(pa.data, Zeros(h), Zeros(h), pb.data, h) &&
            ci.data == Quadrants(pb.data, Zeros(h), Zeros(h), pa.data, h)
  {
    var matrixSize := Pow2(i);
    ai := new RecursiveMatrix(matrixSize);
    bi := new RecursiveMatrix(matrixSize);
    ci := new RecursiveMatrix(matrixSize);
    var half := matrixSize / 2;
    var z := Zeros(half);
    ghost var a0, b0, c0 := ai.data, bi.data, ci.data;
    FillQuadrant(ai, bi, ci, 0, 0, half, z, pa.data, pb.data);
    FillQuadrant(ai, bi, ci, 0, half, half, pc.data, z, z);
    FillQuadrant(ai, bi, ci, half, 0, half, pc.data, z, z);
    FillQuadrant(ai, bi, ci, half, half, half, z, pb.data, pa.data);
    FourQuadrants(a0, z, pc.data, pc.data, z, half);
    FourQuadrants(b0, pa.data, z, z, pb.data, half);
    FourQuadrants(c0, pb.data, z, z, pa.data, half);
  }

  /** The matrices before the loop of populateM: a_1, b_1, c_1 set entry by
      entry and m_1 = a_1 + b_1 + c_1. */
  method FirstLevel() returns (a1: RecursiveMatrix, b1: RecursiveMatrix, c1: RecursiveMatrix,
                               m1: RecursiveMatrix)
    ensures fresh(a1) && fresh(b1) && fresh(c1) && fresh(m1)
    ensures a1.Valid() && a1.n == Pow2(1) && a1.data == Family(A, 1)
    ensures b1.Valid() && b1.n == Pow2(1) && b1.data == Family(B, 1)
    ensures c1.Valid() && c1.n == Pow2(1) && c1.data == Family(C, 1)
    ensures m1.Valid() && m1.n == Pow2(1) && m1.data == MFamily(1)
  {
    a1 := Base(0, 1, 1, 0);
    b1 := Base(1, 0, 0, 1);
    c1 := Base(1, 0, 0, 1);
    m1 := SumOfThree(a1, b1, c1);
  }

  /** One pass of the populateM loop: a_i, b_i, c_i from their predecessors,
      and m_i = a_i + b_i + c_i. */
  method NextLevel(i: nat, pa: RecursiveMatrix, pb: RecursiveMatrix, pc: RecursiveMatrix)
    returns (ai: RecursiveMatrix, bi: RecursiveMatrix, ci: RecursiveMatrix, mi: RecursiveMatrix)
    requires 2 <= i
    requires pa.Valid() && pa.n == Pow2(i - 1) && pa.data == Family(A, i - 1)
    requires pb.Valid() && pb.n == Pow2(i - 1) && pb.data == Family(B, i - 1)
    requires pc.Valid() && pc.n == Pow2(i - 1) && pc.data == Family(C, i - 1)
    ensures fresh(ai) && fresh(bi) && fresh(ci) && fresh(mi)
    ensures ai.Valid() && ai.n == Pow2(i) && ai.data == Family(A, i)
    ensures bi.Valid() && bi.n == Pow2(i) && bi.data == Family(B, i)
    ensures ci.Valid() && ci.n == Pow2(i) && ci.data == Family(C, i)
    ensures mi.Valid() && mi.n == Pow2(i) && mi.data == MFamily(i)
  {
    ai, bi, ci := NextFamilies(i, pa, pb, pc);
    mi := SumOfThree(ai, bi, ci);
  }

  /** ms[t] is m_(t + 1) of size 2^(t + 1), for every t. */
  ghost predicate MList(ms: seq<RecursiveMatrix>)
    reads ms
  {
    forall t :: 0 <= t < |ms| ==>
      ms[t].Valid() && ms[t].n == Pow2(t + 1) && ms[t].data == MFamily(t + 1)
  }

  /** Appending m_(|ms| + 1) to m_1 .. m_|ms| gives m_1 .. m_(|ms| + 1). */
  lemma MListAppend(ms: seq<RecursiveMatrix>, m: RecursiveMatrix)
    requires MList(ms)
    requires m.Valid() && m.n == Pow2(|ms| + 1) && m.data == MFamily(|ms| + 1)
    ensures MList(ms + [m])
  {
  }

  /** a_i, b_i, c_i of size 2^i: the last entries of amatrices, bmatrices and
      cmatrices while populateM runs. */
  ghost predicate Channels(a: RecursiveMatrix, b: RecursiveMatrix, c: RecursiveMatrix, i: nat)
    reads a, b, c
  {
    1 <= i &&
    a.Valid() && a.n == Pow2(i) && a.data == Family(A, i) &&
    b.Valid() && b.n == Pow2(i) && b.data == Family(B, i) &&
    c.Valid() && c.n == Pow2(i) && c.data == Family(C, i)
  }

  /** populateM(k): the matrices m_1 .. m_k, of sizes 2, 4, .., 2^k; for
      k < 1 the loop does not run and only m_1 is returned. */
  method PopulateM(k: int) returns (mvals: seq<RecursiveMatrix>)
    ensures |mvals| == if k < 1 then 1 else k
    ensures MList(mvals)
    ensures forall t :: 0 <= t < |mvals| ==> fresh(mvals[t])
  {
    var a1, b1, c1, m1 := FirstLevel();
    var amatrices, bmatrices, cmatrices, mmatrices := [a1], [b1], [c1], [m1];
    var i := 2;
    while i <= k
      invariant 2 <= i && (k >= 1 ==> i <= k + 1) && (k < 1 ==> i == 2)
      invariant |amatrices| == |bmatrices| == |cmatrices| == |mmatrices| == i - 1
      invariant Channels(amatrices[i - 2], bmatrices[i - 2], cmatrices[i - 2], i - 1)
      invariant MList(mmatrices)
      invariant forall t :: 0 <= t < |mmatrices| ==> fresh(mmatrices[t])
    {
      var ai, bi, ci, mi := NextLevel(i, amatrices[i - 2], bmatrices[i - 2], cmatrices[i - 2]);
      amatrices := amatrices + [ai];
      bmatrices := bmatrices + [bi];
      cmatrices := cmatrices + [ci];
      MListAppend(mmatrices, mi);
      mmatrices := mmatrices + [mi];
      i := i + 1;
    }
    mvals := mmatrices;
  }

  /** The inner loop of the flatten: row i of R stored at A[row .. row + n). */
  method StoreRow(A: array<int>, R: RecursiveMatrix, i: nat, row: nat)
    requires R.Valid() && i < R.n && row + R.n <= A.Length
    modifies A
    ensures A[..row + R.n] == old(A[..row]) + R.data[i]
    ensures A[row + R.n..] == old(A[row + R.n..])
  {
    var n := R.Size();
    var j := 0;
    while j < n
      invariant 0 <= j <= n
      invariant A[..row + j] == old(A[..row]) + R.data[i][..j]
      invariant A[row + n..] == old(A[row + n..])
    {
      A[row + j] := R.Get(i, j);
      assert R.data[i][..j + 1] == R.data[i][..j] + [R.data[i][j]];
      j := j + 1;
    }
    assert R.data[i][..n] == R.data[i];
  }

  /** The row loop of the flatten: the rows of R laid end to end. */
  method CopyRows(R: RecursiveMatrix) returns (A: array<int>)
    requires R.Valid()
    ensures fresh(A)
    ensures A[..] == RowMajor(R.data)
  {
    var n := R.Size();
    ghost var g := R.data;
    A := new int[n * n];
    TimesIsProduct(n, n);
    var i := 0;
    while i < n
      invariant 0 <= i <= n
      invariant Times(i, n) <= Times(n, n) && A[..Times(i, n)] == RowMajor(g[..i])
    {
      TimesIsProduct(i, n);
      OffsetMonotone(i + 1, n, n);
      StoreRow(A, R, i, i * n);
      RowMajorSnoc(g, i);
      i := i + 1;
    }
    assert g[..n] == g;
  }

  /** The row-major copy A of R that findEigenvalues hands to the solver:
      A has n * n entries, the rows of R laid end to end, so that
      A[i * n + j] == R.get(i, j) (RowMajorAt). */
  method Flatten(R: RecursiveMatrix) returns (A: array<int>)
    requires R.Valid()
    ensures fresh(A)
    ensures A.Length == R.n * R.n
    ensures A[..] == RowMajor(R.data)
  {
    A := CopyRows(R);
    RowMajorLength(R.data, R.n);
  }
}
