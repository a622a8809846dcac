/** The butterfly evaluation of M_k v (gap.py, matvec_M_final_accurate).

    Three channel buffers are copied from v; three more start with arbitrary
    contents. Level i (1 <= i <= k) reads the buffers of one parity and writes
    the others: every whole block of width 2^i of the destination channels is
    rebuilt from the two halves of the same block of the source channels.
    The result is the elementwise sum of the three buffers of the last level.
    Entries are integers; the source uses float64, whose rounding is not
    modelled. */
module Butterfly {
  import opened Vectors
  import opened Operator
  import opened Generations

  /** Six distinct buffers: three sources and three destinations. */
  predicate Separate(sa: array<int>, sb: array<int>, sc: array<int>,
                     da: array<int>, db: array<int>, dc: array<int>)
  {
    sa != sb && sb != sc && sa != sc && da != db && db != dc && da != dc &&
    da != sa && da != sb && da != sc && db != sa && db != sb && db != sc &&
    dc != sa && dc != sb && dc != sc
  }

  /** The slice assignment dst[to:to+len] = src[from:from+len]. */
  method CopySlice(src: array<int>, from: nat, dst: array<int>, to: nat, len: nat)
    requires src != dst && from + len <= src.Length && to + len <= dst.Length
    modifies dst
    ensures dst[..] == Splice(old(dst[..]), to, src[from..from + len])
  {
    forall t | to <= t < to + len {
      dst[t] := src[t - to + from];
    }
    assert dst[..] == old(dst[..])[..to] + src[from..from + len] + old(dst[..])[to + len..];
  }

  /** Two half-block slice assignments into one destination: the half at
      start gets src1[from1:from1+h], the half after it src2[from2:from2+h]. */
  method CopyHalves(src1: array<int>, from1: nat, src2: array<int>, from2: nat,
                    dst: array<int>, start: nat, h: nat)
    requires src1 != dst && src2 != dst
    requires from1 + h <= src1.Length && from2 + h <= src2.Length && start + 2 * h <= dst.Length
    modifies dst
    ensures dst[..] == Splice(old(dst[..]), start, src1[from1..from1 + h] + src2[from2..from2 + h])
  {
    CopySlice(src1, from1, dst, start, h);
    CopySlice(src2, from2, dst, start + h, h);
    SpliceTwice(old(dst[..]), start, src1[from1..from1 + h], src2[from2..from2 + h]);
  }

  /** The body of the block loop: the six half-block slice assignments of the
      block that starts at start. */
  method UpdateBlock(sa: array<int>, sb: array<int>, sc: array<int>,
                     da: array<int>, db: array<int>, dc: array<int>, start: nat, h: nat)
    requires sa.Length == sb.Length == sc.Length == da.Length == db.Length == dc.Length
    requires start + 2 * h <= sa.Length
    requires Separate(sa, sb, sc, da, db, dc)
    modifies da, db, dc
    ensures da[..] == Splice(old(da[..]), start, sc[start + h..start + 2 * h] + sc[start..start + h])
    ensures db[..] == Splice(old(db[..]), start, sa[start..start + h] + sb[start + h..start + 2 * h])
    ensures dc[..] == Splice(old(dc[..]), start, sb[start..start + h] + sa[start + h..start + 2 * h])
  {
    CopyHalves(sc, start + h, sc, start, da, start, h);
    ghost var na := da[..];
    CopyHalves(sa, start, sb, start + h, db, start, h);
    ghost var nb := db[..];
    CopyHalves(sb, start, sa, start + h, dc, start, h);
    assert da[..] == na && db[..] == nb;
  }

  /** One pass of the block loop of level i: block j of the destination
      channels is rebuilt, which extends the level-i invariant to block j + 1
      and leaves every entry after block j alone. */
  method LevelStep(i: nat, sa: array<int>, sb: array<int>, sc: array<int>,
                   da: array<int>, db: array<int>, dc: array<int>, ghost v: seq<int>,
                   j: nat)
    requires 0 < i
    requires sa.Length == sb.Length == sc.Length == da.Length == db.Length == dc.Length == |v|
    requires Separate(sa, sb, sc, da, db, dc)
    requires Generation(sa[..], sb[..], sc[..], i - 1, v)
    requires j < Blocks(|v|, Pow2(i))
    requires Holds(A, da[..], i, v, j) && Holds(B, db[..], i, v, j) && Holds(C, dc[..], i, v, j)
    modifies da, db, dc
    ensures Holds(A, da[..], i, v, j + 1) && Holds(B, db[..], i, v, j + 1) && Holds(C, dc[..], i, v, j + 1)
    ensures forall t :: Offset(j + 1, Pow2(i)) <= t < |v| ==>
              da[t] == old(da[t]) && db[t] == old(db[t]) && dc[t] == old(dc[t])
  {
    var blockSize := Pow2(i);
    var half := Pow2(i - 1);
    BlockFits(j, sa.Length, blockSize);
    TimesIsProduct(j, blockSize);
    var start := j * blockSize;
    assert Offset(j + 1, blockSize) == start + 2 * half;
    ghost var oa, ob, oc := da[..], db[..], dc[..];
    UpdateBlock(sa, sb, sc, da, db, dc, start, half);
    SpliceAfter(oa, start, sc[start + half..start + 2 * half] + sc[start..start + half], start + 2 * half);
    SpliceAfter(ob, start, sa[start..start + half] + sb[start + half..start + 2 * half], start + 2 * half);
    SpliceAfter(oc, start, sb[start..start + half] + sa[start + half..start + 2 * half], start + 2 * half);
    BlockStepA(i, sc[..], oa, v, j, start, half);
    BlockStepB(i, sa[..], sb[..], ob, v, j, start, half);
    BlockStepC(i, sa[..], sb[..], oc, v, j, start, half);
  }

  /** One level i: every whole block of width 2^i of the destination channels
      is rebuilt from the source channels of level i-1; the entries after the
      last whole block keep their values. */
  method Level(i: nat, sa: array<int>, sb: array<int>, sc: array<int>,
               da: array<int>, db: array<int>, dc: array<int>, ghost v: seq<int>)
    requires 0 < i
    requires sa.Length == sb.Length == sc.Length == da.Length == db.Length == dc.Length == |v|
    requires Separate(sa, sb, sc, da, db, dc)
    requires Generation(sa[..], sb[..], sc[..], i - 1, v)
    modifies da, db, dc
    ensures Generation(da[..], db[..], dc[..], i, v)
    ensures forall t :: Offset(Blocks(|v|, Pow2(i)), Pow2(i)) <= t < |v| ==>
              da[t] == old(da[t]) && db[t] == old(db[t]) && dc[t] == old(dc[t])
  {
    var blockSize := Pow2(i);
    BlocksIsQuotient(sa.Length, blockSize);
    BlocksBounds(sa.Length, blockSize);
    ghost var tail := Offset(Blocks(sa.Length, blockSize), blockSize);
    var j := 0;
    while j < sa.Length / blockSize
      invariant j <= Blocks(sa.Length, blockSize)
      invariant Holds(A, da[..], i, v, j) && Holds(B, db[..], i, v, j) && Holds(C, dc[..], i, v, j)
      invariant forall t :: tail <= t < |v| ==> da[t] == old(da[t]) && db[t] == old(db[t]) && dc[t] == old(dc[t])
    {
      OffsetMonotone(j + 1, Blocks(sa.Length, blockSize), blockSize);
      LevelStep(i, sa, sb, sc, da, db, dc, v, j);
      j := j + 1;
    }
  }

  /** A fresh buffer holding a copy of v, as v.astype(np.float64) makes. */
  method AsArray(v: seq<int>) returns (a: array<int>)
    ensures fresh(a) && a[..] == v
  {
    a := new int[|v|](t requires 0 <= t < |v| => v[t]);
  }

  /** A fresh buffer as long as v whose contents are unspecified, as
      np.empty_like(v) makes. */
  method EmptyLike(v: seq<int>) returns (a: array<int>)
    ensures fresh(a) && a.Length == |v|
  {
    a := new int[|v|];
  }

  /** The level loop of matvec_M_final_accurate: level i reads the buffers
      of parity i (the first three for odd i) and writes the others. After
      it the buffers of the parity of k hold generation k; for k < 1 the
      loop does not run. */
  method Levels(k: int, ya1: array<int>, yb1: array<int>, yc1: array<int>,
                ya2: array<int>, yb2: array<int>, yc2: array<int>, ghost v: seq<int>)
    requires ya1.Length == yb1.Length == yc1.Length == ya2.Length == yb2.Length == yc2.Length == |v|
    requires Separate(ya1, yb1, yc1, ya2, yb2, yc2) && Separate(ya2, yb2, yc2, ya1, yb1, yc1)
    requires ya1[..] == v && yb1[..] == v && yc1[..] == v
    requires Generation(ya1[..], yb1[..], yc1[..], 0, v)
    modifies ya1, yb1, yc1, ya2, yb2, yc2
    ensures k >= 0 && k % 2 == 1 ==> Generation(ya2[..], yb2[..], yc2[..], k, v)
    ensures k >= 0 && k % 2 == 0 ==> Generation(ya1[..], yb1[..], yc1[..], k, v)
    ensures k < 1 ==> ya1[..] == v && yb1[..] == v && yc1[..] == v
  {
    var i := 1;
    ghost var ca, cb, cc := ya1, yb1, yc1;
    ghost var done: nat := 0;
    while i <= k
      invariant 1 <= i <= if k >= 1 then k + 1 else 1
      invariant if i % 2 == 1 then ca == ya1 && cb == yb1 && cc == yc1 else ca == ya2 && cb == yb2 && cc == yc2
      invariant done == i - 1 && Generation(ca[..], cb[..], cc[..], done, v)
      invariant k < 1 ==> ya1[..] == v && yb1[..] == v && yc1[..] == v
    {
      var srcA, srcB, srcC, dstA, dstB, dstC;
      if i % 2 == 1 {
        srcA, srcB, srcC := ya1, yb1, yc1;
        dstA, dstB, dstC := ya2, yb2, yc2;
      } else {
        srcA, srcB, srcC := ya2, yb2, yc2;
        dstA, dstB, dstC := ya1, yb1, yc1;
      }
      Level(i, srcA, srcB, srcC, dstA, dstB, dstC, v);
      ca, cb, cc, done := dstA, dstB, dstC, i;
      i := i + 1;
    }
    assert i == if k >= 1 then k + 1 else 1;
    if k >= 0 && k % 2 == 1 {
      assert ca == ya2 && cb == yb2 && cc == yc2 && done == k;
    } else if k >= 0 {
      assert ca == ya1 && cb == yb1 && cc == yc1 && done == k;
    }
  }

  /** matvec_M_final_accurate(k, v). For every whole block of width 2^k of v
      the matching block of the result is M_k applied to it; when v has
      exactly 2^k entries the result is M_k v. For k <= 0 no level runs. */
  method MatVec(k: int, v: seq<int>) returns (r: seq<int>)
    ensures |r| == |v|
    ensures k >= 0 ==> forall j :: 0 <= j < Blocks(|v|, Pow2(k)) ==>
              Block(r, j, Pow2(k)) == MSpec(k, Block(v, j, Pow2(k)))
    ensures k >= 0 && |v| == Pow2(k) ==> r == MSpec(k, v)
    ensures k <= 0 && k % 2 == 0 ==> r == Sum3(v, v, v)
  {
    var ya1 := AsArray(v);
    var yb1 := AsArray(v);
    var yc1 := AsArray(v);
    var ya2 := EmptyLike(v);
    var yb2 := EmptyLike(v);
    var yc2 := EmptyLike(v);
    assert Separate(ya1, yb1, yc1, ya2, yb2, yc2) && Separate(ya2, yb2, yc2, ya1, yb1, yc1);
    HoldsInitially(A, v);
    HoldsInitially(B, v);
    HoldsInitially(C, v);
    Levels(k, ya1, yb1, yc1, ya2, yb2, yc2, v);
    if k % 2 == 1 {
      r := Sum3(ya2[..], yb2[..], yc2[..]);
      if k >= 0 {
        Fused(k, ya2[..], yb2[..], yc2[..], v, r);
      }
    } else {
      r := Sum3(ya1[..], yb1[..], yc1[..]);
      if k >= 0 {
        Fused(k, ya1[..], yb1[..], yc1[..], v, r);
      }
    }
  }
}
