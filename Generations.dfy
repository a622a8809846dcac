/** What the butterfly buffers hold between levels, and why one level
    moves them from generation i-1 to generation i. */
module Generations {
  import opened Vectors
  import opened Operator

  /** The first n blocks of width 2^g of buf hold channel ch after g levels,
      applied to the matching blocks of the input v. */
  ghost predicate Holds(ch: Channel, buf: seq<int>, g: nat, v: seq<int>, n: nat)
  {
    |buf| == |v| && n <= Blocks(|v|, Pow2(g)) &&
    forall j :: 0 <= j < n ==> Block(buf, j, Pow2(g)) == Apply(ch, g, Block(v, j, Pow2(g)))
  }

  /** Every whole block of width 2^g of buf holds channel ch after g levels. */
  ghost predicate HoldsAll(ch: Channel, buf: seq<int>, g: nat, v: seq<int>)
  {
    |buf| == |v| && Holds(ch, buf, g, v, Blocks(|v|, Pow2(g)))
  }

  /** Buffers a, b, c hold the three channels after g levels. */
  ghost predicate Generation(a: seq<int>, b: seq<int>, c: seq<int>, g: nat, v: seq<int>)
  {
    HoldsAll(A, a, g, v) && HoldsAll(B, b, g, v) && HoldsAll(C, c, g, v)
  }

  /** Before the first level every channel is the input itself. */
  lemma HoldsInitially(ch: Channel, v: seq<int>)
    ensures HoldsAll(ch, v, 0, v)
  {
    forall j | 0 <= j < Blocks(|v|, Pow2(0))
      ensures Block(v, j, 1) == Apply(ch, 0, Block(v, j, 1))
    {
      ApplyZero(ch, Block(v, j, 1));
    }
  }

  /** If level i-1 holds, both halves of block j at level i hold channel ch of
      the matching halves of the input block. */
  lemma HoldsHalves(ch: Channel, buf: seq<int>, i: nat, v: seq<int>, j: nat)
    requires 0 < i && HoldsAll(ch, buf, i - 1, v) && j < Blocks(|v|, Pow2(i))
    ensures Block(buf, j, Pow2(i))[..Pow2(i - 1)] == Apply(ch, i - 1, Block(v, j, Pow2(i))[..Pow2(i - 1)])
    ensures Block(buf, j, Pow2(i))[Pow2(i - 1)..] == Apply(ch, i - 1, Block(v, j, Pow2(i))[Pow2(i - 1)..])
  {
    var h := Pow2(i - 1);
    BlockHalves(buf, j, h);
    BlockHalves(v, j, h);
  }

  /** Destination channel A of block j: the right half of source C, then its left half. */
  lemma StepA(i: nat, sc: seq<int>, v: seq<int>, j: nat)
    requires 0 < i && HoldsAll(C, sc, i - 1, v) && j < Blocks(|v|, Pow2(i))
    ensures Block(sc, j, Pow2(i))[Pow2(i - 1)..] + Block(sc, j, Pow2(i))[..Pow2(i - 1)]
         == Apply(A, i, Block(v, j, Pow2(i)))
  {
    HoldsHalves(C, sc, i, v, j);
    ApplyHalvesA(i, Block(v, j, Pow2(i)));
  }

  /** Destination channel B of block j: the left half of source A, then the right half of source B. */
  lemma StepB(i: nat, sa: seq<int>, sb: seq<int>, v: seq<int>, j: nat)
    requires 0 < i && HoldsAll(A, sa, i - 1, v) && HoldsAll(B, sb, i - 1, v) && j < Blocks(|v|, Pow2(i))
    ensures Block(sa, j, Pow2(i))[..Pow2(i - 1)] + Block(sb, j, Pow2(i))[Pow2(i - 1)..]
         == Apply(B, i, Block(v, j, Pow2(i)))
  {
    HoldsHalves(A, sa, i, v, j);
    HoldsHalves(B, sb, i, v, j);
    ApplyHalvesB(i, Block(v, j, Pow2(i)));
  }

  /** Destination channel C of block j: the left half of source B, then the right half of source A. */
  lemma StepC(i: nat, sa: seq<int>, sb: seq<int>, v: seq<int>, j: nat)
    requires 0 < i && HoldsAll(A, sa, i - 1, v) && HoldsAll(B, sb, i - 1, v) && j < Blocks(|v|, Pow2(i))
    ensures Block(sb, j, Pow2(i))[..Pow2(i - 1)] + Block(sa, j, Pow2(i))[Pow2(i - 1)..]
         == Apply(C, i, Block(v, j, Pow2(i)))
  {
    HoldsHalves(B, sb, i, v, j);
    HoldsHalves(A, sa, i, v, j);
    ApplyHalvesC(i, Block(v, j, Pow2(i)));
  }

  /** Two sequences that agree before p agree on every slice that ends by p. */
  lemma SameBeforePrefix(s: seq<int>, s': seq<int>, p: nat, a: nat, b: nat)
    requires a <= b <= p <= |s| && p <= |s'| && s[..p] == s'[..p]
    ensures s[a..b] == s'[a..b]
  {
    forall t | a <= t < b
      ensures s[t] == s'[t]
    {
      assert s[t] == s[..p][t];
    }
  }

  /** Rewriting block j leaves the blocks before it as they were. */
  lemma BlocksBefore(s: seq<int>, s': seq<int>, j: nat, w: nat)
    requires 0 < w && |s| == |s'| && j < Blocks(|s|, w)
    requires Offset(j, w) <= |s| && s[..Offset(j, w)] == s'[..Offset(j, w)]
    ensures forall j' :: 0 <= j' < j ==> Block(s, j', w) == Block(s', j', w)
  {
    BlockFits(j, |s|, w);
    var p := Offset(j, w);
    forall j' | 0 <= j' < j
      ensures Block(s, j', w) == Block(s', j', w)
    {
      OffsetMonotone(j' + 1, j, w);
      var o := Offset(j', w);
      assert Offset(j' + 1, w) == o + w;
      SameBeforePrefix(s, s', p, o, o + w);
    }
  }

  /** The two level-i halves of block j of width w. */
  lemma BlockSlices(s: seq<int>, j: nat, w: nat, h: nat)
    requires 0 < h && w == 2 * h && j < Blocks(|s|, w)
    ensures Offset(j, w) + w <= |s|
    ensures Block(s, j, w)[..h] == s[Offset(j, w)..Offset(j, w) + h]
    ensures Block(s, j, w)[h..] == s[Offset(j, w) + h..Offset(j, w) + w]
  {
    BlockFits(j, |s|, w);
  }

  /** A destination buffer after block j is written: if the blocks before j
      are as they were and block j is channel ch of level i of the input block,
      blocks 0..j hold level i. */
  lemma WrittenBlock(ch: Channel, i: nat, o: seq<int>, n: seq<int>, v: seq<int>, j: nat)
    requires j < Blocks(|v|, Pow2(i)) && |n| == |v|
    requires Holds(ch, o, i, v, j)
    requires Offset(j, Pow2(i)) <= |n| && n[..Offset(j, Pow2(i))] == o[..Offset(j, Pow2(i))]
    requires Block(n, j, Pow2(i)) == Apply(ch, i, Block(v, j, Pow2(i)))
    ensures Holds(ch, n, i, v, j + 1)
  {
    var w := Pow2(i);
    BlocksBefore(o, n, j, w);
    forall j' | 0 <= j' < j + 1
      ensures Block(n, j', w) == Apply(ch, i, Block(v, j', w))
    {
      if j' < j {
        assert Block(n, j', w) == Block(o, j', w);
      }
    }
  }

  /** Destination A after block j is written: the right half of the source C
      block, then its left half. */
  lemma BlockStepA(i: nat, sc: seq<int>, o: seq<int>, v: seq<int>, j: nat, st: nat, h: nat)
    requires 0 < i && j < Blocks(|v|, Pow2(i)) && st == Offset(j, Pow2(i)) && h == Pow2(i - 1) && st + 2 * h <= |v|
    requires HoldsAll(C, sc, i - 1, v) && Holds(A, o, i, v, j)
    ensures Holds(A, Splice(o, st, sc[st + h..st + 2 * h] + sc[st..st + h]), i, v, j + 1)
  {
    var w := Pow2(i);
    BlockSlices(sc, j, w, h);
    StepA(i, sc, v, j);
    var piece := sc[st + h..st + 2 * h] + sc[st..st + h];
    SpliceBlock(o, j, w, piece);
    WrittenBlock(A, i, o, Splice(o, st, piece), v, j);
  }

  /** Destination B after block j is written: the left half of the source A
      block, then the right half of the source B block. */
  lemma BlockStepB(i: nat, sa: seq<int>, sb: seq<int>, o: seq<int>, v: seq<int>, j: nat, st: nat, h: nat)
    requires 0 < i && j < Blocks(|v|, Pow2(i)) && st == Offset(j, Pow2(i)) && h == Pow2(i - 1) && st + 2 * h <= |v|
    requires HoldsAll(A, sa, i - 1, v) && HoldsAll(B, sb, i - 1, v) && Holds(B, o, i, v, j)
    ensures Holds(B, Splice(o, st, sa[st..st + h] + sb[st + h..st + 2 * h]), i, v, j + 1)
  {
    var w := Pow2(i);
    BlockSlices(sa, j, w, h);
    BlockSlices(sb, j, w, h);
    StepB(i, sa, sb, v, j);
    var piece := sa[st..st + h] + sb[st + h..st + 2 * h];
    SpliceBlock(o, j, w, piece);
    WrittenBlock(B, i, o, Splice(o, st, piece), v, j);
  }

  /** Destination C after block j is written: the left half of the source B
      block, then the right half of the source A block. */
  lemma BlockStepC(i: nat, sa: seq<int>, sb: seq<int>, o: seq<int>, v: seq<int>, j: nat, st: nat, h: nat)
    requires 0 < i && j < Blocks(|v|, Pow2(i)) && st == Offset(j, Pow2(i)) && h == Pow2(i - 1) && st + 2 * h <= |v|
    requires HoldsAll(A, sa, i - 1, v) && HoldsAll(B, sb, i - 1, v) && Holds(C, o, i, v, j)
    ensures Holds(C, Splice(o, st, sb[st..st + h] + sa[st + h..st + 2 * h]), i, v, j + 1)
  {
    var w := Pow2(i);
    BlockSlices(sa, j, w, h);
    BlockSlices(sb, j, w, h);
    StepC(i, sa, sb, v, j);
    var piece := sb[st..st + h] + sa[st + h..st + 2 * h];
    SpliceBlock(o, j, w, piece);
    WrittenBlock(C, i, o, Splice(o, st, piece), v, j);
  }

  /** The three channels of the last level add up to M_k on every whole block. */
  lemma Fused(k: nat, a: seq<int>, b: seq<int>, c: seq<int>, v: seq<int>, r: seq<int>)
    requires Generation(a, b, c, k, v) && r == Sum3(a, b, c)
    ensures forall j :: 0 <= j < Blocks(|v|, Pow2(k)) ==> Block(r, j, Pow2(k)) == MSpec(k, Block(v, j, Pow2(k)))
    ensures |v| == Pow2(k) ==> r == MSpec(k, v)
  {
    var w := Pow2(k);
    forall j | 0 <= j < Blocks(|v|, w)
      ensures Block(r, j, w) == MSpec(k, Block(v, j, w))
    {
      BlockSum3(a, b, c, j, w);
    }
    if |v| == w {
      assert Block(v, 0, w) == v && Block(r, 0, w) == r;
    }
  }
}
