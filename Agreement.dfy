/** The two halves of the program agree: the butterfly of gap.py computes
    the product with the matrix m_k that populateM builds entry by entry. */
module Agreement {
  import opened Vectors
  import opened Operator
  import opened Matrices
  import opened Butterfly
  import opened RecursiveMatrices

  /** For k >= 1 and a vector of 2^k entries, matvec_M_final_accurate(k, v)
      equals populateM(k)[k - 1] times v. */
  method ButterflyMatchesMatrix(k: int, v: seq<int>) returns (fast: seq<int>, slow: seq<int>)
    requires k >= 1 && |v| == Pow2(k)
    ensures fast == slow
    ensures fast == Mul(MFamily(k), v)
  {
    fast := MatVec(k, v);
    var mvals := PopulateM(k);
    var m := mvals[k - 1];
    slow := Mul(m.data, v);
    MFamilyMul(k, v);
  }
}
