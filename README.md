# Spectral-gap matrices M_k: butterfly product and recursive construction

This project models, in Dafny, the core of a small numerical program that
studies the family of symmetric matrices M_k of size 2^k. The program
computes the spectral gap of M_k. It reaches M_k in two independent ways:

* `gap.py`, `matvec_M_final_accurate(k, v)`. This computes the product
  M_k v without building M_k. It uses a butterfly over six buffers: three
  channels a, b, c that hold copies of v, and three scratch buffers. Level
  i (1 <= i <= k) rebuilds every whole block of width 2^i of the
  destination channels from the two halves of the same block of the source
  channels, and the buffers then swap roles. At the end the three buffers
  of the last level are added.
* `recursiveMatrix846.cpp`. Here `RecursiveMatrix` is a square matrix
  class with `set`, `get`, `size` and `operator+`. `populateM(k)` builds
  the matrices a_i, b_i and c_i quadrant by quadrant from a_{i-1},
  b_{i-1} and c_{i-1}, and returns m_i = a_i + b_i + c_i for
  i = 1 .. k. `findEigenvalues` flattens a matrix row by row before it
  hands the matrix to LAPACK. `exportMatrixToCSV` and `exportAllMatrices`
  write the matrices as comma-separated text files.

The model follows the same structure. Each part is written in the form of
its source:

* `Butterfly` is imperative. It works over six `array<int>` buffers, with
  slice copies, the block loop and the level loop. Each of these is proved
  against the specification `Operator.MSpec`.
* `RecursiveMatrices` holds the `RecursiveMatrix` class. Its `data` grid
  is updated in place by `Set`, and `Plus` is the `operator+` loop.
  `PopulateM` uses its quadrant loops, and `Flatten` uses the row-major
  copy.
* `Csv` builds the text that the export functions write, with the same
  loops as the source.
* `Operator`, `Generations`, `Matrices`, `Vectors` and `Text` hold the
  pure specifications and the lemmas about them:
  * the channel index maps;
  * the quadrant recursion of a_i, b_i and c_i;
  * decimal numerals and separator-joined text.

The central result is `Agreement.ButterflyMatchesMatrix`. For k >= 1 and
|v| == 2^k, the butterfly result equals `populateM(k)[k - 1]` times v. It
combines three facts:

* `Butterfly.MatVec` proves that the butterfly computes `MSpec(k, v)`;
* `RecursiveMatrices.PopulateM` proves that its k-th matrix is
  `MFamily(k)`;
* `Matrices.MFamilyMul` proves `Mul(MFamily(k), v) == MSpec(k, v)`.

Numbers are unbounded integers. The source uses float64/double; every
value the C++ stores is one of 0, 1, 2, 3, while gap.py forms sums of
float64 entries whose rounding is not modelled (see "Left out").

## Model

| member | source | states |
|---|---|---|
| Butterfly.CopySlice | gap.py:34-41 | the slice assignment dst[to:to+len] = src[from:from+len] replaces exactly that range of dst with the source slice |
| Butterfly.CopyHalves | gap.py:34-41 | the two half-block assignments into one destination replace the block with the first slice followed by the second |
| Butterfly.UpdateBlock | gap.py:26-41 | after block j is written: dst_a's block is c2 ++ c1, dst_b's is a1 ++ b2 and dst_c's is b1 ++ a2; every other entry of the three destinations is unchanged |
| Butterfly.LevelStep | gap.py:26-41 | one pass of the block loop extends the level-i channel values to block j and leaves every entry after the last whole block unchanged |
| Butterfly.Level | gap.py:22-41 | if the sources hold the three channels after i-1 levels on every whole block of width 2^(i-1), then after the block loop the destinations hold them after i levels on every whole block of width 2^i, and every destination entry after the last whole block keeps its old value |
| Butterfly.Levels | gap.py:14-20 | after the level loop, the buffers of k's parity (y_*2 for odd k, y_*1 for even k) hold generation k; for k < 1 the copies of v are untouched |
| Butterfly.AsArray | gap.py:10 | a fresh buffer holding a copy of v |
| Butterfly.EmptyLike | gap.py:11 | a fresh buffer of length \|v\| with unspecified contents |
| Butterfly.MatVec | gap.py:8-46 | the result has \|v\| entries; each whole block of width 2^k is M_k applied to the matching block of v; for \|v\| == 2^k the result is M_k v; for k == 0 (and every even k <= 0) it is 3v |
| Agreement.ButterflyMatchesMatrix | gap.py:8-46 | for k >= 1 and \|v\| == 2^k, matvec_M_final_accurate(k, v) equals populateM(k)[k-1] times v |
| Generations.HoldsInitially | gap.py:10 | the copies of v hold every channel after 0 levels |
| Generations.HoldsHalves | gap.py:30-32 | at level i, the two halves of block j of a source hold the channel after i-1 levels of the two halves of v's block |
| Generations.StepA | gap.py:34-35 | c2 ++ c1 of block j is channel a after i levels of v's block |
| Generations.StepB | gap.py:37-38 | a1 ++ b2 of block j is channel b after i levels of v's block |
| Generations.StepC | gap.py:40-41 | b1 ++ a2 of block j is channel c after i levels of v's block |
| Generations.WrittenBlock | gap.py:25-28 | writing block j correctly, while keeping the blocks before it, extends the invariant from j blocks to j+1 blocks |
| Generations.BlockStepA | gap.py:34-35 | the write of dst_a's block j extends channel a's invariant to block j+1 |
| Generations.BlockStepB | gap.py:37-38 | the write of dst_b's block j extends channel b's invariant to block j+1 |
| Generations.BlockStepC | gap.py:40-41 | the write of dst_c's block j extends channel c's invariant to block j+1 |
| Generations.Fused | gap.py:43-46 | the sum of the three buffers of generation k is M_k on every whole block, and M_k v when \|v\| == 2^k |
| Operator.Origin | gap.py:30-41 | the input position that a channel carries to position t lies in range |
| Operator.OriginInvolutive | gap.py:30-41 | each channel's index map is its own inverse |
| Operator.ApplyHalvesA | gap.py:34-35 | channel a after i levels is c of the right half followed by c of the left half, each after i-1 levels |
| Operator.ApplyHalvesB | gap.py:37-38 | channel b after i levels is a of the left half followed by b of the right half |
| Operator.ApplyHalvesC | gap.py:40-41 | channel c after i levels is b of the left half followed by a of the right half |
| Operator.ApplyInvolutive | gap.py:30-41 | applying a channel twice gives back the input |
| Operator.ApplyIsPermutation | gap.py:30-41 | every channel only rearranges its input (same multiset of entries) |
| Operator.ApplySelfAdjoint | gap.py:30-41 | every channel is self-adjoint: <P x, y> == <x, P y> |
| Operator.ApplyConst | gap.py:30-41 | a constant input is left unchanged by every channel |
| Operator.ApplyLinear | gap.py:30-41 | every channel is linear |
| Operator.MSelfAdjoint | gap.py:43-46 | M_k is self-adjoint, the symmetry that the symmetric eigensolver relies on |
| Operator.MLinear | gap.py:43-46 | M_k is linear |
| Operator.MConst | gap.py:43-46 | M_k maps the constant vector c to the constant vector 3c |
| Operator.MFirstLevelExample | gap.py:14-46 | M_1 [1, 0] == [2, 1] |
| Operator.MAllOnesExample | gap.py:14-46 | M_2 of the all-ones vector is all threes |
| Matrices.Zeros | recursiveMatrix846.cpp:20 | an n x n matrix whose entries are all 0 |
| Matrices.Add | recursiveMatrix846.cpp:44-51 | the entrywise sum has the shape of its operands |
| Matrices.Quadrants | recursiveMatrix846.cpp:87-122 | four h x h quadrants form a 2h x 2h matrix |
| Matrices.Family | recursiveMatrix846.cpp:60-126 | a_i, b_i and c_i are 2^i x 2^i |
| Matrices.MFamily | recursiveMatrix846.cpp:80-127 | m_i is 2^i x 2^i |
| Matrices.FamilyEntry | recursiveMatrix846.cpp:60-122 | row r of a_i, b_i or c_i has a 1 in column Origin(ch, i, r) and 0 everywhere else |
| Matrices.FamilyIsPermutation | recursiveMatrix846.cpp:60-122 | a_i, b_i and c_i are symmetric 0/1 permutation matrices: the 1 of row r is in column c exactly when the 1 of row c is in column r, and each row sums to 1 |
| Matrices.FamilyRowSums | recursiveMatrix846.cpp:60-122 | every row of a_i, b_i and c_i sums to 1 |
| Matrices.MFamilyBase | recursiveMatrix846.cpp:60-80 | m_1 == [[2, 1], [1, 2]] |
| Matrices.DotUnit | recursiveMatrix846.cpp:60-122 | a 0/1 row with a single 1 at p picks entry p of the vector |
| Matrices.DotNull | recursiveMatrix846.cpp:87-122 | a zero row gives 0 |
| Matrices.FamilyMul | recursiveMatrix846.cpp:82-126 | multiplying by a_i, b_i or c_i is applying the butterfly channel of the same name |
| Matrices.MFamilyMul | recursiveMatrix846.cpp:80-127 | m_k v is M_k v as the butterfly defines it |
| Matrices.MFamilyShape | recursiveMatrix846.cpp:80-127 | m_k is symmetric, its entries lie in 0..3, and each row sums to 3 |
| Matrices.PutNothing | recursiveMatrix846.cpp:87-122 | before the first cell of a quadrant loop nothing is written |
| Matrices.PutStep | recursiveMatrix846.cpp:89-94 | one set(rows, cols, ...) advances the quadrant loop state by one cell in row-major order |
| Matrices.PutNextRow | recursiveMatrix846.cpp:87-95 | finishing a row of the quadrant loop is the start of the next row |
| Matrices.FourQuadrants | recursiveMatrix846.cpp:85-122 | the four quadrant loops together turn a fresh matrix into the quadrant matrix |
| Matrices.RowMajorLength | recursiveMatrix846.cpp:137 | the flattened matrix has n * n entries |
| Matrices.RowMajorAt | recursiveMatrix846.cpp:138-144 | entry (i, j) sits at position i * n + j of the flattened matrix |
| Matrices.RowMajorSnoc | recursiveMatrix846.cpp:138-144 | the outer loop appends row i to the flattened prefix |
| Matrices.SumUpToStart | recursiveMatrix846.cpp:44 | the fresh result of operator+ is the sum state with no cell written |
| Matrices.SumUpToStep | recursiveMatrix846.cpp:49 | one set(i, j, x + y) advances the sum state by one cell |
| Matrices.SumUpToNextRow | recursiveMatrix846.cpp:45-51 | finishing row i is the start of row i+1 |
| Matrices.SumUpToEnd | recursiveMatrix846.cpp:45-52 | after all rows, the state is the entrywise sum |
| RecursiveMatrices.RecursiveMatrix.constructor | recursiveMatrix846.cpp:20 | a size x size matrix of zeros |
| RecursiveMatrices.RecursiveMatrix.Set | recursiveMatrix846.cpp:22-25 | entry (i, j) becomes value, every other entry and the size are unchanged |
| RecursiveMatrices.RecursiveMatrix.Get | recursiveMatrix846.cpp:27-30 | get(i, j) is the entry that the row-major flatten stores at position i * n + j |
| RecursiveMatrices.RecursiveMatrix.Size | recursiveMatrix846.cpp:32-35 | the size is the number of rows and the length of every row |
| RecursiveMatrices.RecursiveMatrix.Plus | recursiveMatrix846.cpp:36-53 | for different sizes the error exit (None), otherwise a fresh matrix holding the entrywise sum |
| RecursiveMatrices.FillQuadrant | recursiveMatrix846.cpp:87-122 | one quadrant loop pair writes the three h x h blocks at (r0, c0) into a_i, b_i and c_i and leaves every other entry unchanged |
| RecursiveMatrices.SumOfThree | recursiveMatrix846.cpp:80 | ai + bi + ci evaluated as (ai + bi) + ci |
| RecursiveMatrices.Base | recursiveMatrix846.cpp:60-79 | the constructor and four set calls give the 2 x 2 matrix of the four values |
| RecursiveMatrices.NextFamilies | recursiveMatrix846.cpp:84-122 | a_i = [[0, c], [c, 0]], b_i = [[a, 0], [0, b]] and c_i = [[b, 0], [0, a]], built from a_{i-1}, b_{i-1} and c_{i-1} |
| RecursiveMatrices.FirstLevel | recursiveMatrix846.cpp:60-80 | a_1, b_1 and c_1 are fresh base channel matrices, and m_1 is their fresh sum |
| RecursiveMatrices.NextLevel | recursiveMatrix846.cpp:84-127 | one pass of the loop produces fresh a_i, b_i, c_i and m_i of size 2^i |
| RecursiveMatrices.PopulateM | recursiveMatrix846.cpp:56-130 | populateM(k) returns k matrices (1 when k < 1), the i-th of size 2^i and equal to m_i, each a fresh object |
| RecursiveMatrices.StoreRow | recursiveMatrix846.cpp:140-143 | the inner loop stores row i at the n positions that follow the prefix; the prefix and every entry after those n positions keep their values |
| RecursiveMatrices.CopyRows | recursiveMatrix846.cpp:137-144 | the loops store the rows of R end to end in a freshly allocated array |
| RecursiveMatrices.Flatten | recursiveMatrix846.cpp:134-144 | A is a fresh array of n * n entries and is the row-major layout of R |
| Text.Decimal | recursiveMatrix846.cpp:222 | to_string of a non-negative number: at least one digit, and no leading zero |
| Text.DecimalRoundTrip | recursiveMatrix846.cpp:222 | reading the numeral back gives the number |
| Text.DecimalInjective | recursiveMatrix846.cpp:222 | different numbers have different numerals |
| Text.SplitJoin | recursiveMatrix846.cpp:192-203 | splitting a join of separator-free parts gives the parts back |
| Text.JoinCount | recursiveMatrix846.cpp:192-203 | a join of k separator-free parts holds k - 1 separators |
| Text.TerminatedIsJoin | recursiveMatrix846.cpp:192-203 | lines that each end with a newline are the lines joined by newlines, followed by an empty piece |
| Csv.Cell | recursiveMatrix846.cpp:196 | an entry's text holds no comma and no newline |
| Csv.CellRoundTrip | recursiveMatrix846.cpp:196 | every entry reads back as itself |
| Csv.LinePrefixIsJoin | recursiveMatrix846.cpp:194-201 | after j columns the row text is the first j entries joined by commas, plus one comma when more columns follow |
| Csv.LineIsJoin | recursiveMatrix846.cpp:194-201 | a row's line is its entries joined by commas |
| Csv.LineShape | recursiveMatrix846.cpp:194-202 | a line holds no newline, and a row of size >= 1 holds size - 1 commas |
| Csv.CsvLines | recursiveMatrix846.cpp:192-203 | the file is exactly the rows' lines in order, each ended by a newline; it holds as many newlines as rows |
| Csv.CsvShape | recursiveMatrix846.cpp:191-203 | for a size x size matrix: size lines, each with size - 1 commas, each ended by a newline |
| Csv.CsvRoundTrip | recursiveMatrix846.cpp:191-203 | the file of a matrix with non-empty rows reads back as the matrix |
| Csv.WriteRow | recursiveMatrix846.cpp:194-201 | the column loop writes the row's line |
| Csv.CsvTextSnoc | recursiveMatrix846.cpp:192-203 | one pass of the row loop appends the row's line and a newline |
| Csv.ExportMatrixText | recursiveMatrix846.cpp:181-207 | the text written for a matrix is its CSV text |
| Csv.ExportNameReadsBack | recursiveMatrix846.cpp:212-222 | the file name is the working directory, "/exportedMatrices/matrix_m", a numeral and ".csv", and the numeral reads back as i + 1 |
| Csv.ExportNamesDistinct | recursiveMatrix846.cpp:220-224 | different indices give different file names, so no export overwrites another |
| Csv.ExportSkipsFirst | recursiveMatrix846.cpp:220-222 | no exported index gets matrix_m1.csv: m_1 is never exported |
| Csv.ExportAllMatrices | recursiveMatrix846.cpp:209-225 | for i = 1 .. \|mvals\| - 1 in order, file "<dir>/exportedMatrices/matrix_m(i+1).csv" holds the CSV text of mvals[i]; no file is written for fewer than two matrices |

## Left out

- Floating point: entries are integers, and rounding is not modelled. gap.py uses float64 and the C++ uses double. The C++ stores only the values 0..3, which are exact, but the final sum of the three float64 buffers in gap.py rounds. Operator.MLinear and Operator.MSelfAdjoint state linearity and symmetry exactly; for the float64 butterfly they hold only up to rounding.
- The eigenvalue driver of gap.py (LinearOperator, eigsh, timing, printing) and LAPACKE_dsyev in findEigenvalues, which are foreign numerical code. Only the flatten that precedes the LAPACK call is modelled.
- The numba `jit`/`prange` parallelism: the blocks of a level are written one after another. They touch disjoint ranges (Butterfly.UpdateBlock leaves every entry outside its block unchanged), so the order does not matter.
- All file and directory I/O. Files are modelled as (name, text) pairs, the working directory is a parameter, and the console messages are not modelled. writeEigenvaluesToCSV and main are not part of this model.
- plotNormalize.py and graphsAdjacency.py are not part of this model.
- Butterfly.MatVec: for odd negative k only the length of the result is promised. The source returns the sum of the never-written np.empty_like buffers, whose contents are unspecified. The trailing entries after the last whole block of width 2^k are not promised either. No level rebuilds them at width 2^k; each holds whatever a lower level wrote there, or the initial copy of v, or (in y_*2) an unwritten np.empty_like entry. For even k the source result is deterministic there (for |v| = 6 and k = 2 the last two entries are 3 * v[4] and 3 * v[5]), but the model does not track it; Butterfly.Level only states that a level leaves those entries unchanged.
- Butterfly.MatVec: the 64-bit range of numba integers is not modelled, and 2**i is exact.
- RecursiveMatrices.PopulateM: `int matrixSize = pow(2, i)` is exact here. For k >= 31 the C++ int would overflow.
- RecursiveMatrices.PopulateM: the get calls on amatrices[i-2], bmatrices[i-2] and cmatrices[i-2] inside the quadrant loops are read through those matrices' grids, which are passed to FillQuadrant. Each loop pass is a helper method: FirstLevel, NextLevel, NextFamilies and FillQuadrant.
- RecursiveMatrices.PopulateM: push_back copies a matrix in C++. Here the lists hold references to fresh objects that are never mutated afterwards, which is the same behaviour.
- RecursiveMatrices.RecursiveMatrix.Plus: the error path of operator+ (a message and exit(1)) is the result None.
- RecursiveMatrices.RecursiveMatrix.constructor: takes a nat. A negative size makes std::vector throw, and that path is not modelled.
- RecursiveMatrices.Flatten: the pointwise fact A[i * n + j] == R.get(i, j) is stated by RecursiveMatrix.Get and Matrices.RowMajorAt on the layout that Flatten returns, not as a quantified postcondition of Flatten.
- RecursiveMatrices.Flatten: the C++ computes n * n and i * n + j in int, which overflows for n >= 46341 (recursiveMatrix846.cpp:137 and 142). Here they are exact.
- Csv.Cell: `file << double` with default precision is modelled for whole numbers only, as their decimal numerals. This matches the stream only for |x| < 10^6: with six significant digits 1000000.0 prints as 1e+06. populateM stores only the values 0..3, which print as their numerals.
