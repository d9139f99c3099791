# Hexagonal resistor network: the coefficient matrix of `make_matrix`

`make_matrix(N)` builds the sparse coefficient matrix of a resistor network
laid out on an N-by-N grid with brick ("hexagonal") connectivity. It visits
the grid nodes (k, i) in row-major order. Node (k, i) owns matrix row
`Adiag = N*k + i`. The node is classified by its grid row (bottom, top, odd
interior, even interior) and by its column (corner or parity). Then a
(row, column, value) triple is appended, for the diagonal and for each
coupled neighbour, to the three parallel lists `Arows`, `Acols` and `Adata`.
The lists form a COO matrix, which stands for the sum of its triples per
position; `.tocsr()` adds duplicates up.

The model has four modules:

- `Coo` (Coo.dfy): triples, and the meaning of a COO list as a matrix whose
  entry (r, c) is the sum of the values of all triples at (r, c) (`Dense`).
  It proves that this sum is additive over concatenation and does not depend
  on the order of the triples. When positions are distinct, every triple is
  its own entry.
- `Stencil` (Stencil.dfy): the node classes (`NodeClass`, `Classify`), the
  neighbour directions of each class (`Couplings`), and the triples a node
  contributes (`NodeTriples`). The rules are stated once, as a table of
  directions.
- `Assembly` (Assembly.dfy): the nested loops as an imperative `MakeMatrix`
  with `while` loops over three `seq<int>` lists, plus the loop body.
  - `AppendNode` dispatches on the row case.
  - Six methods hold the branches of `make_matrix` with their literal
    values, one `Emit` (three appends) per triple.
  - Each of them is proved to append exactly `NodeTriples(N, k, i)`. That
    proof is what shows the hand-written values (1, 2, 3 on the
    diagonal, -1 elsewhere) agree with the direction table.
- `Properties` (Properties.dfy): facts about the whole list and the matrix
  it denotes: row order, dense entries, zero row sums, column bounds that
  depend on the parity of N, couplings that wrap across grid rows, and the
  literal N = 2 matrix.

N is an unbounded integer. `range(N)` is empty for N <= 0, so the model
yields no triples there. Values are integers: `make_matrix` only ever appends
1, 2, 3 and -1.

Facts about `make_matrix` that the model establishes:

- Every row's triples sum to zero, bottom rows included (`RowsBalanced`).
- The diagonal value is 1, 2 or 3 (`EveryRowHasDiagonal`).
- N = 1 is not rejected before the loops: the single node takes the
  bottom-corner branch and couples to column 1 = N*N, so the COO constructor
  raises ValueError, as it does for every odd N (`OddOverflow`).
- For every odd N the top-right node couples to column N*N, outside the
  N*N-by-N*N shape, so the COO constructor raises ValueError and no matrix
  is returned (`OddOverflow`, `ColumnsInShapeIffEven`).

## Model

| member | source | states |
|---|---|---|
| Assembly.Before | functions.py:15-16 | definition: the triples of every node visited before (k, i) by the two nested loops, i.e. rows 0..k-1 whole, then nodes (k, 0)..(k, i-1), each node's triples in emission order |
| Assembly.AllTriples | functions.py:15-178 | definition: everything the loops append for N, `Before(N, N, 0)`; empty when N <= 0 since `range(N)` is empty |
| Assembly.MakeMatrix | functions.py:5-178 | the shape is N**2, the three lists have equal length, and their triples are exactly the triples of every node in row-major visiting order (`AllTriples`) |
| Assembly.Emit | functions.py:21-23 | appending to `Arows`, `Acols`, `Adata` together adds one triple to the zipped lists and keeps their lengths equal |
| Assembly.AppendNode | functions.py:17-178 | one pass of the inner loop appends exactly the node's triples and keeps the list lengths equal, whichever row case applies |
| Assembly.AppendBottomCorner | functions.py:20-35 | the bottom corners append (d, d, 1) and (d, d+N, -1), which is the node's triple list |
| Assembly.AppendBottomInterior | functions.py:36-59 | both parity branches of the bottom interior append (d, d, 2), (d, d+1, -1), (d, d+N, -1), the node's triple list |
| Assembly.AppendTopEdge | functions.py:60-85 | the top row appends diagonal 2 with east (even i) or west (odd i) and south, the node's triple list |
| Assembly.AppendOddRow | functions.py:86-120 | odd interior rows append diagonal 3 with east or west by parity, then south and north, the node's triple list |
| Assembly.AppendEvenRowCorner | functions.py:122-146 | the corners of even interior rows append diagonal 2 with d-1 and d-N, the node's triple list |
| Assembly.AppendEvenRowInterior | functions.py:147-178 | other columns of even interior rows append diagonal 3 with east (odd i) or west (even i), then south and north, the node's triple list |
| Stencil.Classify | functions.py:19-163 | definition: the branch node (k, i) takes, testing k == 0, then k == N-1, then k odd, then (even rows) the corners i == 0 or i == N-1, and last the parity of i, earlier tests winning |
| Stencil.Couplings | functions.py:20-178 | the neighbour directions each branch emits, in emission order (east +1, west -1, north +N, south -N); every branch couples to one to three directions, none twice |
| Stencil.Neighbours | functions.py:20-178 | definition: the columns node (k, i) couples to, N*k+i plus each direction's offset, in emission order |
| Stencil.NodeTriples | functions.py:18-178 | a node emits 2 to 4 triples, all in row N*k+i; the first is the diagonal, whose value is the number of the others; every other triple has value -1 and a neighbour's column |
| Stencil.NeighboursDistinct | functions.py:18-178 | on the grid a node never couples to its own row index and never twice to the same column |
| Stencil.NodeDistinctPositions | functions.py:18-178 | no two triples of one node share a (row, column) position |
| Stencil.NodeRowMajor | functions.py:18-178 | one node's triples occupy the single row N*k+i with distinct positions |
| Stencil.NodeDense | functions.py:18-179 | summed per position, a node's triples give the number of couplings on the diagonal, -1 at each coupled column and 0 elsewhere, including every other row |
| Stencil.NodeBalanced | functions.py:21-178 | a node's triples sum to zero in every row |
| Stencil.NeighbourBounds | functions.py:26-177 | every coupled column of a grid node lies in [0, N*N], and N*N is reached only by the top-right node of an odd grid |
| Stencil.TopRightOverflow | functions.py:61-69 | for odd N the top-right node couples to column N*N (for N = 1 through the bottom-corner branch, lines 20-27) |
| Stencil.BottomInteriorParityFree | functions.py:36-59 | a bottom interior node emits diagonal 2, east and north, whatever the parity of i |
| Coo.Dense | functions.py:179 | definition: entry (r, c) of the matrix a COO triple list denotes, the sum of the values of all triples at (r, c) |
| Coo.DenseAppend | functions.py:179 | the summed entry of a concatenation is the sum of the entries of the parts |
| Coo.DenseAbsent | functions.py:179 | a position no triple occupies has entry 0 |
| Coo.DenseSupport | functions.py:179 | a non-zero entry is backed by a triple at that position |
| Coo.DenseUnique | functions.py:179 | with distinct positions, each triple's value is the entry at its position |
| Coo.DensePermutation | functions.py:179 | two triple lists with the same multiset denote the same matrix: emission order does not matter |
| Coo.RowSumOfEntries | functions.py:179 | when a row's columns lie in [lo, hi), the entries of that row over [lo, hi) add up to the row's triple values |
| Properties.RowsRowMajor | functions.py:15-16 | after whole grid rows 0..k-1 the triples are row-major over rows [0, N*k) |
| Properties.PrefixRowMajor | functions.py:16-23 | within grid row k, the inner loop keeps the list row-major up to row N*k+i |
| Properties.TriplesInRowMajorOrder | functions.py:15-23 | all rows lie in [0, N*N), rows never decrease along the lists, and no position occurs twice |
| Properties.CooMergesNothing | functions.py:179 | duplicate summation merges nothing: every appended triple is its own matrix entry |
| Properties.DenseRows | functions.py:15-179 | after grid rows 0..k-1, a node's row holds its own entries if its grid row was visited, zero otherwise |
| Properties.MatrixEntry | functions.py:15-179 | row N*k+i of the matrix has the number of couplings on its diagonal, -1 at each coupled column and 0 elsewhere |
| Properties.MatrixEntryOutside | functions.py:15-179 | rows outside [0, N*N) are empty |
| Properties.EveryRowHasDiagonal | functions.py:15-23 | every row in [0, N*N) has a diagonal triple, with value 1, 2 or 3 |
| Properties.RowsBalanced | functions.py:21-178 | every row's triple values sum to zero |
| Properties.ColumnBounds | functions.py:26-177 | every column lies in [0, N*N]; column N*N occurs only for odd N and only in the last row |
| Properties.OddOverflow | functions.py:61-69 | for odd N the matrix has -1 at (N*N-1, N*N), one column past the shape |
| Properties.ColumnsInShapeIffEven | functions.py:15-179 | all columns fit the N*N-by-N*N shape exactly when N is even (N >= 1) |
| Properties.MatrixRowSumZero | functions.py:15-179 | for even N every row of the matrix sums to zero over columns [0, N*N) |
| Properties.OddLastRowUnbalanced | functions.py:61-69 | for odd N the last row sums to 1 within the shape, because its -1 lies in column N*N |
| Properties.BottomCornerPinned | functions.py:20-35 | for N >= 1 a bottom corner's row is 1 on the diagonal, -1 at the node above, 0 elsewhere |
| Properties.EvenRowCornerWrap | functions.py:122-146 | on an even interior row each corner's whole row is 2 on the diagonal, -1 at d-1 and at d-N (the node below), 0 elsewhere, so neither corner couples east or north; for i = 0, d-1 = N*k-1 is the last node of the previous grid row |
| Properties.OddRowEastWrap | functions.py:86-103 | on an odd interior row of an odd grid the last node couples east to N*(k+1), the first node of the next grid row |
| Properties.TwoByTwo | functions.py:19-85 | for N = 2 the lists are exactly rows 0: {0:1, 2:-1}, 1: {1:1, 3:-1}, 2: {2:2, 3:-1, 0:-1}, 3: {3:2, 2:-1, 1:-1}, in that order |

## Left out

- The CSR conversion (functions.py:179-180): the row-pointer and
  column-index layout, and the ValueError the COO constructor raises when a
  column is outside the shape. These belong to a foreign library. Only the
  meaning "sum the values per (row, column)" is modelled (`Coo.Dense`). The
  out-of-shape column that triggers the error for odd N is proved to exist
  instead (`Properties.OddOverflow`).
- The `spsolve` import (functions.py:3), an unused floating-point linear solve.
- The dense arrays `A` and `I` (functions.py:8-9), allocated and never used.
- Floating point: every coefficient is one of the integers 1, 2, 3, -1, so
  values are `int`.
- Python lists are modelled as `seq<int>` values that the loop reassigns. The
  model does not capture aliasing of the lists.
- Assembly: the inner-loop branch table of `make_matrix` is one `if/elif`
  chain. The model splits it into six methods by row case, with the corner
  tests separated from the parity tests, and `AppendNode` dispatches with the
  same conditions in the same order. A last test that cannot fail once the
  earlier ones have is written as `else`: `elif k % 2 == 0`
  (functions.py:122), and the final `elif i % 2 == 0` or `elif i % 2 == 1`
  of each row case.
- Stencil.BottomInteriorParityFree: the verifier proves it from the
  definitions alone. It records the fact for a reader and carries no proof work.
