/**
 * The per-node stencil of `make_matrix`: how a grid node (k, i) of an N-by-N
 * grid is classified, which neighbours it couples to, and the (row, column,
 * value) triples it contributes. Node (k, i) owns matrix row N*k + i.
 */
module Stencil {
  import opened Coo

  /** A neighbour direction; the grid is linearised row-major, so East is +1 and North is +N. */
  datatype Dir = East | West | North | South

  function Offset(d: Dir, N: int): int
  {
    match d
    case East => 1
    case West => -1
    case North => N
    case South => -N
  }

  /** The node classes of `make_matrix`'s branch table, in the order it tests them. */
  datatype NodeClass =
    | BottomCorner     // k == 0, i == 0 or i == N - 1
    | BottomInterior   // k == 0, any other i (both parities)
    | TopEven          // k == N - 1, i even
    | TopOdd           // k == N - 1, i odd
    | OddRowEvenCol    // k odd interior row, i even
    | OddRowOddCol     // k odd interior row, i odd
    | EvenRowCorner    // k even interior row, i == 0 or i == N - 1
    | EvenRowOddCol    // k even interior row, other i odd
    | EvenRowEvenCol   // k even interior row, other i even

  /**
   * Which branch of the table node (k, i) takes; earlier tests win, so k == 0
   * beats k == N - 1. The last test of a chain (`k % 2 == 0`, `i % 2 == 0`)
   * cannot fail once the earlier ones have, so it is the final `else`.
   */
  function Classify(N: int, k: int, i: int): NodeClass
  {
    if k == 0 then
      if i == 0 || i == N - 1 then BottomCorner else BottomInterior
    else if k == N - 1 then
      if i % 2 == 0 then TopEven else TopOdd
    else if k % 2 == 1 then
      if i % 2 == 0 then OddRowEvenCol else OddRowOddCol
    else if i == 0 || i == N - 1 then EvenRowCorner
    else if i % 2 == 1 then EvenRowOddCol
    else EvenRowEvenCol
  }

  /** The neighbours a node of class c couples to, in the order `make_matrix` emits them. */
  function Couplings(c: NodeClass): (ds: seq<Dir>)
    ensures 1 <= |ds| <= 3
    ensures forall p, q :: 0 <= p < q < |ds| ==> ds[p] != ds[q]
  {
    match c
    case BottomCorner => [North]
    case BottomInterior => [East, North]
    case TopEven => [East, South]
    case TopOdd => [West, South]
    case OddRowEvenCol => [East, South, North]
    case OddRowOddCol => [West, South, North]
    case EvenRowCorner => [West, South]
    case EvenRowOddCol => [East, South, North]
    case EvenRowEvenCol => [West, South, North]
  }

  /** The columns node (k, i) couples to, in emission order. */
  function Neighbours(N: int, k: int, i: int): seq<int>
  {
    var dirs := Couplings(Classify(N, k, i));
    seq(|dirs|, p requires 0 <= p < |dirs| => N * k + i + Offset(dirs[p], N))
  }

  /**
   * The triples node (k, i) contributes: first the diagonal, whose value is the
   * number of couplings, then a -1 for each coupled column.
   */
  function NodeTriples(N: int, k: int, i: int): (ts: seq<Triple>)
    ensures |ts| == |Neighbours(N, k, i)| + 1 && 2 <= |ts| <= 4
    ensures ts[0] == Triple(N * k + i, N * k + i, |ts| - 1)
    ensures forall p :: 0 <= p < |ts| ==> ts[p].row == N * k + i
    ensures forall p :: 1 <= p < |ts| ==> ts[p].val == -1 && ts[p].col == Neighbours(N, k, i)[p - 1]
  {
    var d := N * k + i;
    var nb := Neighbours(N, k, i);
    [Triple(d, d, |nb|)] + seq(|nb|, p requires 0 <= p < |nb| => Triple(d, nb[p], -1))
  }

  /** Arithmetic about row starts: row k of the grid occupies [N*k, N*k + N) within [0, N*N). */
  lemma RowStart(N: int, k: int)
    requires 0 <= k < N
    ensures 0 <= N * k && N * k + N <= N * N
    ensures k == N - 1 ==> N * k + N == N * N
    ensures k + 1 < N ==> N * (k + 1) == N * k + N && N * k + 2 * N <= N * N
  {
    var m := N - 1 - k;
    assert N * N == N * (k + 1 + m) == N * k + N + N * m;
    assert N * m >= 0;
    assert N * (k + 1) == N * k + N;
  }

  /**
   * On a grid (0 <= k, i < N) a node never couples to itself and never twice to
   * the same column.
   */
  lemma NeighboursDistinct(N: int, k: int, i: int)
    requires 0 <= k < N && 0 <= i < N
    ensures N * k + i !in Neighbours(N, k, i)
    ensures forall p, q :: 0 <= p < q < |Neighbours(N, k, i)| ==>
              Neighbours(N, k, i)[p] != Neighbours(N, k, i)[q]
  {
    if N == 1 {
      assert Classify(N, k, i) == BottomCorner;
    }
  }

  /** Distinct positions within a node: COO summation merges nothing inside one node. */
  lemma NodeDistinctPositions(N: int, k: int, i: int)
    requires 0 <= k < N && 0 <= i < N
    ensures DistinctPositions(NodeTriples(N, k, i))
  {
    NeighboursDistinct(N, k, i);
  }

  /** One node's triples, on their own, form a row-major list of the single row N*k + i. */
  lemma NodeRowMajor(N: int, k: int, i: int)
    requires 0 <= k < N && 0 <= i < N
    ensures RowMajor(NodeTriples(N, k, i), N * k + i, N * k + i + 1)
  {
    NodeDistinctPositions(N, k, i);
  }

  /**
   * The dense entries of one node's triples: the diagonal holds the number of
   * couplings, each coupled column holds -1, everything else is 0.
   */
  lemma NodeDense(N: int, k: int, i: int, r: int, c: int)
    requires 0 <= k < N && 0 <= i < N
    ensures Dense(NodeTriples(N, k, i), r, c) ==
      if r != N * k + i then 0
      else if c == r then |Neighbours(N, k, i)|
      else if c in Neighbours(N, k, i) then -1
      else 0
  {
    var d, nb, ts := N * k + i, Neighbours(N, k, i), NodeTriples(N, k, i);
    NodeDistinctPositions(N, k, i);
    NeighboursDistinct(N, k, i);
    if r != d {
      DenseAbsent(ts, r, c);
    } else if c == d {
      DenseUnique(ts, 0);
    } else if c in nb {
      var p :| 0 <= p < |nb| && nb[p] == c;
      DenseUnique(ts, p + 1);
    } else {
      forall q | 0 <= q < |ts| ensures ts[q].row != r || ts[q].col != c {
        if q > 0 {
          assert ts[q].col == nb[q - 1];
        }
      }
      DenseAbsent(ts, r, c);
    }
  }

  /** Every node's row balances: the diagonal equals the number of -1 couplings. */
  lemma NodeBalanced(N: int, k: int, i: int, r: int)
    ensures RowTotal(NodeTriples(N, k, i), r) == 0
  {
    var ts := NodeTriples(N, k, i);
    assert ts == [ts[0]] + ts[1..];
    RowTotalAppend([ts[0]], ts[1..], r);
    RowTotalOfCouplings(ts[1..], N * k + i, r);
  }

  /**
   * Column bounds of one grid node: every coupled column lies in [0, N*N], and
   * only the top-right node of an odd grid reaches N*N.
   */
  lemma NeighbourBounds(N: int, k: int, i: int)
    requires 0 <= k < N && 0 <= i < N
    ensures forall c :: c in Neighbours(N, k, i) ==>
              0 <= c <= N * N && (c == N * N ==> N % 2 == 1 && k == N - 1 && i == N - 1)
  {
    RowStart(N, k);
    if k >= 1 {
      RowStart(N, k - 1);
    }
  }

  /** The top-right node of an odd grid couples to column N*N, one past the last row. */
  lemma TopRightOverflow(N: int)
    requires N >= 1 && N % 2 == 1
    ensures N * N in Neighbours(N, N - 1, N - 1)
  {
    RowStart(N, N - 1);
    if N == 1 {
      assert Neighbours(N, N - 1, N - 1)[0] == N * N;
    } else {
      assert Classify(N, N - 1, N - 1) == TopEven;
      assert Neighbours(N, N - 1, N - 1)[0] == N * N;
    }
  }

  /**
   * The two parity branches of the bottom-row interior are the same rule:
   * diagonal 2, east neighbour, north neighbour.
   */
  lemma BottomInteriorParityFree(N: int, i: int)
    requires 0 < i < N - 1
    ensures NodeTriples(N, 0, i) == [Triple(i, i, 2), Triple(i, i + 1, -1), Triple(i, i + N, -1)]
  {
  }
}
