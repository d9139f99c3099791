/**
 * `make_matrix(N)`: visit the nodes of the N-by-N grid in row-major order and
 * append each node's (row, column, value) triples to three parallel lists,
 * which then become an N*N-by-N*N COO matrix.
 */
module Assembly {
  import opened Coo
  import opened Stencil

  /**
   * Triples of every node before (k, i) in row-major order: the lists after the
   * loops have visited rows 0..k-1 and nodes (k, 0)..(k, i-1).
   */
  function Before(N: int, k: int, i: int): seq<Triple>
    decreases k, i
  {
    if i > 0 then Before(N, k, i - 1) + NodeTriples(N, k, i - 1)
    else if k > 0 then Before(N, k - 1, N)
    else []
  }

  /** Everything `make_matrix(N)` appends; `range(N)` is empty when N <= 0. */
  function AllTriples(N: int): seq<Triple>
  {
    Before(N, N, 0)
  }

  /** The three lists handed to `coo_matrix`, with the shape `steps` = N**2. */
  datatype CooMatrix = CooMatrix(steps: int, rows: seq<int>, cols: seq<int>, data: seq<int>)

  /** `Arows.append(r); Acols.append(c); Adata.append(v)`: one triple, on all three lists together. */
  method Emit(rows0: seq<int>, cols0: seq<int>, data0: seq<int>, r: int, c: int, v: int)
    returns (rows: seq<int>, cols: seq<int>, data: seq<int>)
    requires |rows0| == |cols0| == |data0|
    ensures |rows| == |cols| == |data| == |rows0| + 1
    ensures Zip(rows, cols, data) == Zip(rows0, cols0, data0) + [Triple(r, c, v)]
  {
    rows := rows0 + [r];
    cols := cols0 + [c];
    data := data0 + [v];
  }

  /**
   * The body of the inner loop of `make_matrix` for node (k, i): its branch table,
   * appending to the three lists together. The row cases of the table, with
   * the corner tests split from the rest, are the six methods below.
   */
  method AppendNode(N: int, k: int, i: int, rows0: seq<int>, cols0: seq<int>, data0: seq<int>)
    returns (rows: seq<int>, cols: seq<int>, data: seq<int>)
    requires |rows0| == |cols0| == |data0|
    ensures |rows| == |cols| == |data|
    ensures Zip(rows, cols, data) == Zip(rows0, cols0, data0) + NodeTriples(N, k, i)
  {
    if k == 0 {
      if i == 0 || i == N - 1 {
        rows, cols, data := AppendBottomCorner(N, k, i, rows0, cols0, data0);
      } else {
        rows, cols, data := AppendBottomInterior(N, k, i, rows0, cols0, data0);
      }
    } else if k == N - 1 {
      rows, cols, data := AppendTopEdge(N, k, i, rows0, cols0, data0);
    } else if k % 2 == 1 {
      rows, cols, data := AppendOddRow(N, k, i, rows0, cols0, data0);
    } else if i == 0 || i == N - 1 {
      rows, cols, data := AppendEvenRowCorner(N, k, i, rows0, cols0, data0);
    } else {
      rows, cols, data := AppendEvenRowInterior(N, k, i, rows0, cols0, data0);
    }
  }

  /** Bottom-edge corners (k == 0, i == 0 or i == N - 1): diagonal 1, coupled north only. */
  method AppendBottomCorner(N: int, k: int, i: int, rows0: seq<int>, cols0: seq<int>, data0: seq<int>)
    returns (rows: seq<int>, cols: seq<int>, data: seq<int>)
    requires |rows0| == |cols0| == |data0|
    requires k == 0 && (i == 0 || i == N - 1)
    ensures |rows| == |cols| == |data|
    ensures Zip(rows, cols, data) == Zip(rows0, cols0, data0) + NodeTriples(N, k, i)
  {
    rows, cols, data := rows0, cols0, data0;
    var d := N * k + i;
    if i == 0 {
      assert Neighbours(N, k, i) == [d + N];
      assert NodeTriples(N, k, i) == [Triple(d, d, 1), Triple(d, d + N, -1)];
      rows, cols, data := Emit(rows, cols, data, d, d, 1);
      rows, cols, data := Emit(rows, cols, data, d, d + N, -1);
    } else {
      // i == N - 1
      assert Neighbours(N, k, i) == [d + N];
      assert NodeTriples(N, k, i) == [Triple(d, d, 1), Triple(d, d + N, -1)];
      rows, cols, data := Emit(rows, cols, data, d, d, 1);
      rows, cols, data := Emit(rows, cols, data, d, d + N, -1);
    }
  }

  /** Bottom-edge interior (k == 0): both parity branches couple east and north. */
  method AppendBottomInterior(N: int, k: int, i: int, rows0: seq<int>, cols0: seq<int>, data0: seq<int>)
    returns (rows: seq<int>, cols: seq<int>, data: seq<int>)
    requires |rows0| == |cols0| == |data0|
    requires k == 0 && i != 0 && i != N - 1
    ensures |rows| == |cols| == |data|
    ensures Zip(rows, cols, data) == Zip(rows0, cols0, data0) + NodeTriples(N, k, i)
  {
    rows, cols, data := rows0, cols0, data0;
    var d := N * k + i;
    if i % 2 == 1 {
      assert Neighbours(N, k, i) == [d + 1, d + N];
      assert NodeTriples(N, k, i) == [Triple(d, d, 2), Triple(d, d + 1, -1), Triple(d, d + N, -1)];
      rows, cols, data := Emit(rows, cols, data, d, d, 2);
      rows, cols, data := Emit(rows, cols, data, d, d + 1, -1);
      rows, cols, data := Emit(rows, cols, data, d, d + N, -1);
    } else {
      // i % 2 == 0
      assert Neighbours(N, k, i) == [d + 1, d + N];
      assert NodeTriples(N, k, i) == [Triple(d, d, 2), Triple(d, d + 1, -1), Triple(d, d + N, -1)];
      rows, cols, data := Emit(rows, cols, data, d, d, 2);
      rows, cols, data := Emit(rows, cols, data, d, d + 1, -1);
      rows, cols, data := Emit(rows, cols, data, d, d + N, -1);
    }
  }

  /** Top edge (k == N - 1, k != 0): no corner case; even columns couple east, odd ones west. */
  method AppendTopEdge(N: int, k: int, i: int, rows0: seq<int>, cols0: seq<int>, data0: seq<int>)
    returns (rows: seq<int>, cols: seq<int>, data: seq<int>)
    requires |rows0| == |cols0| == |data0|
    requires k != 0 && k == N - 1
    ensures |rows| == |cols| == |data|
    ensures Zip(rows, cols, data) == Zip(rows0, cols0, data0) + NodeTriples(N, k, i)
  {
    rows, cols, data := rows0, cols0, data0;
    var d := N * k + i;
    if i % 2 == 0 {
      assert Neighbours(N, k, i) == [d + 1, d - N];
      assert NodeTriples(N, k, i) == [Triple(d, d, 2), Triple(d, d + 1, -1), Triple(d, d - N, -1)];
      rows, cols, data := Emit(rows, cols, data, d, d, 2);
      rows, cols, data := Emit(rows, cols, data, d, d + 1, -1);
      rows, cols, data := Emit(rows, cols, data, d, d - N, -1);
    } else {
      // i % 2 == 1
      assert Neighbours(N, k, i) == [d - 1, d - N];
      assert NodeTriples(N, k, i) == [Triple(d, d, 2), Triple(d, d - 1, -1), Triple(d, d - N, -1)];
      rows, cols, data := Emit(rows, cols, data, d, d, 2);
      rows, cols, data := Emit(rows, cols, data, d, d - 1, -1);
      rows, cols, data := Emit(rows, cols, data, d, d - N, -1);
    }
  }

  /** Odd interior row: east (even i) or west (odd i), plus south and north; no corner case. */
  method AppendOddRow(N: int, k: int, i: int, rows0: seq<int>, cols0: seq<int>, data0: seq<int>)
    returns (rows: seq<int>, cols: seq<int>, data: seq<int>)
    requires |rows0| == |cols0| == |data0|
    requires k != 0 && k != N - 1 && k % 2 == 1
    ensures |rows| == |cols| == |data|
    ensures Zip(rows, cols, data) == Zip(rows0, cols0, data0) + NodeTriples(N, k, i)
  {
    rows, cols, data := rows0, cols0, data0;
    var d := N * k + i;
    if i % 2 == 0 {
      assert Neighbours(N, k, i) == [d + 1, d - N, d + N];
      assert NodeTriples(N, k, i) == [Triple(d, d, 3), Triple(d, d + 1, -1), Triple(d, d - N, -1), Triple(d, d + N, -1)];
      rows, cols, data := Emit(rows, cols, data, d, d, 3);
      rows, cols, data := Emit(rows, cols, data, d, d + 1, -1);
      rows, cols, data := Emit(rows, cols, data, d, d - N, -1);
      rows, cols, data := Emit(rows, cols, data, d, d + N, -1);
    } else {
      // i % 2 == 1
      assert Neighbours(N, k, i) == [d - 1, d - N, d + N];
      assert NodeTriples(N, k, i) == [Triple(d, d, 3), Triple(d, d - 1, -1), Triple(d, d - N, -1), Triple(d, d + N, -1)];
      rows, cols, data := Emit(rows, cols, data, d, d, 3);
      rows, cols, data := Emit(rows, cols, data, d, d - 1, -1);
      rows, cols, data := Emit(rows, cols, data, d, d - N, -1);
      rows, cols, data := Emit(rows, cols, data, d, d + N, -1);
    }
  }

  /** Even interior row, corners (i == 0 or i == N - 1): coupled west and south. */
  method AppendEvenRowCorner(N: int, k: int, i: int, rows0: seq<int>, cols0: seq<int>, data0: seq<int>)
    returns (rows: seq<int>, cols: seq<int>, data: seq<int>)
    requires |rows0| == |cols0| == |data0|
    requires k != 0 && k != N - 1 && k % 2 == 0 && (i == 0 || i == N - 1)
    ensures |rows| == |cols| == |data|
    ensures Zip(rows, cols, data) == Zip(rows0, cols0, data0) + NodeTriples(N, k, i)
  {
    rows, cols, data := rows0, cols0, data0;
    var d := N * k + i;
    if i == 0 {
      assert Neighbours(N, k, i) == [d - 1, d - N];
      assert NodeTriples(N, k, i) == [Triple(d, d, 2), Triple(d, d - 1, -1), Triple(d, d - N, -1)];
      rows, cols, data := Emit(rows, cols, data, d, d, 2);
      rows, cols, data := Emit(rows, cols, data, d, d - 1, -1);
      rows, cols, data := Emit(rows, cols, data, d, d - N, -1);
    } else {
      // i == N - 1
      assert Neighbours(N, k, i) == [d - 1, d - N];
      assert NodeTriples(N, k, i) == [Triple(d, d, 2), Triple(d, d - 1, -1), Triple(d, d - N, -1)];
      rows, cols, data := Emit(rows, cols, data, d, d, 2);
      rows, cols, data := Emit(rows, cols, data, d, d - 1, -1);
      rows, cols, data := Emit(rows, cols, data, d, d - N, -1);
    }
  }

  /** Even interior row, other columns: east (odd i) or west (even i), plus south and north. */
  method AppendEvenRowInterior(N: int, k: int, i: int, rows0: seq<int>, cols0: seq<int>, data0: seq<int>)
    returns (rows: seq<int>, cols: seq<int>, data: seq<int>)
    requires |rows0| == |cols0| == |data0|
    requires k != 0 && k != N - 1 && k % 2 == 0 && i != 0 && i != N - 1
    ensures |rows| == |cols| == |data|
    ensures Zip(rows, cols, data) == Zip(rows0, cols0, data0) + NodeTriples(N, k, i)
  {
    rows, cols, data := rows0, cols0, data0;
    var d := N * k + i;
    if i % 2 == 1 {
      assert Neighbours(N, k, i) == [d + 1, d - N, d + N];
      assert NodeTriples(N, k, i) == [Triple(d, d, 3), Triple(d, d + 1, -1), Triple(d, d - N, -1), Triple(d, d + N, -1)];
      rows, cols, data := Emit(rows, cols, data, d, d, 3);
      rows, cols, data := Emit(rows, cols, data, d, d + 1, -1);
      rows, cols, data := Emit(rows, cols, data, d, d - N, -1);
      rows, cols, data := Emit(rows, cols, data, d, d + N, -1);
    } else {
      // i % 2 == 0
      assert Neighbours(N, k, i) == [d - 1, d - N, d + N];
      assert NodeTriples(N, k, i) == [Triple(d, d, 3), Triple(d, d - 1, -1), Triple(d, d - N, -1), Triple(d, d + N, -1)];
      rows, cols, data := Emit(rows, cols, data, d, d, 3);
      rows, cols, data := Emit(rows, cols, data, d, d - 1, -1);
      rows, cols, data := Emit(rows, cols, data, d, d - N, -1);
      rows, cols, data := Emit(rows, cols, data, d, d + N, -1);
    }
  }

  /**
   * Builds the three lists with the nested row-major loops; the result's
   * triples are exactly AllTriples(N), in that order.
   */
  method MakeMatrix(N: int) returns (m: CooMatrix)
    ensures m.steps == N * N
    ensures |m.rows| == |m.cols| == |m.data|
    ensures Zip(m.rows, m.cols, m.data) == AllTriples(N)
  {
    var steps := N * N;
    var rows, cols, data := [], [], [];
    var k := 0;
    while k < N
      invariant 0 <= k && (k <= N || k == 0)
      invariant |rows| == |cols| == |data|
      invariant Zip(rows, cols, data) == Before(N, k, 0)
    {
      var i := 0;
      while i < N
        invariant 0 <= i <= N
        invariant |rows| == |cols| == |data|
        invariant Zip(rows, cols, data) == Before(N, k, i)
      {
        rows, cols, data := AppendNode(N, k, i, rows, cols, data);
        i := i + 1;
      }
      k := k + 1;
    }
    assert k == N || (k == 0 && N <= 0);
    m := CooMatrix(steps, rows, cols, data);
  }
}
