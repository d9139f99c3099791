/**
 * Properties of the whole matrix `make_matrix(N)` builds: the order and
 * uniqueness of its triples, its dense entries, the zero row sums, the column
 * bounds (which depend on the parity of N) and the couplings that cross grid rows.
 */
module Properties {
  import opened Coo
  import opened Stencil
  import opened Assembly

  // ---------------------------------------------------------------------------
  // Grid arithmetic

  /** The row index of a node lies outside the index range of every other grid row. */
  lemma OtherGridRow(N: int, k0: int, i0: int, k: int)
    requires 0 <= i0 < N && k0 != k
    ensures N * k0 + i0 < N * k || N * k0 + i0 >= N * k + N
  {
    if k0 < k {
      var m := k - k0 - 1;
      assert N * m >= 0;
      assert N * k == N * (k0 + m + 1) == N * k0 + N * m + N;
    } else {
      var m := k0 - k - 1;
      assert N * m >= 0;
      assert N * k0 == N * (k + m + 1) == N * k + N * m + N;
    }
  }

  /** Every matrix row 0 <= r < N*N belongs to exactly one grid node. */
  lemma NodeOfRow(N: int, r: int) returns (k: int, i: int)
    requires N >= 1 && 0 <= r < N * N
    ensures 0 <= k < N && 0 <= i < N && r == N * k + i
  {
    k, i := r / N, r % N;
  }

  // ---------------------------------------------------------------------------
  // Order and uniqueness

  /** A position of the nested loops: before node (k, i), on the grid or just past it. */
  predicate Cursor(N: int, k: int, i: int)
  {
    0 <= k <= N && 0 <= i <= N && (i > 0 ==> k < N)
  }

  /** The lists after whole grid rows 0..k-1 are row-major over rows [0, N*k). */
  lemma {:induction false} RowsRowMajor(N: int, k: int)
    requires 0 <= k <= N
    ensures RowMajor(Before(N, k, 0), 0, N * k)
    decreases k
  {
    if k > 0 {
      RowsRowMajor(N, k - 1);
      PrefixRowMajor(N, k - 1, N);
      RowEndRowMajor(N, k);
    }
  }

  /** Within grid row k, the lists stay row-major as the inner loop advances. */
  lemma {:induction false} PrefixRowMajor(N: int, k: int, i: int)
    requires 0 <= k < N && 0 <= i <= N
    requires RowMajor(Before(N, k, 0), 0, N * k)
    ensures RowMajor(Before(N, k, i), 0, N * k + i)
    decreases i
  {
    if i > 0 {
      PrefixRowMajor(N, k, i - 1);
      NodeAfterRowMajor(N, k, i);
    }
  }

  /** Appending node (k, i - 1) to a row-major prefix ending at row N*k + i - 1 keeps it row-major. */
  lemma NodeAfterRowMajor(N: int, k: int, i: int)
    requires 0 <= k < N && 0 < i <= N
    requires RowMajor(Before(N, k, i - 1), 0, N * k + (i - 1))
    ensures RowMajor(Before(N, k, i), 0, N * k + i)
  {
    RowStart(N, k);
    NodeRowMajor(N, k, i - 1);
    ConcatRowMajor(Before(N, k, i - 1), NodeTriples(N, k, i - 1), 0, N * k + (i - 1), N * k + i);
  }

  /** Finishing grid row k - 1 is the same list as starting row k: row N*(k-1) + N is row N*k. */
  lemma RowEndRowMajor(N: int, k: int)
    requires 0 < k <= N
    requires RowMajor(Before(N, k - 1, N), 0, N * (k - 1) + N)
    ensures RowMajor(Before(N, k, 0), 0, N * k)
  {
    assert N * (k - 1) + N == N * k;
  }

  /**
   * The triples come row by row: every row index lies in [0, N*N), rows never
   * decrease along the lists, and no (row, column) position occurs twice.
   */
  lemma TriplesInRowMajorOrder(N: int)
    ensures RowMajor(AllTriples(N), 0, N * N)
  {
    if N > 0 {
      RowsRowMajor(N, N);
    }
  }

  /** COO duplicate summation merges nothing: each appended triple is its own matrix entry. */
  lemma CooMergesNothing(N: int)
    ensures forall p :: 0 <= p < |AllTriples(N)| ==>
              Dense(AllTriples(N), AllTriples(N)[p].row, AllTriples(N)[p].col) == AllTriples(N)[p].val
  {
    TriplesInRowMajorOrder(N);
    forall p | 0 <= p < |AllTriples(N)|
      ensures Dense(AllTriples(N), AllTriples(N)[p].row, AllTriples(N)[p].col) == AllTriples(N)[p].val
    {
      DenseUnique(AllTriples(N), p);
    }
  }

  // ---------------------------------------------------------------------------
  // Dense entries

  /**
   * Entries of a grid node's row once whole grid rows 0..k-1 are built: the
   * node's own entries if its grid row is among them, zero otherwise.
   */
  lemma {:induction false} DenseRows(N: int, k: int, k0: int, i0: int, c: int)
    requires 0 <= k && 0 <= k0 && 0 <= i0 < N
    ensures Dense(Before(N, k, 0), N * k0 + i0, c) ==
              if k0 < k then Dense(NodeTriples(N, k0, i0), N * k0 + i0, c) else 0
    decreases k
  {
    if k > 0 {
      DenseRows(N, k - 1, k0, i0, c);
      DensePrefix(N, k - 1, N, k0, i0, c);
      assert Before(N, k, 0) == Before(N, k - 1, N);
    }
  }

  /** Within grid row k the inner loop adds each node's entries to its own row and nothing elsewhere. */
  lemma {:induction false} DensePrefix(N: int, k: int, i: int, k0: int, i0: int, c: int)
    requires 0 <= i <= N && 0 <= i0 < N
    ensures Dense(Before(N, k, i), N * k0 + i0, c) ==
              Dense(Before(N, k, 0), N * k0 + i0, c) +
              if k0 == k && i0 < i then Dense(NodeTriples(N, k0, i0), N * k0 + i0, c) else 0
    decreases i
  {
    if i > 0 {
      DensePrefix(N, k, i - 1, k0, i0, c);
      DenseAfterNode(N, k, i, k0, i0, c);
    }
  }

  /** Appending node (k, i - 1) adds its entries to its own row and nothing to any other node's row. */
  lemma DenseAfterNode(N: int, k: int, i: int, k0: int, i0: int, c: int)
    requires 0 <= i0 < N && 0 < i <= N
    ensures Dense(Before(N, k, i), N * k0 + i0, c) ==
              Dense(Before(N, k, i - 1), N * k0 + i0, c) +
              if k0 == k && i0 == i - 1 then Dense(NodeTriples(N, k0, i0), N * k0 + i0, c) else 0
  {
    var r := N * k0 + i0;
    DenseAppend(Before(N, k, i - 1), NodeTriples(N, k, i - 1), r, c);
    if k0 != k {
      OtherGridRow(N, k0, i0, k);
      DenseAbsent(NodeTriples(N, k, i - 1), r, c);
    } else if i0 != i - 1 {
      DenseAbsent(NodeTriples(N, k, i - 1), r, c);
    }
  }

  /**
   * The matrix row of grid node (k, i): its diagonal holds the number of
   * neighbours it couples to, each coupled column holds -1, every other entry is 0.
   */
  lemma MatrixEntry(N: int, k: int, i: int, c: int)
    requires 0 <= k < N && 0 <= i < N
    ensures Dense(AllTriples(N), N * k + i, c) ==
      if c == N * k + i then |Neighbours(N, k, i)|
      else if c in Neighbours(N, k, i) then -1
      else 0
  {
    DenseRows(N, N, k, i, c);
    NodeDense(N, k, i, N * k + i, c);
  }

  /** Rows outside [0, N*N) are empty. */
  lemma MatrixEntryOutside(N: int, r: int, c: int)
    requires r < 0 || r >= N * N
    ensures Dense(AllTriples(N), r, c) == 0
  {
    TriplesInRowMajorOrder(N);
    DenseAbsent(AllTriples(N), r, c);
  }

  /**
   * Every row 0 <= r < N*N receives a triple: its diagonal, with value 1, 2
   * or 3, the number of the row's couplings.
   */
  lemma EveryRowHasDiagonal(N: int, r: int)
    requires N >= 1 && 0 <= r < N * N
    ensures 1 <= Dense(AllTriples(N), r, r) <= 3
    ensures exists p :: 0 <= p < |AllTriples(N)| && AllTriples(N)[p] == Triple(r, r, Dense(AllTriples(N), r, r))
  {
    var k, i := NodeOfRow(N, r);
    MatrixEntry(N, k, i, r);
    var p := DenseSupport(AllTriples(N), r, r);
    CooMergesNothing(N);
  }

  // ---------------------------------------------------------------------------
  // Balance

  lemma {:induction false} BeforeBalanced(N: int, k: int, i: int, r: int)
    ensures RowTotal(Before(N, k, i), r) == 0
    decreases k, i
  {
    if i > 0 {
      BeforeBalanced(N, k, i - 1, r);
      RowTotalAppend(Before(N, k, i - 1), NodeTriples(N, k, i - 1), r);
      NodeBalanced(N, k, i - 1, r);
    } else if k > 0 {
      BeforeBalanced(N, k - 1, N, r);
    }
  }

  /** Every row's triples sum to zero: diagonal 1, 2 or 3 against as many -1 couplings. */
  lemma RowsBalanced(N: int, r: int)
    ensures RowTotal(AllTriples(N), r) == 0
  {
    BeforeBalanced(N, N, 0, r);
  }

  // ---------------------------------------------------------------------------
  // Column bounds

  /** Columns lie in [0, N*N]; the one past the end is reached only from the last row, for odd N. */
  ghost predicate ColumnsWithin(ts: seq<Triple>, N: int)
  {
    forall p :: 0 <= p < |ts| ==>
      0 <= ts[p].col <= N * N && (ts[p].col == N * N ==> N % 2 == 1 && ts[p].row == N * N - 1)
  }

  lemma NodeColumnsWithin(N: int, k: int, i: int)
    requires 0 <= k < N && 0 <= i < N
    ensures ColumnsWithin(NodeTriples(N, k, i), N)
  {
    var ts := NodeTriples(N, k, i);
    RowStart(N, k);
    RowStart(N, N - 1);
    NeighbourBounds(N, k, i);
    forall p | 0 <= p < |ts|
      ensures 0 <= ts[p].col <= N * N && (ts[p].col == N * N ==> N % 2 == 1 && ts[p].row == N * N - 1)
    {
      if p > 0 {
        assert ts[p].col in Neighbours(N, k, i);
      }
    }
  }

  lemma {:induction false} BeforeColumnsWithin(N: int, k: int, i: int)
    requires Cursor(N, k, i)
    ensures ColumnsWithin(Before(N, k, i), N)
    decreases k, i
  {
    if i > 0 {
      BeforeColumnsWithin(N, k, i - 1);
      NodeColumnsWithin(N, k, i - 1);
      ConcatColumnsWithin(Before(N, k, i - 1), NodeTriples(N, k, i - 1), N);
    } else if k > 0 {
      BeforeColumnsWithin(N, k - 1, N);
    }
  }

  lemma ConcatColumnsWithin(a: seq<Triple>, b: seq<Triple>, N: int)
    requires ColumnsWithin(a, N) && ColumnsWithin(b, N)
    ensures ColumnsWithin(a + b, N)
  {
    var ab := a + b;
    forall p | 0 <= p < |ab|
      ensures 0 <= ab[p].col <= N * N && (ab[p].col == N * N ==> N % 2 == 1 && ab[p].row == N * N - 1)
    {
      if p < |a| { assert ab[p] == a[p]; } else { assert ab[p] == b[p - |a|]; }
    }
  }

  /**
   * Every emitted column lies in [0, N*N]; a column equal to N*N, outside the
   * N*N-by-N*N shape, occurs only for odd N and only in the last row.
   */
  lemma ColumnBounds(N: int)
    ensures forall p :: 0 <= p < |AllTriples(N)| ==>
              0 <= AllTriples(N)[p].col <= N * N &&
              (AllTriples(N)[p].col == N * N ==> N % 2 == 1 && AllTriples(N)[p].row == N * N - 1)
  {
    if N > 0 {
      BeforeColumnsWithin(N, N, 0);
    }
  }

  /** For odd N the top-right node couples to column N*N, one past the matrix shape. */
  lemma OddOverflow(N: int)
    requires N >= 1 && N % 2 == 1
    ensures Dense(AllTriples(N), N * N - 1, N * N) == -1
  {
    RowStart(N, N - 1);
    TopRightOverflow(N);
    MatrixEntry(N, N - 1, N - 1, N * N);
  }

  /** All columns fit the N*N-by-N*N shape exactly when N is even. */
  lemma ColumnsInShapeIffEven(N: int)
    requires N >= 1
    ensures (forall p :: 0 <= p < |AllTriples(N)| ==> 0 <= AllTriples(N)[p].col < N * N) <==> N % 2 == 0
  {
    ColumnBounds(N);
    if N % 2 == 1 {
      OddOverflow(N);
      var p := DenseSupport(AllTriples(N), N * N - 1, N * N);
      assert !(AllTriples(N)[p].col < N * N);
    }
  }

  lemma {:induction false} RowSumExtend(ts: seq<Triple>, r: int, lo: int, hi: int)
    requires lo <= hi
    ensures RowSum(ts, r, lo, hi + 1) == RowSum(ts, r, lo, hi) + Dense(ts, r, hi)
    decreases hi - lo
  {
    if lo < hi {
      RowSumExtend(ts, r, lo + 1, hi);
    }
  }

  /** For even N every row of the N*N-by-N*N matrix sums to zero over its columns. */
  lemma MatrixRowSumZero(N: int, r: int)
    requires N % 2 == 0
    ensures RowSum(AllTriples(N), r, 0, N * N) == 0
  {
    ColumnBounds(N);
    RowSumOfEntries(AllTriples(N), r, 0, N * N);
    RowsBalanced(N, r);
  }

  /**
   * For odd N the last row sums to 1 within the shape: its -1 coupling lies in
   * column N*N, outside the matrix.
   */
  lemma OddLastRowUnbalanced(N: int)
    requires N >= 1 && N % 2 == 1
    ensures RowSum(AllTriples(N), N * N - 1, 0, N * N) == 1
  {
    var r := N * N - 1;
    ColumnBounds(N);
    RowSumOfEntries(AllTriples(N), r, 0, N * N + 1);
    RowsBalanced(N, r);
    RowSumExtend(AllTriples(N), r, 0, N * N);
    OddOverflow(N);
  }

  // ---------------------------------------------------------------------------
  // Boundary and wrap-around couplings

  /** Bottom-row corners couple only to the node directly above: diagonal 1, one -1. */
  lemma BottomCornerPinned(N: int, i: int, c: int)
    requires N >= 1 && (i == 0 || i == N - 1)
    ensures Dense(AllTriples(N), i, c) == if c == i then 1 else if c == i + N then -1 else 0
  {
    assert Neighbours(N, 0, i) == [i + N];
    MatrixEntry(N, 0, i, c);
  }

  /**
   * On an even interior row both corner nodes couple only to column d - 1 and to
   * the node below, d - N. For the corner i = 0, d - 1 = N*k - 1 is the last
   * node of the previous grid row; neither corner couples east or north.
   */
  lemma EvenRowCornerWrap(N: int, k: int, c: int)
    requires 0 < k < N - 1 && k % 2 == 0
    ensures N * k - 1 == N * (k - 1) + (N - 1)
    ensures Dense(AllTriples(N), N * k, c) ==
              if c == N * k then 2 else if c == N * k - 1 || c == N * k - N then -1 else 0
    ensures Dense(AllTriples(N), N * k + N - 1, c) ==
              if c == N * k + N - 1 then 2 else if c == N * k + N - 2 || c == N * k - 1 then -1 else 0
  {
    var d0, d1 := N * k, N * k + N - 1;
    assert Neighbours(N, k, 0) == [d0 - 1, d0 - N];
    assert Neighbours(N, k, N - 1) == [d1 - 1, d1 - N];
    MatrixEntry(N, k, 0, c);
    MatrixEntry(N, k, N - 1, c);
  }

  /**
   * On an odd interior row of an odd grid the last node (i = N - 1, even) couples
   * east to column N*(k + 1), the first node of the next grid row.
   */
  lemma OddRowEastWrap(N: int, k: int)
    requires N % 2 == 1 && 0 < k < N - 1 && k % 2 == 1
    ensures Dense(AllTriples(N), N * k + N - 1, N * (k + 1)) == -1
  {
    RowStart(N, k);
    assert Neighbours(N, k, N - 1)[0] == N * (k + 1);
    MatrixEntry(N, k, N - 1, N * (k + 1));
  }

  /** The literal matrix for N = 2. */
  lemma TwoByTwo()
    ensures AllTriples(2) == [
      Triple(0, 0, 1), Triple(0, 2, -1),
      Triple(1, 1, 1), Triple(1, 3, -1),
      Triple(2, 2, 2), Triple(2, 3, -1), Triple(2, 0, -1),
      Triple(3, 3, 2), Triple(3, 2, -1), Triple(3, 1, -1)]
  {
  }
}
