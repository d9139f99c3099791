/**
 * Coordinate-list (COO) sparse matrices: a sequence of (row, column, value)
 * triples whose meaning is the matrix obtained by SUMMING every triple that
 * lands on the same position. This is what `coo_matrix((data, (rows, cols)))`
 * followed by `.tocsr()` denotes; the compressed layout itself is not modelled.
 */
module Coo {

  datatype Triple = Triple(row: int, col: int, val: int)

  /** The triples described by three parallel lists of rows, columns and values. */
  function Zip(rows: seq<int>, cols: seq<int>, data: seq<int>): seq<Triple>
    requires |rows| == |cols| == |data|
  {
    seq(|rows|, p requires 0 <= p < |rows| => Triple(rows[p], cols[p], data[p]))
  }

  /** Contribution of one triple to position (r, c). */
  function At(t: Triple, r: int, c: int): int
  {
    if t.row == r && t.col == c then t.val else 0
  }

  /** Entry (r, c) of the matrix a triple list denotes: duplicates are summed. */
  function Dense(ts: seq<Triple>, r: int, c: int): int
  {
    if ts == [] then 0 else At(ts[0], r, c) + Dense(ts[1..], r, c)
  }

  /** Sum of the values of all triples in row r, whatever their column. */
  function RowTotal(ts: seq<Triple>, r: int): int
  {
    if ts == [] then 0 else (if ts[0].row == r then ts[0].val else 0) + RowTotal(ts[1..], r)
  }

  /** Sum of the dense entries (r, lo), ..., (r, hi - 1). */
  function RowSum(ts: seq<Triple>, r: int, lo: int, hi: int): int
    decreases hi - lo
  {
    if hi <= lo then 0 else Dense(ts, r, lo) + RowSum(ts, r, lo + 1, hi)
  }

  /** No two triples share a (row, column) position. */
  predicate DistinctPositions(ts: seq<Triple>)
  {
    forall p, q :: 0 <= p < q < |ts| ==> ts[p].row != ts[q].row || ts[p].col != ts[q].col
  }

  /** Rows lie in [lo, hi), appear in non-decreasing order, and positions are distinct. */
  predicate RowMajor(ts: seq<Triple>, lo: int, hi: int)
  {
    (forall p :: 0 <= p < |ts| ==> lo <= ts[p].row < hi) &&
    (forall p, q :: 0 <= p <= q < |ts| ==> ts[p].row <= ts[q].row) &&
    DistinctPositions(ts)
  }

  lemma {:induction false} DenseAppend(a: seq<Triple>, b: seq<Triple>, r: int, c: int)
    ensures Dense(a + b, r, c) == Dense(a, r, c) + Dense(b, r, c)
    decreases |a|
  {
    if a == [] {
      assert a + b == b;
    } else {
      assert (a + b)[1..] == a[1..] + b;
      DenseAppend(a[1..], b, r, c);
    }
  }

  lemma {:induction false} RowTotalAppend(a: seq<Triple>, b: seq<Triple>, r: int)
    ensures RowTotal(a + b, r) == RowTotal(a, r) + RowTotal(b, r)
    decreases |a|
  {
    if a == [] {
      assert a + b == b;
    } else {
      assert (a + b)[1..] == a[1..] + b;
      RowTotalAppend(a[1..], b, r);
    }
  }

  /** A position no triple occupies has entry zero. */
  lemma {:induction false} DenseAbsent(ts: seq<Triple>, r: int, c: int)
    requires forall p :: 0 <= p < |ts| ==> ts[p].row != r || ts[p].col != c
    ensures Dense(ts, r, c) == 0
    decreases |ts|
  {
    if ts != [] {
      assert ts[0].row != r || ts[0].col != c;
      DenseAbsent(ts[1..], r, c);
    }
  }

  /** A non-zero entry is backed by a triple at that position. */
  lemma DenseSupport(ts: seq<Triple>, r: int, c: int) returns (p: int)
    requires Dense(ts, r, c) != 0
    ensures 0 <= p < |ts| && ts[p].row == r && ts[p].col == c
  {
    if forall q :: 0 <= q < |ts| ==> ts[q].row != r || ts[q].col != c {
      DenseAbsent(ts, r, c);
      assert false;
    }
    p :| 0 <= p < |ts| && ts[p].row == r && ts[p].col == c;
  }

  /** When positions are distinct, summing duplicates changes nothing: each triple is its own entry. */
  lemma {:induction false} DenseUnique(ts: seq<Triple>, p: int)
    requires DistinctPositions(ts)
    requires 0 <= p < |ts|
    ensures Dense(ts, ts[p].row, ts[p].col) == ts[p].val
    decreases |ts|
  {
    var r, c := ts[p].row, ts[p].col;
    var rest := ts[1..];
    assert DistinctPositions(rest) by {
      forall a, b | 0 <= a < b < |rest|
        ensures rest[a].row != rest[b].row || rest[a].col != rest[b].col
      {
        assert rest[a] == ts[a + 1] && rest[b] == ts[b + 1];
      }
    }
    if p == 0 {
      forall q | 0 <= q < |rest| ensures rest[q].row != r || rest[q].col != c {
        assert rest[q] == ts[q + 1];
      }
      DenseAbsent(rest, r, c);
    } else {
      assert ts[0].row != r || ts[0].col != c;
      assert rest[p - 1] == ts[p];
      DenseUnique(rest, p - 1);
    }
  }

  /** The matrix a triple list denotes does not depend on the order of the triples. */
  lemma {:induction false} DensePermutation(a: seq<Triple>, b: seq<Triple>, r: int, c: int)
    requires multiset(a) == multiset(b)
    ensures Dense(a, r, c) == Dense(b, r, c)
    decreases |a|
  {
    if a == [] {
      assert |b| == |multiset(b)| == 0;
    } else {
      var p, rest := MatchHead(a, b);
      DenseRemove(b, p, r, c);
      DensePermutation(a[1..], rest, r, c);
    }
  }

  /** The head of a finds a partner in any permutation b; the remainders are again permutations. */
  lemma MatchHead(a: seq<Triple>, b: seq<Triple>) returns (p: int, rest: seq<Triple>)
    requires a != [] && multiset(a) == multiset(b)
    ensures 0 <= p < |b| && b[p] == a[0]
    ensures rest == b[..p] + b[p + 1..]
    ensures multiset(a[1..]) == multiset(rest)
  {
    assert a[0] in multiset(b);
    p :| 0 <= p < |b| && b[p] == a[0];
    rest := b[..p] + b[p + 1..];
    assert a == [a[0]] + a[1..];
    assert multiset(a) == multiset{a[0]} + multiset(a[1..]);
    assert b == b[..p] + [b[p]] + b[p + 1..];
    assert multiset(b) == multiset(b[..p]) + multiset{b[p]} + multiset(b[p + 1..]);
    assert multiset(rest) == multiset(b[..p]) + multiset(b[p + 1..]);
    assert multiset(rest) == multiset(b) - multiset{b[p]};
    assert multiset(a[1..]) == multiset(a) - multiset{a[0]};
  }

  /** Taking one triple out of a list removes exactly its contribution. */
  lemma DenseRemove(b: seq<Triple>, p: int, r: int, c: int)
    requires 0 <= p < |b|
    ensures Dense(b, r, c) == At(b[p], r, c) + Dense(b[..p] + b[p + 1..], r, c)
  {
    var left, right := b[..p], b[p + 1..];
    assert b == left + [b[p]] + right;
    DenseAppend(left, right, r, c);
    DenseAppend(left + [b[p]], right, r, c);
    DenseAppend(left, [b[p]], r, c);
    assert Dense([b[p]], r, c) == At(b[p], r, c);
  }

  /** Every triple carries row d and value -1: the row total is minus its length. */
  lemma {:induction false} RowTotalOfCouplings(ts: seq<Triple>, d: int, r: int)
    requires forall p :: 0 <= p < |ts| ==> ts[p].row == d && ts[p].val == -1
    ensures RowTotal(ts, r) == if r == d then -|ts| else 0
    decreases |ts|
  {
    if ts != [] {
      assert ts[0].row == d && ts[0].val == -1;
      RowTotalOfCouplings(ts[1..], d, r);
    }
  }

  lemma {:induction false} RowSumAppend(a: seq<Triple>, b: seq<Triple>, r: int, lo: int, hi: int)
    ensures RowSum(a + b, r, lo, hi) == RowSum(a, r, lo, hi) + RowSum(b, r, lo, hi)
    decreases hi - lo
  {
    if lo < hi {
      DenseAppend(a, b, r, lo);
      RowSumAppend(a, b, r, lo + 1, hi);
    }
  }

  lemma {:induction false} RowSumSingle(t: Triple, r: int, lo: int, hi: int)
    ensures RowSum([t], r, lo, hi) == if t.row == r && lo <= t.col < hi then t.val else 0
    decreases hi - lo
  {
    if lo < hi {
      assert Dense([t], r, lo) == At(t, r, lo);
      RowSumSingle(t, r, lo + 1, hi);
    }
  }

  /**
   * When every triple of row r has its column in [lo, hi), the dense entries of
   * that row over [lo, hi) add up to the row total of the triples.
   */
  lemma {:induction false} RowSumOfEntries(ts: seq<Triple>, r: int, lo: int, hi: int)
    requires forall p :: 0 <= p < |ts| && ts[p].row == r ==> lo <= ts[p].col < hi
    ensures RowSum(ts, r, lo, hi) == RowTotal(ts, r)
    decreases |ts|
  {
    if ts == [] {
      RowSumZero(r, lo, hi);
    } else {
      assert ts == [ts[0]] + ts[1..];
      RowSumAppend([ts[0]], ts[1..], r, lo, hi);
      RowSumSingle(ts[0], r, lo, hi);
      RowSumOfEntries(ts[1..], r, lo, hi);
    }
  }

  lemma {:induction false} RowSumZero(r: int, lo: int, hi: int)
    ensures RowSum([], r, lo, hi) == 0
    decreases hi - lo
  {
    if lo < hi {
      RowSumZero(r, lo + 1, hi);
    }
  }

  /** Concatenating two row-major lists whose row ranges are adjacent yields a row-major list. */
  lemma ConcatRowMajor(a: seq<Triple>, b: seq<Triple>, lo: int, mid: int, hi: int)
    requires lo <= mid <= hi
    requires RowMajor(a, lo, mid) && RowMajor(b, mid, hi)
    ensures RowMajor(a + b, lo, hi)
  {
    var ab := a + b;
    forall p | 0 <= p < |ab| ensures lo <= ab[p].row < hi {
      if p < |a| { assert ab[p] == a[p]; } else { assert ab[p] == b[p - |a|]; }
    }
    forall p, q | 0 <= p <= q < |ab| ensures ab[p].row <= ab[q].row {
      if q < |a| {
        assert ab[p] == a[p] && ab[q] == a[q];
      } else if p >= |a| {
        assert ab[p] == b[p - |a|] && ab[q] == b[q - |a|];
      } else {
        assert ab[p] == a[p] && ab[q] == b[q - |a|];
      }
    }
    forall p, q | 0 <= p < q < |ab|
      ensures ab[p].row != ab[q].row || ab[p].col != ab[q].col
    {
      if q < |a| {
        assert ab[p] == a[p] && ab[q] == a[q];
      } else if p >= |a| {
        assert ab[p] == b[p - |a|] && ab[q] == b[q - |a|];
      } else {
        assert ab[p] == a[p] && ab[q] == b[q - |a|];
      }
    }
  }
}
