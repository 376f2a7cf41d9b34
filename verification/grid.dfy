/** The boustrophedon ("snake") visit order of the scan loop.

    The scan walks rows 0 .. n-1 in ascending order. On an even row the
    columns run `range(n)`; on an odd row they run `reversed(range(n))`.
    The order is built here the way the nested loop builds it, row after
    row, and is then related to a closed form `Index` that is its inverse.

    Positions in the order are row-major, `r * n + k`. The product is
    written with the recursive `Mul`, whose facts are all linear, and is
    related to `*` once (`MulIsProduct`).
 */
module Grid {
  import opened Seqs

  /** A grid point as the scan loop names it: `row` is the outer index, `col` the inner one. */
  datatype Point = Point(row: nat, col: nat)

  predicate InGrid(n: nat, p: Point) {
    p.row < n && p.col < n
  }

  /** Two points one grid step apart: one coordinate equal, the other differing by exactly one. */
  predicate Adjacent(p: Point, q: Point) {
    || (p.row == q.row && (p.col + 1 == q.col || q.col + 1 == p.col))
    || (p.col == q.col && (p.row + 1 == q.row || q.row + 1 == p.row))
  }

  /** `range(n)` */
  function Range(n: nat): seq<nat> {
    seq(n, i requires 0 <= i => i as nat)
  }

  /** `reversed(s)` */
  function Reverse<T>(s: seq<T>): (r: seq<T>)
    ensures |r| == |s|
    ensures forall i :: 0 <= i < |s| ==> r[i] == s[|s| - 1 - i]
  {
    if |s| == 0 then [] else Reverse(s[1..]) + [s[0]]
  }

  /** Closed form of the column visited at step `k` of row `r`. It is an
      involution in `k` (see `ColumnAtInvolution`), so it also gives the
      step at which row `r` visits a column. */
  function ColumnAt(n: nat, r: nat, k: nat): (c: nat)
    requires k < n
    ensures c < n
  {
    if r % 2 == 0 then k else n - 1 - k
  }

  /** The column order of row `r`: `range(n)` on even rows, `reversed(range(n))` on odd rows. */
  function Columns(n: nat, r: nat): (cs: seq<nat>)
    ensures |cs| == n
  {
    if r % 2 == 0 then Range(n) else Reverse(Range(n))
  }

  /** The points of row `r`, in the order the inner loop visits them. */
  function SnakeRow(n: nat, r: nat): seq<Point> {
    var cs := Columns(n, r);
    seq(n, k requires 0 <= k < n => Point(r, cs[k]))
  }

  /** `a * b`, as `a` rows of `b`. */
  function Mul(a: nat, b: nat): nat {
    if a == 0 then 0 else Mul(a - 1, b) + b
  }

  /** The points the first `m` iterations of the outer loop visit. */
  function SnakePrefix(n: nat, m: nat): (s: seq<Point>)
    ensures |s| == Mul(m, n)
  {
    if m == 0 then [] else SnakePrefix(n, m - 1) + SnakeRow(n, m - 1)
  }

  /** The whole scan: every iteration of the outer loop. */
  function SnakeOrder(n: nat): seq<Point> {
    SnakePrefix(n, n)
  }

  /** Row-major position: step `k` of outer iteration `r`. */
  function RowMajor(n: nat, r: nat, k: nat): nat {
    Mul(r, n) + k
  }

  /** Position in the snake order at which point `p` is visited. */
  function Index(n: nat, p: Point): nat
    requires InGrid(n, p)
  {
    RowMajor(n, p.row, ColumnAt(n, p.row, p.col))
  }

  // ---------------------------------------------------------------------
  // Arithmetic of the row-major layout
  // ---------------------------------------------------------------------

  lemma {:induction false} MulIsProduct(a: nat, b: nat)
    ensures Mul(a, b) == a * b
  {
    if a > 0 {
      MulIsProduct(a - 1, b);
      assert a * b == (a - 1) * b + b;
    }
  }

  lemma {:induction false} MulLeq(a: nat, b: nat, n: nat)
    requires a <= b
    ensures Mul(a, n) <= Mul(b, n)
  {
    if a < b {
      MulLeq(a, b - 1, n);
    }
  }

  /** Row-major positions are ordered by row first. */
  lemma RowMajorRowOrder(n: nat, r1: nat, k1: nat, r2: nat, k2: nat)
    requires k1 < n && k2 < n
    requires RowMajor(n, r1, k1) <= RowMajor(n, r2, k2)
    ensures r1 <= r2
  {
    if r1 > r2 {
      MulLeq(r2 + 1, r1, n);
    }
  }

  /** Every position below `m * n` has a row-major decomposition. */
  lemma {:induction false} Decompose(n: nat, m: nat, i: nat) returns (r: nat, k: nat)
    requires i < Mul(m, n)
    ensures r < m && k < n && i == RowMajor(n, r, k)
  {
    if i < n {
      r, k := 0, i;
    } else {
      var r', k' := Decompose(n, m - 1, i - n);
      r, k := r' + 1, k';
    }
  }

  // ---------------------------------------------------------------------
  // Properties of the snake order
  // ---------------------------------------------------------------------

  /** `ColumnAt` undoes itself: the column of step `k` is visited at step `k` again. */
  lemma ColumnAtInvolution(n: nat, r: nat, k: nat)
    requires k < n
    ensures ColumnAt(n, r, ColumnAt(n, r, k)) == k
  {
  }

  /** The row order of the nested loop agrees with the closed form `ColumnAt`. */
  lemma ColumnsClosedForm(n: nat, r: nat, k: nat)
    requires k < n
    ensures Columns(n, r)[k] == ColumnAt(n, r, k)
  {
  }

  /** Row `r` visits every column once: even rows from 0 upward, odd rows from
      n - 1 downward, one column per step. */
  lemma ColumnsDirection(n: nat, r: nat)
    ensures forall k :: 0 <= k < n ==> Columns(n, r)[k] < n
    ensures r % 2 == 0 ==> forall k :: 0 <= k < n - 1 ==> Columns(n, r)[k] + 1 == Columns(n, r)[k + 1]
    ensures r % 2 == 1 ==> forall k :: 0 <= k < n - 1 ==> Columns(n, r)[k] == Columns(n, r)[k + 1] + 1
    ensures n > 0 ==> Columns(n, r)[0] == (if r % 2 == 0 then 0 else n - 1)
  {
  }

  /** Step `k` of the inner loop on row `r`. */
  lemma SnakeRowAt(n: nat, r: nat, k: nat)
    requires k < n
    ensures |SnakeRow(n, r)| == n && SnakeRow(n, r)[k] == Point(r, ColumnAt(n, r, k))
  {
    ColumnsClosedForm(n, r, k);
  }

  /** Adding a row keeps the points already visited where they were. */
  lemma SnakePrefixKeeps(n: nat, m: nat, i: nat)
    requires 0 < m && i < |SnakePrefix(n, m - 1)|
    ensures i < |SnakePrefix(n, m)| && SnakePrefix(n, m)[i] == SnakePrefix(n, m - 1)[i]
  {
    AppendLeft(SnakePrefix(n, m - 1), SnakeRow(n, m - 1), i);
  }

  /** Iteration `r` of the outer loop visits its row right after the earlier rows. */
  lemma SnakePrefixLastRow(n: nat, r: nat, k: nat)
    requires k < n
    ensures RowMajor(n, r, k) < |SnakePrefix(n, r + 1)|
    ensures SnakePrefix(n, r + 1)[RowMajor(n, r, k)] == Point(r, ColumnAt(n, r, k))
  {
    SnakeRowAt(n, r, k);
    AppendRight(SnakePrefix(n, r), SnakeRow(n, r), k);
  }

  /** Step `k` of row `r` sits at row-major position (r, k) of the scan. */
  lemma {:induction false} SnakePrefixAt(n: nat, m: nat, r: nat, k: nat)
    requires r < m && k < n
    ensures RowMajor(n, r, k) < |SnakePrefix(n, m)|
    ensures SnakePrefix(n, m)[RowMajor(n, r, k)] == Point(r, ColumnAt(n, r, k))
    decreases m, 1
  {
    if r + 1 < m {
      SnakePrefixEarlierRow(n, m, r, k);
    } else {
      assert m == r + 1;
      SnakePrefixLastRow(n, r, k);
    }
  }

  /** A row before the last of the prefix is where the shorter prefix put it. */
  lemma {:induction false} SnakePrefixEarlierRow(n: nat, m: nat, r: nat, k: nat)
    requires r + 1 < m && k < n
    ensures RowMajor(n, r, k) < |SnakePrefix(n, m)|
    ensures SnakePrefix(n, m)[RowMajor(n, r, k)] == Point(r, ColumnAt(n, r, k))
    decreases m, 0
  {
    SnakePrefixAt(n, m - 1, r, k);
    SnakePrefixKeeps(n, m, RowMajor(n, r, k));
  }

  /** Every step of the scan visits a point of the grid. */
  lemma SnakeOrderInGrid(n: nat, i: nat)
    requires i < |SnakeOrder(n)|
    ensures InGrid(n, SnakeOrder(n)[i])
  {
    var r, k := Decompose(n, n, i);
    SnakePrefixAt(n, n, r, k);
  }

  /** The scan of an n×n grid has n² steps, and step `r * n + k` visits
      row `r` at column `k` (even `r`) or `n - 1 - k` (odd `r`). */
  lemma SnakeOrderLayout(n: nat)
    ensures |SnakeOrder(n)| == n * n
    ensures forall r, k :: 0 <= r < n && 0 <= k < n ==>
      && RowMajor(n, r, k) == r * n + k
      && RowMajor(n, r, k) < |SnakeOrder(n)|
      && SnakeOrder(n)[RowMajor(n, r, k)] == Point(r, if r % 2 == 0 then k else n - 1 - k)
  {
    MulIsProduct(n, n);
    forall r, k | 0 <= r < n && 0 <= k < n
      ensures RowMajor(n, r, k) == r * n + k
      ensures RowMajor(n, r, k) < |SnakeOrder(n)|
      ensures SnakeOrder(n)[RowMajor(n, r, k)] == Point(r, if r % 2 == 0 then k else n - 1 - k)
    {
      MulIsProduct(r, n);
      SnakePrefixAt(n, n, r, k);
    }
  }

  /** The scan of an n×n grid has n² steps. */
  lemma SnakeOrderLength(n: nat)
    ensures |SnakeOrder(n)| == n * n
  {
    MulIsProduct(n, n);
  }

  /** Step `i` of the scan visits a grid point whose index is `i`. */
  lemma SnakeOrderIndexAt(n: nat, i: nat)
    requires i < |SnakeOrder(n)|
    ensures InGrid(n, SnakeOrder(n)[i]) && Index(n, SnakeOrder(n)[i]) == i
  {
    var r, k := Decompose(n, n, i);
    SnakePrefixAt(n, n, r, k);
    ColumnAtInvolution(n, r, k);
  }

  /** Two different steps of the scan visit different points. */
  lemma SnakeOrderDistinct(n: nat, i: nat, j: nat)
    requires i < j < |SnakeOrder(n)|
    ensures SnakeOrder(n)[i] != SnakeOrder(n)[j]
  {
    SnakeOrderIndexAt(n, i);
    SnakeOrderIndexAt(n, j);
  }

  /** `Index` and the snake order are inverse to each other: the scan visits
      exactly the grid points, each at the position `Index` names. */
  lemma SnakeOrderIndex(n: nat)
    ensures forall i :: 0 <= i < |SnakeOrder(n)| ==>
      InGrid(n, SnakeOrder(n)[i]) && Index(n, SnakeOrder(n)[i]) == i
    ensures forall p :: InGrid(n, p) ==>
      Index(n, p) < |SnakeOrder(n)| && SnakeOrder(n)[Index(n, p)] == p
  {
    forall i | 0 <= i < |SnakeOrder(n)|
      ensures InGrid(n, SnakeOrder(n)[i]) && Index(n, SnakeOrder(n)[i]) == i
    {
      SnakeOrderIndexAt(n, i);
    }
    forall p | InGrid(n, p)
      ensures Index(n, p) < |SnakeOrder(n)| && SnakeOrder(n)[Index(n, p)] == p
    {
      ColumnAtInvolution(n, p.row, p.col);
      SnakePrefixAt(n, n, p.row, ColumnAt(n, p.row, p.col));
    }
  }

  /** The snake order is a permutation of the grid: it contains exactly the
      points with both coordinates below `n`, each of them exactly once. */
  lemma SnakeOrderPermutation(n: nat)
    ensures |SnakeOrder(n)| == n * n
    ensures forall p :: p in SnakeOrder(n) <==> InGrid(n, p)
    ensures forall i, j :: 0 <= i < j < |SnakeOrder(n)| ==> SnakeOrder(n)[i] != SnakeOrder(n)[j]
  {
    MulIsProduct(n, n);
    SnakeOrderIndex(n);
  }

  /** Rows are visited in ascending order. */
  lemma SnakeRowsAscend(n: nat)
    ensures forall i, j :: 0 <= i <= j < |SnakeOrder(n)| ==> SnakeOrder(n)[i].row <= SnakeOrder(n)[j].row
  {
    SnakeOrderIndex(n);
    forall i, j | 0 <= i <= j < |SnakeOrder(n)|
      ensures SnakeOrder(n)[i].row <= SnakeOrder(n)[j].row
    {
      var p, q := SnakeOrder(n)[i], SnakeOrder(n)[j];
      RowMajorRowOrder(n, p.row, ColumnAt(n, p.row, p.col), q.row, ColumnAt(n, q.row, q.col));
    }
  }

  /** Within a row, the next step moves one column over. */
  lemma SnakeStepWithinRow(n: nat, r: nat, k: nat)
    requires r < n && k + 1 < n
    ensures RowMajor(n, r, k) + 1 < |SnakeOrder(n)|
    ensures Adjacent(SnakeOrder(n)[RowMajor(n, r, k)], SnakeOrder(n)[RowMajor(n, r, k) + 1])
  {
    SnakePrefixAt(n, n, r, k);
    SnakePrefixAt(n, n, r, k + 1);
  }

  /** The last step of a row is followed by the first step of the next row,
      one row further on and in the same column. */
  lemma SnakeStepNextRow(n: nat, r: nat)
    requires r + 1 < n
    ensures RowMajor(n, r, n - 1) + 1 == RowMajor(n, r + 1, 0)
    ensures RowMajor(n, r + 1, 0) < |SnakeOrder(n)|
    ensures Adjacent(SnakeOrder(n)[RowMajor(n, r, n - 1)], SnakeOrder(n)[RowMajor(n, r + 1, 0)])
  {
    SnakePrefixAt(n, n, r, n - 1);
    SnakePrefixAt(n, n, r + 1, 0);
    ColumnAtTurn(n, r);
  }

  /** The column a row ends in is the column the next row starts in. */
  lemma ColumnAtTurn(n: nat, r: nat)
    requires 0 < n
    ensures ColumnAt(n, r, n - 1) == ColumnAt(n, r + 1, 0)
  {
    if r % 2 == 0 {
      assert (r + 1) % 2 == 1;
    } else {
      assert (r + 1) % 2 == 0;
    }
  }

  /** A row-major position below `m * n` is in one of the first `m` rows. */
  lemma RowMajorBound(n: nat, m: nat, r: nat, k: nat)
    requires RowMajor(n, r, k) < Mul(m, n)
    ensures r < m
  {
    if r >= m {
      MulLeq(m, r, n);
    }
  }

  lemma SnakeStepAdjacentAt(n: nat, i: nat)
    requires i + 1 < |SnakeOrder(n)|
    ensures Adjacent(SnakeOrder(n)[i], SnakeOrder(n)[i + 1])
  {
    var r, k := Decompose(n, n, i);
    if k + 1 < n {
      SnakeStepWithinRow(n, r, k);
    } else {
      assert i + 1 == RowMajor(n, r + 1, 0);
      RowMajorBound(n, n, r + 1, 0);
      SnakeStepNextRow(n, r);
    }
  }

  /** Consecutive steps of the scan move to an adjacent grid point. */
  lemma SnakeStepsAdjacent(n: nat)
    ensures forall i :: 0 <= i && i + 1 < |SnakeOrder(n)| ==> Adjacent(SnakeOrder(n)[i], SnakeOrder(n)[i + 1])
  {
    forall i | 0 <= i && i + 1 < |SnakeOrder(n)|
      ensures Adjacent(SnakeOrder(n)[i], SnakeOrder(n)[i + 1])
    {
      SnakeStepAdjacentAt(n, i);
    }
  }

  /** The 2×2 scan: along row 0, then back along row 1. */
  lemma SnakeOrderTwoByTwo()
    ensures SnakeOrder(2) == [Point(0, 0), Point(0, 1), Point(1, 1), Point(1, 0)]
  {
    var s := SnakePrefix(2, 2);
    assert |s| == 4;
    SnakePrefixAt(2, 2, 0, 0);
    SnakePrefixAt(2, 2, 0, 1);
    SnakePrefixAt(2, 2, 1, 0);
    SnakePrefixAt(2, 2, 1, 1);
    assert s == [s[0], s[1], s[2], s[3]];
  }
}
