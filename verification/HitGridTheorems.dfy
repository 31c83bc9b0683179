/** What the runs mean: they decode to the hit test, are as few as possible, pass the validator, and agree. */
module HitGridTheorems {
  import opened Options
  import opened HitGrid
  import opened HitGridLoops

  // ---------------------------------------------------------------- meaning of a run list

  predicate CoversCell(run: Run, row: int, column: int) { run.row == row && run.from <= column < run.to }

  ghost predicate Shows(runs: seq<Run>, row: int, column: int, o: Owner) {
    exists i :: 0 <= i < |runs| && CoversCell(runs[i], row, column) && runs[i].owner == o
  }

  // A run list says of every cell exactly what the hit test says, and nothing of cells outside.
  ghost predicate Decodes(runs: seq<Run>, h: HitTest, columns: nat, rows: nat) {
    && (forall i | 0 <= i < |runs| ::
          0 <= runs[i].row < rows && 0 <= runs[i].from < runs[i].to <= columns)
    && (forall row, column, o | 0 <= row < rows && 0 <= column < columns ::
          Shows(runs, row, column, o) <==> h(column, row) == Some(o))
  }

  // No run can be extended to the right.
  ghost predicate Closed(run: Run, h: HitTest, columns: nat) {
    run.to == columns || h(run.to, run.row) != Some(run.owner)
  }

  // Nor to the left.
  ghost predicate Starts(run: Run, h: HitTest) {
    run.from == 0 || h(run.from - 1, run.row) != Some(run.owner)
  }

  ghost predicate Owns(run: Run, h: HitTest) {
    forall column | run.from <= column < run.to :: h(column, run.row) == Some(run.owner)
  }

  // ---------------------------------------------------------------- one row

  ghost predicate RunOk(run: Run, h: HitTest, row: int, n: nat) {
    run.row == row && 0 <= run.from < run.to <= n && Owns(run, h) && Closed(run, h, n)
  }

  ghost predicate RowShown(runs: seq<Run>, h: HitTest, row: int, n: nat) {
    forall column | 0 <= column < n && h(column, row).Some? :: Shows(runs, row, column, h(column, row).value)
  }

  ghost predicate RowOk(runs: seq<Run>, h: HitTest, row: int, n: nat) {
    (forall i | 0 <= i < |runs| :: RunOk(runs[i], h, row, n)) && RowMajor(runs) && RowShown(runs, h, row, n)
  }

  lemma RowMajorGrows(runs: seq<Run>, last: Run)
    requires RowMajor(runs) && last.from < last.to
    requires runs != [] ==> Follows(runs[|runs| - 1], last)
    ensures RowMajor(runs + [last])
  {
    forall i: nat | i < |runs + [last]| ensures RowMajorAt(runs + [last], i) {
      if i < |runs| { assert RowMajorAt(runs, i); }
    }
  }

  lemma ShowsMore(runs: seq<Run>, more: seq<Run>, row: int, column: int, o: Owner)
    requires Shows(runs, row, column, o)
    requires |more| >= |runs| && forall i | 0 <= i < |runs| ::
               runs[i].row == more[i].row && runs[i].owner == more[i].owner
               && more[i].from <= runs[i].from && runs[i].to <= more[i].to
    ensures Shows(more, row, column, o)
  {
    var i :| 0 <= i < |runs| && CoversCell(runs[i], row, column) && runs[i].owner == o;
    assert CoversCell(more[i], row, column) && more[i].owner == o;
  }

  lemma {:induction false} RowRunsOk(h: HitTest, row: int, n: nat)
    ensures RowOk(RowRuns(h, row, n), h, row, n)
  {
    if n > 0 {
      RowRunsOk(h, row, n - 1);
      RowAdvances(h, row, n, RowRuns(h, row, n - 1), RowRuns(h, row, n));
    }
  }

  lemma RowAdvances(h: HitTest, row: int, n: nat, runs: seq<Run>, next: seq<Run>)
    requires n > 0 && RowOk(runs, h, row, n - 1)
    requires next ==
      match h(n - 1, row)
      case None => runs
      case Some(o) =>
        if runs != [] && runs[|runs| - 1].to == n - 1 && runs[|runs| - 1].owner == o
        then runs[..|runs| - 1] + [runs[|runs| - 1].(to := n)]
        else runs + [Run(row, n - 1, n, o)]
    ensures RowOk(next, h, row, n)
  {
    match h(n - 1, row)
    case None => RowIdles(h, row, n, runs);
    case Some(o) =>
      if runs != [] && runs[|runs| - 1].to == n - 1 && runs[|runs| - 1].owner == o {
        RowGrows(h, row, n, runs);
      } else {
        if runs != [] { assert RunOk(runs[|runs| - 1], h, row, n - 1); }
        RowOpens(h, row, n, runs);
      }
  }

  lemma RowIdles(h: HitTest, row: int, n: nat, runs: seq<Run>)
    requires n > 0 && RowOk(runs, h, row, n - 1) && h(n - 1, row).None?
    ensures RowOk(runs, h, row, n)
  {
    forall i | 0 <= i < |runs| ensures RunOk(runs[i], h, row, n) {
      assert RunOk(runs[i], h, row, n - 1);
    }
  }

  lemma RowShownGrows(h: HitTest, row: int, n: nat, runs: seq<Run>, more: seq<Run>)
    requires n > 0 && RowShown(runs, h, row, n - 1) && 0 < |more| && |runs| <= |more|
    requires forall i | 0 <= i < |runs| ::
               runs[i].row == more[i].row && runs[i].owner == more[i].owner
               && more[i].from <= runs[i].from && runs[i].to <= more[i].to
    requires CoversCell(more[|more| - 1], row, n - 1) && h(n - 1, row) == Some(more[|more| - 1].owner)
    ensures RowShown(more, h, row, n)
  {
    forall column | 0 <= column < n && h(column, row).Some? ensures Shows(more, row, column, h(column, row).value) {
      if column < n - 1 { ShowsMore(runs, more, row, column, h(column, row).value); }
    }
  }

  // The runs before the last stay closed when the row grows.
  lemma FrontStaysOk(h: HitTest, row: int, n: nat, runs: seq<Run>, i: nat)
    requires n > 0 && RowOk(runs, h, row, n - 1) && i < |runs| - 1
    ensures RunOk(runs[i], h, row, n)
  {
    assert RunOk(runs[i], h, row, n - 1) && RunOk(runs[|runs| - 1], h, row, n - 1);
    Ordered(runs, i, |runs| - 1);
  }

  lemma LastGrows(h: HitTest, row: int, n: nat, last: Run)
    requires n > 0 && RunOk(last, h, row, n - 1) && last.to == n - 1 && h(n - 1, row) == Some(last.owner)
    ensures RunOk(last.(to := n), h, row, n)
  {
  }

  lemma RowGrows(h: HitTest, row: int, n: nat, runs: seq<Run>)
    requires n > 0 && RowOk(runs, h, row, n - 1) && runs != [] && runs[|runs| - 1].to == n - 1
    requires h(n - 1, row) == Some(runs[|runs| - 1].owner)
    ensures RowOk(runs[..|runs| - 1] + [runs[|runs| - 1].(to := n)], h, row, n)
  {
    var front, last := runs[..|runs| - 1], runs[|runs| - 1];
    var longer := last.(to := n);
    var grown := front + [longer];
    assert RunOk(last, h, row, n - 1);
    LastGrows(h, row, n, last);
    forall i | 0 <= i < |grown| ensures RunOk(grown[i], h, row, n) {
      if i < |front| {
        FrontStaysOk(h, row, n, runs, i);
        assert grown[i] == runs[i];
      } else {
        assert grown[i] == longer;
      }
    }
    assert RowMajor(grown) by {
      assert RowMajorAt(runs, |runs| - 1);
      forall i: nat | i < |front| ensures RowMajorAt(front, i) { assert RowMajorAt(runs, i); }
      RowMajorGrows(front, longer);
    }
    forall i | 0 <= i < |runs|
      ensures runs[i].row == grown[i].row && runs[i].owner == grown[i].owner
           && grown[i].from <= runs[i].from && runs[i].to <= grown[i].to
    {
      if i < |front| { assert grown[i] == runs[i]; } else { assert grown[i] == longer; }
    }
    RowShownGrows(h, row, n, runs, grown);
  }

  lemma RowOpens(h: HitTest, row: int, n: nat, runs: seq<Run>)
    requires n > 0 && RowOk(runs, h, row, n - 1) && h(n - 1, row).Some?
    requires runs != [] ==> runs[|runs| - 1].to < n - 1 || runs[|runs| - 1].owner != h(n - 1, row).value
    ensures RowOk(runs + [Run(row, n - 1, n, h(n - 1, row).value)], h, row, n)
  {
    var last := Run(row, n - 1, n, h(n - 1, row).value);
    var more := runs + [last];
    RowMajorGrows(runs, last);
    forall i | 0 <= i < |more| ensures RunOk(more[i], h, row, n) {
      if i < |runs| - 1 {
        FrontStaysOk(h, row, n, runs, i);
      } else if i == |runs| - 1 {
        assert RunOk(runs[i], h, row, n - 1);
      }
    }
    RowShownGrows(h, row, n, runs, more);
  }

  // ---------------------------------------------------------------- row-major runs

  /** The validator compares neighbours only, yet then any two runs are in order and share no cell. */
  lemma {:induction false} Ordered(runs: seq<Run>, i: nat, j: nat)
    requires RowMajor(runs) && i < j < |runs|
    ensures runs[i].row < runs[j].row || (runs[i].row == runs[j].row && runs[i].to <= runs[j].from)
    ensures forall row, column :: !(CoversCell(runs[i], row, column) && CoversCell(runs[j], row, column))
    decreases j
  {
    assert RowMajorAt(runs, j);
    if i < j - 1 {
      Ordered(runs, i, j - 1);
      assert RowMajorAt(runs, j - 1);
    }
  }

  // ---------------------------------------------------------------- the whole grid

  ghost predicate GridOk(runs: seq<Run>, h: HitTest, columns: nat, rows: nat) {
    && (forall i | 0 <= i < |runs| :: 0 <= runs[i].row < rows && RunOk(runs[i], h, runs[i].row, columns))
    && RowMajor(runs)
    && (forall row | 0 <= row < rows :: RowShown(runs, h, row, columns))
  }

  lemma ConcatRowMajor(above: seq<Run>, h: HitTest, columns: nat, rows: nat, runs: seq<Run>)
    requires GridOk(above, h, columns, rows) && RowOk(runs, h, rows, columns)
    ensures RowMajor(above + runs)
  {
    var all := above + runs;
    forall i: nat | i < |all| ensures RowMajorAt(all, i) {
      if i < |above| {
        assert RowMajorAt(above, i);
      } else {
        assert RowMajorAt(runs, i - |above|) && RunOk(runs[i - |above|], h, rows, columns);
      }
    }
  }

  lemma ConcatShown(above: seq<Run>, h: HitTest, columns: nat, rows: nat, runs: seq<Run>, row: int)
    requires GridOk(above, h, columns, rows) && RowOk(runs, h, rows, columns) && 0 <= row < rows + 1
    ensures RowShown(above + runs, h, row, columns)
  {
    var all := above + runs;
    forall column | 0 <= column < columns && h(column, row).Some?
      ensures Shows(all, row, column, h(column, row).value)
    {
      if row < rows {
        assert RowShown(above, h, row, columns);
        ShowsMore(above, all, row, column, h(column, row).value);
      } else {
        var i :| 0 <= i < |runs| && CoversCell(runs[i], row, column) && runs[i].owner == h(column, row).value;
        assert all[|above| + i] == runs[i];
      }
    }
  }

  lemma ConcatRows(above: seq<Run>, h: HitTest, columns: nat, rows: nat, runs: seq<Run>)
    requires GridOk(above, h, columns, rows) && RowOk(runs, h, rows, columns)
    ensures GridOk(above + runs, h, columns, rows + 1)
  {
    var all := above + runs;
    forall i | 0 <= i < |all| ensures 0 <= all[i].row < rows + 1 && RunOk(all[i], h, all[i].row, columns) {
      if i >= |above| { assert RunOk(runs[i - |above|], h, rows, columns); }
    }
    ConcatRowMajor(above, h, columns, rows, runs);
    forall row | 0 <= row < rows + 1 ensures RowShown(all, h, row, columns) {
      ConcatShown(above, h, columns, rows, runs, row);
    }
  }

  lemma {:induction false} GridIsOk(h: HitTest, columns: nat, rows: nat)
    ensures GridOk(Grid(h, columns, rows), h, columns, rows)
  {
    if rows > 0 {
      GridIsOk(h, columns, rows - 1);
      RowRunsOk(h, rows - 1, columns);
      var above, runs := Grid(h, columns, rows - 1), RowRuns(h, rows - 1, columns);
      ConcatRows(above, h, columns, rows - 1, runs);
      assert Grid(h, columns, rows) == above + runs;
    }
  }

  // The cell to the left of a run is in a run that ends there, and that run cannot be extended either.
  lemma RunStarts(runs: seq<Run>, h: HitTest, columns: nat, rows: nat, i: nat)
    requires GridOk(runs, h, columns, rows) && i < |runs|
    ensures Starts(runs[i], h)
  {
    var run := runs[i];
    assert RunOk(run, h, run.row, columns) && Owns(run, h);
    if run.from > 0 && h(run.from - 1, run.row) == Some(run.owner) {
      assert RowShown(runs, h, run.row, columns);
      assert Shows(runs, run.row, run.from - 1, run.owner);
      var j :| 0 <= j < |runs| && CoversCell(runs[j], run.row, run.from - 1) && runs[j].owner == run.owner;
      assert RunOk(runs[j], h, runs[j].row, columns);
      if j < i { Ordered(runs, j, i); } else { Ordered(runs, i, j); }
    }
  }

  /** The grid decodes cell by cell to the hit test, is row-major as the validator wants it, and no run can be
      extended to either side. */
  lemma GridMeansHitTest(h: HitTest, columns: nat, rows: nat)
    ensures var runs := Grid(h, columns, rows);
      && Decodes(runs, h, columns, rows) && RowMajor(runs)
      && forall i | 0 <= i < |runs| :: Starts(runs[i], h) && Closed(runs[i], h, columns)
  {
    GridIsOk(h, columns, rows);
    var runs := Grid(h, columns, rows);
    forall row, column, o | 0 <= row < rows && 0 <= column < columns
      ensures Shows(runs, row, column, o) <==> h(column, row) == Some(o)
    {
      assert RowShown(runs, h, row, columns);
      if Shows(runs, row, column, o) {
        var i :| 0 <= i < |runs| && CoversCell(runs[i], row, column) && runs[i].owner == o;
        assert RunOk(runs[i], h, runs[i].row, columns) && Owns(runs[i], h);
      }
    }
    forall i | 0 <= i < |runs|
      ensures 0 <= runs[i].row < rows && 0 <= runs[i].from < runs[i].to <= columns
      ensures Starts(runs[i], h) && Closed(runs[i], h, columns)
    {
      assert RunOk(runs[i], h, runs[i].row, columns);
      RunStarts(runs, h, columns, rows, i);
    }
  }

  // ---------------------------------------------------------------- fewest runs

  lemma {:induction false} Pigeonhole(xs: seq<nat>, m: nat)
    requires forall i | 0 <= i < |xs| :: xs[i] < m
    requires forall i, j | 0 <= i < j < |xs| :: xs[i] != xs[j]
    ensures |xs| <= m
    decreases m
  {
    if xs != [] {
      assert xs[0] < m;
      if exists k :: 0 <= k < |xs| && xs[k] == m - 1 {
        var k :| 0 <= k < |xs| && xs[k] == m - 1;
        Pigeonhole(xs[..k] + xs[k + 1..], m - 1);
      } else {
        Pigeonhole(xs, m - 1);
      }
    }
  }

  // A run of any correct list that covers where one of ours starts.
  ghost function Coverer(other: seq<Run>, h: HitTest, columns: nat, rows: nat, run: Run): (j: nat)
    requires Decodes(other, h, columns, rows)
    requires 0 <= run.row < rows && 0 <= run.from < run.to <= columns && Owns(run, h)
    ensures j < |other| && CoversCell(other[j], run.row, run.from) && other[j].owner == run.owner
  {
    assert h(run.from, run.row) == Some(run.owner);
    assert Shows(other, run.row, run.from, run.owner);
    var j :| 0 <= j < |other| && CoversCell(other[j], run.row, run.from) && other[j].owner == run.owner;
    j
  }

  // One run cannot reach from a closed run's start to a later run's start.
  lemma OneRunEach(h: HitTest, columns: nat, rows: nat, a: Run, b: Run, other: seq<Run>, j: nat)
    requires Decodes(other, h, columns, rows) && j < |other|
    requires Closed(a, h, columns) && 0 <= a.from < a.to && 0 <= b.from < columns
    requires a.row < b.row || (a.row == b.row && a.to <= b.from)
    requires CoversCell(other[j], a.row, a.from) && other[j].owner == a.owner
    ensures !CoversCell(other[j], b.row, b.from)
  {
    if CoversCell(other[j], b.row, b.from) {
      assert CoversCell(other[j], a.row, a.to);
      assert Shows(other, a.row, a.to, a.owner);
    }
  }

  /** Whatever run list, overlapping or not, decodes to the same hit test has at least as many runs. */
  lemma GridIsFewest(h: HitTest, columns: nat, rows: nat, other: seq<Run>)
    requires Decodes(other, h, columns, rows)
    ensures |Grid(h, columns, rows)| <= |other|
  {
    var runs := Grid(h, columns, rows);
    GridIsOk(h, columns, rows);
    assert forall i | 0 <= i < |runs| :: 0 <= runs[i].row < rows && RunOk(runs[i], h, runs[i].row, columns);
    var js := seq(|runs|, i requires 0 <= i < |runs| => Coverer(other, h, columns, rows, runs[i]));
    forall i, k | 0 <= i < k < |runs| ensures js[i] != js[k] {
      Ordered(runs, i, k);
      assert RunOk(runs[i], h, runs[i].row, columns) && RunOk(runs[k], h, runs[k].row, columns);
      OneRunEach(h, columns, rows, runs[i], runs[k], other, js[i]);
    }
    Pigeonhole(js, |other|);
  }

  // ---------------------------------------------------------------- declared owners

  ghost predicate Declares(regions: seq<Region>, i: nat, key: Key)
    requires i < |regions|
  {
    exists span :: span in regions[i].spans && InSpan(span, key)
  }

  lemma {:induction false} SpansClaim(cell: Cell, key: Key, id: Owner, spans: seq<Span>, blank: bool)
    ensures ClaimSpans(cell, key, id, spans, blank)
            == if exists span :: span in spans && InSpan(span, key) then Claim(cell, id, blank) else cell
  {
    if spans != [] {
      var front, last := spans[..|spans| - 1], spans[|spans| - 1];
      SpansClaim(cell, key, id, front, blank);
      assert spans == front + [last];
      assert Claim(Claim(cell, id, blank), id, blank) == Claim(cell, id, blank);
      if exists span :: span in spans && InSpan(span, key) {
        var span :| span in spans && InSpan(span, key);
        assert span in front || span == last;
      }
      if exists span :: span in front && InSpan(span, key) {
        var span :| span in front && InSpan(span, key);
        assert span in spans;
      }
      assert last in spans;
    }
  }

  // All regions declaring a cell name one owner.
  ghost predicate Agree(regions: seq<Region>, key: Key) {
    forall i, j | 0 <= i < j < |regions| && Declares(regions, i, key) && Declares(regions, j, key) ::
      regions[i].recipient == regions[j].recipient
  }

  /** Rust's reading of the declarations, without the map: a cell is in conflict exactly when two regions that
      declare it have different recipients, and otherwise belongs to any region that declares it. */
  lemma {:induction false} CellMeansDeclared(regions: seq<Region>, key: Key)
    ensures CellOf(regions, key, false).Conflict? <==> !Agree(regions, key)
    ensures Agree(regions, key) ==>
              forall i: nat | i < |regions| && Declares(regions, i, key) ::
                CellOf(regions, key, false) == Owned(regions[i].recipient)
    ensures (forall i: nat | i < |regions| :: !Declares(regions, i, key)) ==> CellOf(regions, key, false) == Free
  {
    if regions != [] {
      var n := |regions| - 1;
      var front, last := regions[..n], regions[n];
      CellMeansDeclared(front, key);
      SpansClaim(CellOf(front, key, false), key, last.recipient, last.spans, false);
      assert forall i: nat | i < n :: Declares(front, i, key) == Declares(regions, i, key);
      if !Agree(front, key) {
        assert !Agree(regions, key);
      } else if Declares(regions, n, key) {
        if i: nat :| i < n && Declares(front, i, key) {
          assert CellOf(front, key, false) == Owned(front[i].recipient);
          assert Declares(regions, i, key);
        }
      }
    }
  }

  // ---------------------------------------------------------------- exact_grid

  lemma {:induction false} RowDisputeMeans(h: HitTest, regions: seq<Region>, row: int, n: nat, blank: bool)
    ensures RowDispute(h, regions, row, n, blank).None? <==>
              forall column | 0 <= column < n :: h(column, row) == Expected(CellOf(regions, (row, column), blank))
  {
    if n > 0 {
      RowDisputeMeans(h, regions, row, n - 1, blank);
    }
  }

  // Hit test and declarations agree on every cell of the viewport.
  ghost predicate Confirmed(h: HitTest, regions: seq<Region>, columns: nat, rows: nat, blank: bool) {
    forall row, column | 0 <= row < rows && 0 <= column < columns ::
      h(column, row) == Expected(CellOf(regions, (row, column), blank))
  }

  lemma {:induction false} DisputeMeans(h: HitTest, regions: seq<Region>, columns: nat, rows: nat, blank: bool)
    ensures Dispute(h, regions, columns, rows, blank).None? <==> Confirmed(h, regions, columns, rows, blank)
  {
    if rows > 0 {
      DisputeMeans(h, regions, columns, rows - 1, blank);
      RowDisputeMeans(h, regions, rows - 1, columns, blank);
    }
  }

  /** A grid is returned exactly when there is a hit test, the viewport is within the limit, no two regions
      dispute a cell and, if declared regions are verified, every cell is as declared; and then it means the
      hit test. */
  lemma ExactGridExactly(regions: seq<Region>, hitTest: Option<HitTest>, columns: int, rows: int, verify: bool)
    ensures var r := ExactGrid(regions, hitTest, RustCells(columns, rows), columns, rows, verify, false);
      && (r.Ok? <==>
            && hitTest.Some? && RustCells(columns, rows) <= LIMIT
            && (forall key :: Agree(regions, key))
            && (verify ==> Confirmed(hitTest.value, regions, Count(columns), Count(rows), false)))
      && (r.Ok? ==> Decodes(r.runs, hitTest.value, Count(columns), Count(rows)) && RowMajor(r.runs))
  {
    forall key ensures CellOf(regions, key, false).Conflict? <==> !Agree(regions, key) {
      CellMeansDeclared(regions, key);
    }
    if hitTest.Some? {
      GridMeansHitTest(hitTest.value, Count(columns), Count(rows));
      DisputeMeans(hitTest.value, regions, Count(columns), Count(rows), false);
    }
  }

  /** Once verified, each region's cells inside the viewport are shown with its recipient. */
  lemma VerifiedGridShowsDeclared(regions: seq<Region>, h: HitTest, columns: nat, rows: nat, i: nat, key: Key)
    requires forall k :: Agree(regions, k)
    requires Confirmed(h, regions, columns, rows, false)
    requires i < |regions| && Declares(regions, i, key) && 0 <= key.0 < rows && 0 <= key.1 < columns
    ensures Shows(Grid(h, columns, rows), key.0, key.1, regions[i].recipient)
  {
    CellMeansDeclared(regions, key);
    GridMeansHitTest(h, columns, rows);
    assert key == (key.0, key.1);
    assert h(key.1, key.0) == Some(regions[i].recipient);
  }
}
