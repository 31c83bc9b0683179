/** The exact pointer hit grid: two loops, in Rust and in Go, that compress a hit test into row runs. */
module HitGrid {
  import opened Options

  type Owner = string
  type Key = (int, int)                    // row, column
  type HitTest = (int, int) -> Option<Owner> // column, row

  datatype Span = Span(row: int, from: int, to: int)

  datatype Region = Region(recipient: Owner, spans: seq<Span>)

  // A published hit region: one row, columns from..to.
  datatype Run = Run(row: int, from: int, to: int, owner: Owner)

  datatype Error = NoHitTest | TooLarge | Overlap | Disagrees(column: int, row: int)

  datatype Result = Ok(runs: seq<Run>) | Err(error: Error)

  const LIMIT: int := 1_000_000
  const I64: int := 0x8000_0000_0000_0000

  predicate InSpan(span: Span, key: Key) { key.0 == span.row && span.from <= key.1 < span.to }

  // ---------------------------------------------------------------- declared owners

  datatype Cell = Free | Owned(id: Owner) | Conflict

  // One more region declares the cell.  Go cannot tell an empty recipient from none (`blank`).
  function Claim(cell: Cell, id: Owner, blank: bool): Cell {
    match cell
    case Free => if blank && id == "" then Free else Owned(id)
    case Owned(first) => if first == id then cell else Conflict
    case Conflict => Conflict
  }

  function ClaimSpans(cell: Cell, key: Key, id: Owner, spans: seq<Span>, blank: bool): Cell {
    if spans == [] then cell
    else
      var before := ClaimSpans(cell, key, id, spans[..|spans| - 1], blank);
      if InSpan(spans[|spans| - 1], key) then Claim(before, id, blank) else before
  }

  function CellOf(regions: seq<Region>, key: Key, blank: bool): Cell {
    if regions == [] then Free
    else
      var last := regions[|regions| - 1];
      ClaimSpans(CellOf(regions[..|regions| - 1], key, blank), key, last.recipient, last.spans, blank)
  }

  function Expected(cell: Cell): Option<Owner> {
    if cell.Owned? then Some(cell.id) else None
  }

  ghost predicate Overlaps(regions: seq<Region>, blank: bool) {
    exists key :: CellOf(regions, key, blank).Conflict?
  }

  // What the `declared` map says of a cell.
  function Lookup(declared: map<Key, Owner>, key: Key, blank: bool): Cell {
    if key in declared && !(blank && declared[key] == "") then Owned(declared[key]) else Free
  }

  ghost predicate Records(declared: map<Key, Owner>, regions: seq<Region>, blank: bool) {
    forall key: Key :: Lookup(declared, key, blank) == CellOf(regions, key, blank)
  }

  // ---------------------------------------------------------------- maximal runs

  // The maximal runs of the first n cells of a row.
  function RowRuns(h: HitTest, row: int, n: nat): seq<Run> {
    if n == 0 then []
    else
      var before := RowRuns(h, row, n - 1);
      match h(n - 1, row)
      case None => before
      case Some(o) =>
        if before != [] && before[|before| - 1].to == n - 1 && before[|before| - 1].owner == o
        then before[..|before| - 1] + [before[|before| - 1].(to := n)]
        else before + [Run(row, n - 1, n, o)]
  }

  function Grid(h: HitTest, columns: nat, rows: nat): seq<Run> {
    if rows == 0 then [] else Grid(h, columns, rows - 1) + RowRuns(h, rows - 1, columns)
  }

  // The first of n cells of a row whose hit test is not what was declared.
  function RowDispute(h: HitTest, regions: seq<Region>, row: int, n: nat, blank: bool): Option<int> {
    if n == 0 then None
    else
      var before := RowDispute(h, regions, row, n - 1, blank);
      if before.Some? then before
      else if h(n - 1, row) != Expected(CellOf(regions, (row, n - 1), blank)) then Some(n - 1)
      else None
  }

  // The first such cell in row-major order.
  function Dispute(h: HitTest, regions: seq<Region>, columns: nat, rows: nat, blank: bool): Option<Key> {
    if rows == 0 then None
    else
      var before := Dispute(h, regions, columns, rows - 1, blank);
      if before.Some? then before
      else
        var column := RowDispute(h, regions, rows - 1, columns, blank);
        if column.Some? then Some((rows - 1, column.value)) else None
  }

  function Count(n: int): nat { if n < 0 then 0 else n }

  /** What exact_grid returns, as one definition for both loops; `cells` is the viewport size as computed. */
  ghost function ExactGrid(
    regions: seq<Region>, hitTest: Option<HitTest>, cells: int, columns: int, rows: int, verify: bool,
    blank: bool): Result
  {
    if hitTest.None? then Err(NoHitTest)
    else if cells > LIMIT then Err(TooLarge)
    else if Overlaps(regions, blank) then Err(Overlap)
    else
      var at := Dispute(hitTest.value, regions, Count(columns), Count(rows), blank);
      if verify && at.Some? then Err(Disagrees(at.value.1, at.value.0))
      else Ok(Grid(hitTest.value, Count(columns), Count(rows)))
  }

  // ---------------------------------------------------------------- facts the loops need

  // The last run touches the end exactly when the last cell is owned.
  lemma {:induction false} LastRun(h: HitTest, row: int, n: nat)
    ensures var runs := RowRuns(h, row, n);
      && (runs != [] ==> runs[|runs| - 1].to <= n)
      && (n > 0 && h(n - 1, row).Some? ==>
            runs != [] && runs[|runs| - 1].to == n && runs[|runs| - 1].owner == h(n - 1, row).value
            && runs[|runs| - 1].row == row)
      && (n > 0 && h(n - 1, row).None? && runs != [] ==> runs[|runs| - 1].to < n)
  {
    if n > 0 { LastRun(h, row, n - 1); }
  }

  // The owner of the cell before column n, and the run it is in when it has one.
  function OwnerBefore(h: HitTest, row: int, n: nat): Option<Owner> {
    if n == 0 then None else h(n - 1, row)
  }

  function Pending(row: int, start: Option<int>, owner: Option<Owner>, end: int): seq<Run> {
    if start.Some? && owner.Some? then [Run(row, start.value, end, owner.value)] else []
  }

  // The loops' shared invariant: closed runs and the open one make up the runs of the first n cells.
  ghost predicate RowState(
    h: HitTest, row: int, n: nat, before: seq<Run>, output: seq<Run>, start: Option<int>, owner: Option<Owner>)
  {
    && owner == OwnerBefore(h, row, n)
    && (start.Some? <==> owner.Some?)
    && output + Pending(row, start, owner, n) == before + RowRuns(h, row, n)
  }

  lemma Unsnoc<T>(a: seq<T>, x: T, b: seq<T>, y: T)
    requires a + [x] == b + [y]
    ensures a == b && x == y
  {
    assert a == (a + [x])[..|a|] && b == (b + [y])[..|b|];
    assert x == (a + [x])[|a|] && y == (b + [y])[|b|];
  }

  // One more cell of the same owner: the open run grows.
  lemma RunGrows(h: HitTest, row: int, n: nat, before: seq<Run>, output: seq<Run>, start: int, owner: Owner)
    requires RowState(h, row, n, before, output, Some(start), Some(owner)) && h(n, row) == Some(owner)
    ensures RowState(h, row, n + 1, before, output, Some(start), Some(owner))
  {
    LastRun(h, row, n);
    var runs := RowRuns(h, row, n);
    var front, last := runs[..|runs| - 1], runs[|runs| - 1];
    assert before + runs == (before + front) + [last];
    Unsnoc(output, Run(row, start, n, owner), before + front, last);
    assert RowRuns(h, row, n + 1) == front + [last.(to := n + 1)];
    assert before + (front + [last.(to := n + 1)]) == (before + front) + [last.(to := n + 1)];
  }

  // The owner changes: the open run is closed and another may open.
  lemma RunTurns(h: HitTest, row: int, n: nat, before: seq<Run>, output: seq<Run>, start: Option<int>,
                 owner: Option<Owner>)
    requires RowState(h, row, n, before, output, start, owner) && h(n, row) != owner
    ensures RowState(h, row, n + 1, before, output + Pending(row, start, owner, n),
                     if h(n, row).Some? then Some(n) else None, h(n, row))
  {
    LastRun(h, row, n);
    var runs, next := RowRuns(h, row, n), RowRuns(h, row, n + 1);
    var closed := output + Pending(row, start, owner, n);
    if h(n, row).Some? {
      var newRun := Run(row, n, n + 1, h(n, row).value);
      assert next == runs + [newRun];
      Reassociate(before, runs, newRun);
      assert Pending(row, Some(n), h(n, row), n + 1) == [newRun];
      assert closed + [newRun] == before + next;
    } else {
      assert next == runs;
      assert closed + [] == closed;
    }
  }

  lemma Reassociate<T>(a: seq<T>, b: seq<T>, x: T)
    ensures a + (b + [x]) == (a + b) + [x]
  {
  }
}
