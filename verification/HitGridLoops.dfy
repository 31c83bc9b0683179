/** The loops of the two clients, each proved to compute the one grid. */
module HitGridLoops {
  import opened Options
  import opened HitGrid

  // ---------------------------------------------------------------- declared owners

  // Go reads "" for a missing key and looks before it writes; Rust writes and looks at what it replaced.
  method ClaimKey(declared: map<Key, Owner>, key: Key, id: Owner, blank: bool) returns (r: Option<map<Key, Owner>>)
    ensures r.None? <==> Claim(Lookup(declared, key, blank), id, blank).Conflict?
    ensures r.Some? ==> r.value == declared[key := id]
    ensures r.Some? ==> forall k ::
              Lookup(r.value, k, blank)
              == if k == key then Claim(Lookup(declared, key, blank), id, blank) else Lookup(declared, k, blank)
  {
    if blank {
      var first := if key in declared then declared[key] else "";
      if first != "" && first != id {
        return None;
      }
      return Some(declared[key := id]);
    } else {
      var replaced := if key in declared then Some(declared[key]) else None;
      if replaced.Some? && replaced.value != id {
        return None;
      }
      return Some(declared[key := id]);
    }
  }

  method ClaimSpan(declared: map<Key, Owner>, span: Span, id: Owner, blank: bool) returns (r: Option<map<Key, Owner>>)
    ensures r.None? ==> exists k :: InSpan(span, k) && Claim(Lookup(declared, k, blank), id, blank).Conflict?
    ensures r.Some? ==> forall k ::
              Lookup(r.value, k, blank)
              == if InSpan(span, k) then Claim(Lookup(declared, k, blank), id, blank) else Lookup(declared, k, blank)
  {
    var claimed := declared;
    var column := span.from;
    while column < span.to
      invariant span.from <= column <= span.to || column == span.from
      invariant forall k ::
                  Lookup(claimed, k, blank)
                  == if InSpan(Span(span.row, span.from, column), k) then Claim(Lookup(declared, k, blank), id, blank)
                     else Lookup(declared, k, blank)
    {
      var key := (span.row, column);
      var next := ClaimKey(claimed, key, id, blank);
      if next.None? {
        assert InSpan(span, key) && Claim(Lookup(declared, key, blank), id, blank).Conflict?;
        return None;
      }
      claimed := next.value;
      column := column + 1;
    }
    return Some(claimed);
  }

  // A conflict among the first regions and spans is a conflict among all.
  lemma {:induction false} ConflictStays(cell: Cell, key: Key, id: Owner, spans: seq<Span>, j: nat, blank: bool)
    requires j <= |spans| && ClaimSpans(cell, key, id, spans[..j], blank).Conflict?
    ensures ClaimSpans(cell, key, id, spans, blank).Conflict?
    decreases |spans|
  {
    if j == |spans| {
      assert spans[..j] == spans;
    } else {
      assert spans[..|spans| - 1][..j] == spans[..j];
      ConflictStays(cell, key, id, spans[..|spans| - 1], j, blank);
    }
  }

  lemma {:induction false} RegionConflictStays(regions: seq<Region>, i: nat, key: Key, blank: bool)
    requires i <= |regions| && CellOf(regions[..i], key, blank).Conflict?
    ensures CellOf(regions, key, blank).Conflict?
    decreases |regions|
  {
    if i == |regions| {
      assert regions[..i] == regions;
    } else {
      var front, last := regions[..|regions| - 1], regions[|regions| - 1];
      assert front[..i] == regions[..i];
      RegionConflictStays(front, i, key, blank);
      ConflictStays(CellOf(front, key, blank), key, last.recipient, last.spans, 0, blank);
    }
  }

  method ClaimRegion(declared: map<Key, Owner>, region: Region, blank: bool) returns (r: Option<map<Key, Owner>>)
    ensures r.None? ==>
              exists k :: ClaimSpans(Lookup(declared, k, blank), k, region.recipient, region.spans, blank).Conflict?
    ensures r.Some? ==> forall k ::
              Lookup(r.value, k, blank)
              == ClaimSpans(Lookup(declared, k, blank), k, region.recipient, region.spans, blank)
  {
    var claimed := declared;
    var id, spans := region.recipient, region.spans;
    for j := 0 to |spans|
      invariant forall k ::
                  Lookup(claimed, k, blank) == ClaimSpans(Lookup(declared, k, blank), k, id, spans[..j], blank)
    {
      assert spans[..j + 1][..j] == spans[..j];
      var next := ClaimSpan(claimed, spans[j], id, blank);
      if next.None? {
        ghost var k :| InSpan(spans[j], k) && Claim(Lookup(claimed, k, blank), id, blank).Conflict?;
        assert ClaimSpans(Lookup(declared, k, blank), k, id, spans[..j + 1], blank).Conflict?;
        ConflictStays(Lookup(declared, k, blank), k, id, spans, j + 1, blank);
        return None;
      }
      claimed := next.value;
    }
    assert spans[..|spans|] == spans;
    return Some(claimed);
  }

  /** The declared map, or nothing exactly when two declarations of a cell disagree. */
  method Declare(regions: seq<Region>, blank: bool) returns (r: Option<map<Key, Owner>>)
    ensures r.None? <==> Overlaps(regions, blank)
    ensures r.Some? ==> Records(r.value, regions, blank)
  {
    var declared: map<Key, Owner> := map[];
    for i := 0 to |regions|
      invariant Records(declared, regions[..i], blank)
    {
      assert regions[..i + 1][..i] == regions[..i];
      var next := ClaimRegion(declared, regions[i], blank);
      if next.None? {
        ghost var k :|
          ClaimSpans(Lookup(declared, k, blank), k, regions[i].recipient, regions[i].spans, blank).Conflict?;
        assert CellOf(regions[..i + 1], k, blank).Conflict?;
        RegionConflictStays(regions, i + 1, k, blank);
        return None;
      }
      declared := next.value;
    }
    assert regions[..|regions|] == regions;
    assert forall key: Key :: CellOf(regions, key, blank) == Lookup(declared, key, blank);
    return Some(declared);
  }

  // ---------------------------------------------------------------- the Rust loop

  method RustRow(h: HitTest, declared: map<Key, Owner>, ghost regions: seq<Region>, row: int, columns: int,
                 verify: bool, before: seq<Run>)
    returns (at: Option<int>, output: seq<Run>)
    requires Records(declared, regions, false)
    ensures at == if verify then RowDispute(h, regions, row, Count(columns), false) else None
    ensures at.None? ==> output == before + RowRuns(h, row, Count(columns))
  {
    output := before;
    var start: Option<int>, owner: Option<Owner> := None, None;
    var column := 0;
    while column <= columns
      invariant 0 <= column <= Count(columns) + 1
      invariant column <= Count(columns) ==> RowState(h, row, column, before, output, start, owner)
      invariant column == Count(columns) + 1 ==> output == before + RowRuns(h, row, Count(columns))
      invariant columns < 0 ==> column == 0
      invariant verify ==>
                  var n := if column <= Count(columns) then column else Count(columns);
                  RowDispute(h, regions, row, n, false) == None
    {
      var actual := if column == columns then None else h(column, row);
      var expected := if column == columns then None else Expected(Lookup(declared, (row, column), false));
      if verify && actual != expected {
        DisputeStays(h, regions, row, column + 1, Count(columns), false);
        return Some(column), output;
      }
      if column < columns {
        if actual == owner && owner.Some? { RunGrows(h, row, column, before, output, start.value, owner.value); }
        if actual != owner { RunTurns(h, row, column, before, output, start, owner); }
      }
      if actual != owner {
        output := output + Pending(row, start, owner, column);
        start, owner := None, None;
        if actual.Some? {
          start, owner := Some(column), actual;
        }
      }
      column := column + 1;
    }
    at := None;
  }

  lemma {:induction false} DisputeStays(h: HitTest, regions: seq<Region>, row: int, n: nat, m: nat, blank: bool)
    requires n <= m && RowDispute(h, regions, row, n, blank).Some?
    ensures RowDispute(h, regions, row, m, blank) == RowDispute(h, regions, row, n, blank)
    decreases m
  {
    if n < m { DisputeStays(h, regions, row, n, m - 1, blank); }
  }

  lemma {:induction false} GridDisputeStays(h: HitTest, regions: seq<Region>, columns: nat, n: nat, m: nat, blank: bool)
    requires n <= m && Dispute(h, regions, columns, n, blank).Some?
    ensures Dispute(h, regions, columns, m, blank) == Dispute(h, regions, columns, n, blank)
    decreases m
  {
    if n < m { GridDisputeStays(h, regions, columns, n, m - 1, blank); }
  }

  // checked_mul: out of range counts as the largest i64.
  function RustCells(columns: int, rows: int): int {
    if -I64 <= columns * rows < I64 then columns * rows else I64 - 1
  }

  /** exact_grid */
  method RustExactGrid(regions: seq<Region>, hitTest: Option<HitTest>, columns: int, rows: int, verify: bool)
    returns (r: Result)
    ensures r == ExactGrid(regions, hitTest, RustCells(columns, rows), columns, rows, verify, false)
  {
    if hitTest.None? {
      return Err(NoHitTest);
    }
    var h := hitTest.value;
    if RustCells(columns, rows) > LIMIT {
      return Err(TooLarge);
    }
    var declared := Declare(regions, false);
    if declared.None? {
      return Err(Overlap);
    }
    var output := [];
    var row := 0;
    while row < rows
      invariant 0 <= row <= Count(rows) && output == Grid(h, Count(columns), row)
      invariant verify ==> Dispute(h, regions, Count(columns), row, false) == None
    {
      var at, next := RustRow(h, declared.value, regions, row, columns, verify, output);
      if at.Some? {
        GridDisputeStays(h, regions, Count(columns), row + 1, Count(rows), false);
        return Err(Disagrees(at.value, row));
      }
      output := next;
      row := row + 1;
    }
    return Ok(output);
  }

  // ---------------------------------------------------------------- the Go loop

  // Go's hit test answers with a recipient, "" for none.
  type GoHitTest = (int, int) -> string

  function AsOwner(id: string): Option<Owner> { if id == "" then None else Some(id) }

  function AsHitTest(h: GoHitTest): HitTest { (column, row) => AsOwner(h(column, row)) }

  function AsStart(start: int): Option<int> { if start < 0 then None else Some(start) }

  // The flush closure.
  method Flush(output: seq<Run>, row: int, start: int, owner: string, end: int)
    returns (output': seq<Run>, start': int, owner': string)
    requires start >= 0 <==> owner != ""
    ensures output' == output + Pending(row, AsStart(start), AsOwner(owner), end) && start' == -1 && owner' == ""
  {
    output', start', owner' := output, -1, "";
    if start >= 0 {
      output' := output + [Run(row, start, end, owner)];
    }
  }

  method GoRow(h: GoHitTest, declared: map<Key, Owner>, ghost regions: seq<Region>, row: int, columns: int,
               verify: bool, before: seq<Run>)
    returns (at: Option<int>, output: seq<Run>)
    requires Records(declared, regions, true)
    ensures at == if verify then RowDispute(AsHitTest(h), regions, row, Count(columns), true) else None
    ensures at.None? ==> output == before + RowRuns(AsHitTest(h), row, Count(columns))
  {
    ghost var hit := AsHitTest(h);
    output := before;
    var start, owner := -1, "";
    var column := 0;
    while column < columns
      invariant 0 <= column <= Count(columns)
      invariant RowState(hit, row, column, before, output, AsStart(start), AsOwner(owner))
      invariant verify ==> RowDispute(hit, regions, row, column, true) == None
    {
      var actual := h(column, row);
      assert hit(column, row) == AsOwner(actual);
      var expected := if (row, column) in declared then declared[(row, column)] else "";
      assert AsOwner(expected) == Expected(CellOf(regions, (row, column), true)) by {
        assert Lookup(declared, (row, column), true) == CellOf(regions, (row, column), true);
      }
      if verify && actual != expected {
        DisputeStays(hit, regions, row, column + 1, Count(columns), true);
        return Some(column), output;
      }
      if actual == owner && owner != "" { RunGrows(hit, row, column, before, output, start, owner); }
      if actual != owner { RunTurns(hit, row, column, before, output, AsStart(start), AsOwner(owner)); }
      if actual == "" {
        output, start, owner := Flush(output, row, start, owner, column);
      } else if start < 0 {
        start, owner := column, actual;
      } else if owner != actual {
        output, start, owner := Flush(output, row, start, owner, column);
        start, owner := column, actual;
      }
      column := column + 1;
    }
    output, start, owner := Flush(output, row, start, owner, columns);
    at := None;
  }

  // A 64-bit product wraps round.
  function GoCells(columns: int, rows: int): int {
    (columns * rows + I64) % (2 * I64) - I64
  }

  function AsHitTestOption(h: Option<GoHitTest>): Option<HitTest> {
    if h.None? then None else Some(AsHitTest(h.value))
  }

  /** exactGrid */
  method GoExactGrid(regions: seq<Region>, hitTest: Option<GoHitTest>, columns: int, rows: int, verify: bool)
    returns (r: Result)
    ensures r == ExactGrid(regions, AsHitTestOption(hitTest), GoCells(columns, rows), columns, rows, verify, true)
  {
    if hitTest.None? {
      return Err(NoHitTest);
    }
    var h := hitTest.value;
    ghost var hit := AsHitTest(h);
    if GoCells(columns, rows) > LIMIT {
      return Err(TooLarge);
    }
    var declared := Declare(regions, true);
    if declared.None? {
      return Err(Overlap);
    }
    var output := [];
    var row := 0;
    while row < rows
      invariant 0 <= row <= Count(rows) && output == Grid(hit, Count(columns), row)
      invariant verify ==> Dispute(hit, regions, Count(columns), row, true) == None
    {
      var at, next := GoRow(h, declared.value, regions, row, columns, verify, output);
      if at.Some? {
        GridDisputeStays(hit, regions, Count(columns), row + 1, Count(rows), true);
        return Err(Disagrees(at.value, row));
      }
      output := next;
      row := row + 1;
    }
    return Ok(output);
  }

  // ---------------------------------------------------------------- the validator's run check

  // Each region a non-empty row run that starts no earlier than the one before it ends.
  ghost predicate Follows(last: Run, next: Run) {
    !(next.row < last.row || (next.row == last.row && next.from < last.to))
  }

  ghost predicate RowMajorAt(runs: seq<Run>, i: nat)
    requires i < |runs|
  {
    runs[i].to - runs[i].from > 0 && (i > 0 ==> Follows(runs[i - 1], runs[i]))
  }

  ghost predicate RowMajor(runs: seq<Run>) {
    forall i: nat | i < |runs| :: RowMajorAt(runs, i)
  }

  /** The hit-grid part of validate_snapshot: adjacent regions only are compared. */
  method CheckRuns(runs: seq<Run>) returns (ok: bool)
    ensures ok <==> RowMajor(runs)
  {
    var previous: Option<Run> := None;
    for i := 0 to |runs|
      invariant forall k: nat | k < i :: RowMajorAt(runs, k)
      invariant previous == if i == 0 then None else Some(runs[i - 1])
    {
      var run := runs[i];
      if run.to - run.from <= 0 {
        assert !RowMajorAt(runs, i);
        return false;
      }
      if previous.Some?
         && (run.row < previous.value.row || (run.row == previous.value.row && run.from < previous.value.to)) {
        assert !RowMajorAt(runs, i);
        return false;
      }
      previous := Some(run);
    }
    return true;
  }
}
