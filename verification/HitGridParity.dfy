/** When the Go and the Rust hit grid return the same. They part where a product overflows and where a region
    has an empty recipient. */
module HitGridParity {
  import opened Options
  import opened HitGrid
  import opened HitGridLoops
  import opened HitGridTheorems

  // ---------------------------------------------------------------- cells as Go and as Rust see them

  // Go forgets empty claims up to the first other one.
  predicate Related(go: Cell, rust: Cell) {
    || (go == rust && go != Owned(""))
    || (go == Free && rust == Owned(""))
    || (go.Owned? && go.id != "" && rust == Conflict)
  }

  lemma {:induction false} CellsRelated(regions: seq<Region>, key: Key)
    ensures Related(CellOf(regions, key, true), CellOf(regions, key, false))
  {
    if regions != [] {
      var front, last := regions[..|regions| - 1], regions[|regions| - 1];
      CellsRelated(front, key);
      SpansClaim(CellOf(front, key, true), key, last.recipient, last.spans, true);
      SpansClaim(CellOf(front, key, false), key, last.recipient, last.spans, false);
    }
  }

  /** A cell that Go finds disputed: a region with a non-empty recipient declares it, and a later one with another. */
  ghost predicate GoClash(regions: seq<Region>, key: Key) {
    exists i, j | 0 <= i < j < |regions| ::
      && Declares(regions, i, key) && Declares(regions, j, key)
      && regions[i].recipient != "" && regions[j].recipient != regions[i].recipient
  }

  // What Go's cell says of the regions that declare it.
  ghost predicate GoMeans(regions: seq<Region>, key: Key, cell: Cell) {
    match cell
    case Free => forall i: nat | i < |regions| && Declares(regions, i, key) :: regions[i].recipient == ""
    case Owned(id) =>
      && id != ""
      && (exists i: nat | i < |regions| && Declares(regions, i, key) :: regions[i].recipient == id)
      && (forall i: nat | i < |regions| && Declares(regions, i, key) :: regions[i].recipient in {"", id})
      && !GoClash(regions, key)
    case Conflict => GoClash(regions, key)
  }

  lemma ClashGrows(front: seq<Region>, last: Region, key: Key)
    ensures GoClash(front, key) ==> GoClash(front + [last], key)
    ensures GoClash(front + [last], key) ==>
              GoClash(front, key) ||
              (Declares(front + [last], |front|, key) &&
               exists i: nat | i < |front| && Declares(front, i, key) ::
                 front[i].recipient != "" && last.recipient != front[i].recipient)
  {
    var regions := front + [last];
    assert forall i: nat | i < |front| :: Declares(front, i, key) == Declares(regions, i, key);
  }

  lemma GoStep(front: seq<Region>, last: Region, key: Key, cell: Cell)
    requires GoMeans(front, key, cell) && Declares(front + [last], |front|, key)
    ensures GoMeans(front + [last], key, Claim(cell, last.recipient, true))
  {
    var regions, n := front + [last], |front|;
    assert forall i: nat | i < n :: Declares(front, i, key) == Declares(regions, i, key) && front[i] == regions[i];
    ClashGrows(front, last, key);
    assert regions[n] == last;
    if cell.Owned? && last.recipient != cell.id {
      var i: nat :| i < n && Declares(front, i, key) && front[i].recipient == cell.id;
      assert Declares(regions, i, key);
    }
  }

  lemma GoIdle(front: seq<Region>, last: Region, key: Key, cell: Cell)
    requires GoMeans(front, key, cell) && !Declares(front + [last], |front|, key)
    ensures GoMeans(front + [last], key, cell)
  {
    var regions, n := front + [last], |front|;
    assert forall i: nat | i < n :: Declares(front, i, key) == Declares(regions, i, key) && front[i] == regions[i];
    ClashGrows(front, last, key);
  }

  /** Go's reading of the declarations, without the map. */
  lemma {:induction false} GoCellMeans(regions: seq<Region>, key: Key)
    ensures GoMeans(regions, key, CellOf(regions, key, true))
    ensures CellOf(regions, key, true).Conflict? <==> GoClash(regions, key)
  {
    if regions != [] {
      var n := |regions| - 1;
      var front, last := regions[..n], regions[n];
      assert regions == front + [last];
      GoCellMeans(front, key);
      var cell := CellOf(front, key, true);
      SpansClaim(cell, key, last.recipient, last.spans, true);
      if Declares(regions, n, key) {
        GoStep(front, last, key, cell);
      } else {
        GoIdle(front, last, key, cell);
      }
    }
  }

  // ---------------------------------------------------------------- the first disputed cell

  predicate Before(a: Key, b: Key) { a.0 < b.0 || (a.0 == b.0 && a.1 < b.1) }

  predicate InView(key: Key, columns: nat, rows: nat) { 0 <= key.0 < rows && 0 <= key.1 < columns }

  predicate Disputed(h: HitTest, regions: seq<Region>, key: Key, blank: bool) {
    h(key.1, key.0) != Expected(CellOf(regions, key, blank))
  }

  // `at` is the first cell of the view that is disputed, if any is.
  ghost predicate IsFirst(h: HitTest, regions: seq<Region>, columns: nat, rows: nat, blank: bool, at: Option<Key>) {
    match at
    case None => forall key | InView(key, columns, rows) :: !Disputed(h, regions, key, blank)
    case Some(first) =>
      && InView(first, columns, rows) && Disputed(h, regions, first, blank)
      && forall key | InView(key, columns, rows) && Before(key, first) :: !Disputed(h, regions, key, blank)
  }

  lemma {:induction false} RowFirst(h: HitTest, regions: seq<Region>, row: int, n: nat, blank: bool)
    ensures var at := RowDispute(h, regions, row, n, blank);
      match at
      case None => forall column | 0 <= column < n :: !Disputed(h, regions, (row, column), blank)
      case Some(first) =>
        && 0 <= first < n && Disputed(h, regions, (row, first), blank)
        && forall column | 0 <= column < first :: !Disputed(h, regions, (row, column), blank)
  {
    if n > 0 { RowFirst(h, regions, row, n - 1, blank); }
  }

  lemma {:induction false} DisputeIsFirst(h: HitTest, regions: seq<Region>, columns: nat, rows: nat, blank: bool)
    ensures IsFirst(h, regions, columns, rows, blank, Dispute(h, regions, columns, rows, blank))
  {
    if rows > 0 {
      DisputeIsFirst(h, regions, columns, rows - 1, blank);
      RowFirst(h, regions, rows - 1, columns, blank);
      var above, at := Dispute(h, regions, columns, rows - 1, blank), Dispute(h, regions, columns, rows, blank);
      forall key | InView(key, columns, rows) && (at.Some? ==> Before(key, at.value))
        ensures !Disputed(h, regions, key, blank)
      {
        if key.0 < rows - 1 {
          assert InView(key, columns, rows - 1);
        } else {
          assert key == (rows - 1, key.1);
        }
      }
    }
  }

  // ---------------------------------------------------------------- the condition

  /** Declared, and only by regions with an empty recipient. */
  ghost predicate BlankOwned(regions: seq<Region>, key: Key) {
    && (exists i: nat | i < |regions| :: Declares(regions, i, key))
    && forall i: nat | i < |regions| && Declares(regions, i, key) :: regions[i].recipient == ""
  }

  /** Every cell of the view that only empty recipients own and the hit test leaves free comes behind a cell that
      Go finds disputed too. */
  ghost predicate BlanksComeLater(h: HitTest, regions: seq<Region>, columns: nat, rows: nat) {
    forall key | InView(key, columns, rows) && BlankOwned(regions, key) && h(key.1, key.0) == None ::
      exists earlier :: InView(earlier, columns, rows) && Before(earlier, key) && Disputed(h, regions, earlier, true)
  }

  ghost predicate NeverBlank(h: HitTest) { forall column, row :: h(column, row) != Some("") }

  // Without overlaps, the two sides part exactly at cells that only empty recipients own.
  lemma CellsPart(regions: seq<Region>, key: Key)
    requires Agree(regions, key)
    ensures var go, rust := CellOf(regions, key, true), CellOf(regions, key, false);
      if BlankOwned(regions, key) then go == Free && rust == Owned("") else go == rust
  {
    CellsRelated(regions, key);
    CellMeansDeclared(regions, key);
    GoCellMeans(regions, key);
  }

  lemma DisputesAgree(h: HitTest, regions: seq<Region>, columns: nat, rows: nat)
    requires NeverBlank(h) && forall key :: Agree(regions, key)
    ensures Dispute(h, regions, columns, rows, true) == Dispute(h, regions, columns, rows, false) <==>
            BlanksComeLater(h, regions, columns, rows)
  {
    var go, rust := Dispute(h, regions, columns, rows, true), Dispute(h, regions, columns, rows, false);
    DisputeIsFirst(h, regions, columns, rows, true);
    DisputeIsFirst(h, regions, columns, rows, false);
    forall key
      ensures Disputed(h, regions, key, false) <==>
              Disputed(h, regions, key, true) || (BlankOwned(regions, key) && h(key.1, key.0) == None)
    {
      CellsPart(regions, key);
    }
    if go == rust {
      forall key | InView(key, columns, rows) && BlankOwned(regions, key) && h(key.1, key.0) == None
        ensures exists earlier ::
                  InView(earlier, columns, rows) && Before(earlier, key) && Disputed(h, regions, earlier, true)
      {
        assert Disputed(h, regions, key, false);
        CellsPart(regions, key);
        assert Before(go.value, key);
      }
    }
  }

  /** The two loops return the same for every input exactly when there is no hit test, or their sizes are judged
      alike and, if not too large: cells disputed by Rust mean that some cell is disputed by Go, and, where none is
      and declarations are verified, cells of empty recipients come behind a dispute of both. */
  ghost predicate Parity(regions: seq<Region>, hitTest: Option<GoHitTest>, columns: int, rows: int, verify: bool) {
    hitTest.Some? ==>
      && (GoCells(columns, rows) > LIMIT <==> RustCells(columns, rows) > LIMIT)
      && (GoCells(columns, rows) <= LIMIT ==>
            if exists key :: !Agree(regions, key) then exists key :: GoClash(regions, key)
            else verify ==> BlanksComeLater(AsHitTest(hitTest.value), regions, Count(columns), Count(rows)))
  }

  lemma GoAgreesWithRust(regions: seq<Region>, hitTest: Option<GoHitTest>, columns: int, rows: int, verify: bool)
    ensures ExactGrid(regions, AsHitTestOption(hitTest), GoCells(columns, rows), columns, rows, verify, true)
         == ExactGrid(regions, AsHitTestOption(hitTest), RustCells(columns, rows), columns, rows, verify, false)
         <==> Parity(regions, hitTest, columns, rows, verify)
  {
    forall key
      ensures CellOf(regions, key, false).Conflict? <==> !Agree(regions, key)
      ensures CellOf(regions, key, true).Conflict? <==> GoClash(regions, key)
      ensures GoClash(regions, key) ==> !Agree(regions, key)
    {
      CellMeansDeclared(regions, key);
      GoCellMeans(regions, key);
    }
    if hitTest.Some? && !Overlaps(regions, false) {
      var h := AsHitTest(hitTest.value);
      forall key ensures Agree(regions, key) { assert !CellOf(regions, key, false).Conflict?; }
      assert NeverBlank(h);
      DisputesAgree(h, regions, Count(columns), Count(rows));
    }
  }

  /** Named recipients and a product that fits 64 bits are enough. */
  lemma NamedRecipientsAgree(regions: seq<Region>, hitTest: Option<GoHitTest>, columns: int, rows: int, verify: bool)
    requires -I64 <= columns * rows < I64 && forall i | 0 <= i < |regions| :: regions[i].recipient != ""
    ensures Parity(regions, hitTest, columns, rows, verify)
  {
    assert RustCells(columns, rows) == GoCells(columns, rows);
    if key :| !Agree(regions, key) {
      var i, j :| 0 <= i < j < |regions| && Declares(regions, i, key) && Declares(regions, j, key)
                  && regions[i].recipient != regions[j].recipient;
      assert GoClash(regions, key);
    }
  }

  // ---------------------------------------------------------------- where they part

  /** A viewport of 2^32 by 2^32 cells: the product wraps to zero in Go, which goes on, and is too large in Rust. */
  lemma WrappedSizeParts(regions: seq<Region>, h: GoHitTest)
    ensures var n := 0x1_0000_0000;
      && GoCells(n, n) == 0 && RustCells(n, n) == I64 - 1
      && ExactGrid(regions, AsHitTestOption(Some(h)), GoCells(n, n), n, n, false, true) != Err(TooLarge)
      && ExactGrid(regions, AsHitTestOption(Some(h)), RustCells(n, n), n, n, false, false) == Err(TooLarge)
  {
  }

  /** With an empty recipient they part: Rust keeps it as an owner, Go takes it for none. */
  lemma EmptyRecipientParts(nothing: GoHitTest)
    requires nothing(0, 0) == ""
    ensures var regions := [Region("", [Span(0, 0, 1)])];
      && ExactGrid(regions, AsHitTestOption(Some(nothing)), GoCells(1, 1), 1, 1, true, true).Ok?
      && ExactGrid(regions, AsHitTestOption(Some(nothing)), RustCells(1, 1), 1, 1, true, false) == Err(Disagrees(0, 0))
  {
    var region := Region("", [Span(0, 0, 1)]);
    var regions := [region];
    var h := AsHitTest(nothing);
    assert regions[..0] == [] && region.spans[..0] == [];
    forall key: Key, blank
      ensures CellOf(regions, key, blank) == if InSpan(Span(0, 0, 1), key) then Claim(Free, "", blank) else Free
    {
      assert ClaimSpans(Free, key, "", [], blank) == Free;
      assert CellOf([], key, blank) == Free;
    }
    assert CellOf(regions, (0, 0), true) == Free && CellOf(regions, (0, 0), false) == Owned("");
    assert h(0, 0) == None;
    OneCell(h, regions, true);
    OneCell(h, regions, false);
  }

  lemma OneCell(h: HitTest, regions: seq<Region>, blank: bool)
    ensures Dispute(h, regions, 1, 1, blank)
            == if h(0, 0) != Expected(CellOf(regions, (0, 0), blank)) then Some((0, 0)) else None
  {
    assert RowDispute(h, regions, 0, 0, blank) == None;
    assert Dispute(h, regions, 1, 0, blank) == None;
  }
}
