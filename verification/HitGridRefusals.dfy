/** When exact_grid refuses, said about the declared regions and the hit test alone. */
module HitGridRefusals {
  import opened Options
  import opened HitGrid
  import opened HitGridLoops
  import opened HitGridTheorems
  import opened HitGridParity

  // A region that declares the cell has this recipient.
  ghost predicate DeclaredTo(regions: seq<Region>, key: Key, o: Owner) {
    exists i: nat | i < |regions| :: Declares(regions, i, key) && regions[i].recipient == o
  }

  // The hit test names somebody else than the regions that declare the cell, or nobody where some region does.
  ghost predicate Wrong(h: HitTest, regions: seq<Region>, row: int, column: int) {
    match h(column, row)
    case None => exists o :: DeclaredTo(regions, (row, column), o)
    case Some(o) => !DeclaredTo(regions, (row, column), o)
  }

  // In rows from the top, each from the left, the first cell where the hit test is wrong.
  ghost predicate FirstWrong(h: HitTest, regions: seq<Region>, columns: int, rows: int, row: int, column: int) {
    && 0 <= row < rows && 0 <= column < columns && Wrong(h, regions, row, column)
    && (forall c | 0 <= c < column :: !Wrong(h, regions, row, c))
    && forall r, c | 0 <= r < row && 0 <= c < columns :: !Wrong(h, regions, r, c)
  }

  lemma WrongIsDisputed(h: HitTest, regions: seq<Region>, row: int, column: int)
    requires Agree(regions, (row, column))
    ensures Wrong(h, regions, row, column) <==> Disputed(h, regions, (row, column), false)
  {
    var key: Key := (row, column);
    CellMeansDeclared(regions, key);
    if i: nat :| i < |regions| && Declares(regions, i, key) {
      assert DeclaredTo(regions, key, regions[i].recipient);
    }
  }

  lemma FirstWrongIsDispute(h: HitTest, regions: seq<Region>, columns: int, rows: int, row: int, column: int)
    requires forall key :: Agree(regions, key)
    ensures FirstWrong(h, regions, columns, rows, row, column) <==>
            Dispute(h, regions, Count(columns), Count(rows), false) == Some((row, column))
  {
    forall r, c ensures Wrong(h, regions, r, c) <==> Disputed(h, regions, (r, c), false) {
      WrongIsDisputed(h, regions, r, c);
    }
    var at := Dispute(h, regions, Count(columns), Count(rows), false);
    DisputeIsFirst(h, regions, Count(columns), Count(rows), false);
    var key: Key := (row, column);
    if FirstWrong(h, regions, columns, rows, row, column) {
      assert InView(key, Count(columns), Count(rows)) && Disputed(h, regions, key, false);
      var first := at.value;
      assert first == (first.0, first.1) && Wrong(h, regions, first.0, first.1);
    } else if at == Some(key) {
      forall c | 0 <= c < column ensures !Wrong(h, regions, row, c) {
        assert InView((row, c), Count(columns), Count(rows)) && Before((row, c), key);
      }
      forall r, c | 0 <= r < row && 0 <= c < columns ensures !Wrong(h, regions, r, c) {
        assert InView((r, c), Count(columns), Count(rows)) && Before((r, c), key);
      }
    }
  }

  /** Each refusal, and when: no hit test; a viewport beyond the limit or beyond 64 bits; two regions that give a
      cell to different recipients; and, if asked to verify, the first cell where the hit test is wrong. */
  lemma RefusedExactly(regions: seq<Region>, hitTest: Option<HitTest>, columns: int, rows: int, verify: bool)
    ensures var r, cells := ExactGrid(regions, hitTest, RustCells(columns, rows), columns, rows, verify, false),
                            columns * rows;
      && (r == Err(NoHitTest) <==> hitTest == None)
      && (r == Err(TooLarge) <==> hitTest.Some? && (cells > LIMIT || cells < -I64))
      && (r == Err(Overlap) <==> hitTest.Some? && -I64 <= cells <= LIMIT && exists key :: !Agree(regions, key))
      && forall column, row ::
           r == Err(Disagrees(column, row)) <==>
             && hitTest.Some? && -I64 <= cells <= LIMIT && (forall key :: Agree(regions, key))
             && verify && FirstWrong(hitTest.value, regions, columns, rows, row, column)
  {
    forall key ensures CellOf(regions, key, false).Conflict? <==> !Agree(regions, key) {
      CellMeansDeclared(regions, key);
    }
    if hitTest.Some? && forall key :: Agree(regions, key) {
      forall column, row
        ensures FirstWrong(hitTest.value, regions, columns, rows, row, column) <==>
                Dispute(hitTest.value, regions, Count(columns), Count(rows), false) == Some((row, column))
      {
        FirstWrongIsDispute(hitTest.value, regions, columns, rows, row, column);
      }
    }
  }
}
