/** How many lines a patched text has, and exactly when that is what the hunks' sizes say. */
module UnifiedDiffLines {
  import opened Options
  import opened Text
  import opened UnifiedDiff
  import opened UnifiedDiffTheorems

  // ---------------------------------------------------------------- counting the lines of joined pieces

  // A piece without its newline.
  predicate Loose(p: string) { p == "" || p[|p| - 1] != '\n' }

  // A newline, if any, comes last.
  ghost predicate LineLike(p: string) {
    forall i | 0 <= i < |p| - 1 :: p[i] != '\n'
  }

  ghost predicate AllLineLike(ps: seq<string>) {
    forall i | 0 <= i < |ps| :: LineLike(ps[i])
  }

  ghost predicate Closed(ps: seq<string>) {
    forall i | 0 <= i < |ps| :: !Loose(ps[i])
  }

  // Only the last piece may lack its newline, and it is not empty.
  ghost predicate Countable(ps: seq<string>) {
    ps != [] ==> Closed(ps[..|ps| - 1]) && ps[|ps| - 1] != ""
  }

  lemma {:induction false} NoNewline(p: string, t: string)
    requires forall i | 0 <= i < |p| :: p[i] != '\n'
    ensures LineEnd(p + t) == |p| + LineEnd(t)
  {
    if p == "" {
      assert p + t == t;
    } else {
      assert (p + t)[1..] == p[1..] + t;
      NoNewline(p[1..], t);
    }
  }

  // Text without a newline in front of more text adds no line.
  lemma PrefixMerges(p: string, t: string)
    requires t != "" && forall i | 0 <= i < |p| :: p[i] != '\n'
    ensures |Lines(p + t)| == |Lines(t)|
  {
    NoNewline(p, t);
    assert (p + t)[LineEnd(p + t)..] == t[LineEnd(t)..];
  }

  lemma LastPiece(p: string)
    requires LineLike(p) && p != ""
    ensures Lines(p) == [p]
  {
    if Loose(p) {
      NoNewline(p, "");
      assert p + "" == p;
    } else {
      LineEndOf(p, "");
      assert p + "" == p;
    }
    assert p[..|p|] == p && p[|p|..] == "";
  }

  lemma FirstPiece(p: string, t: string)
    requires LineLike(p) && !Loose(p)
    ensures Lines(p + t) == [p] + Lines(t)
  {
    LineEndOf(p, t);
    assert (p + t)[..|p|] == p && (p + t)[|p|..] == t;
  }

  /** Joining pieces never makes lines, and loses none exactly when only the last piece may lack its newline. */
  lemma {:induction false} JoinedCount(ps: seq<string>)
    requires AllLineLike(ps)
    ensures |Lines(Join(ps))| <= |ps|
    ensures |Lines(Join(ps))| == |ps| <==> Countable(ps)
  {
    if ps != [] {
      var p, rest := ps[0], ps[1..];
      JoinedCount(rest);
      if rest == [] {
        assert Join(ps) == p + "" == p;
        if p != "" { LastPiece(p); }
      } else if !Loose(p) {
        FirstPiece(p, Join(rest));
        assert ps[..|ps| - 1] == [p] + rest[..|rest| - 1];
        CountableRest(ps);
      } else {
        LooseFirst(p, Join(rest));
        assert ps[..|ps| - 1][0] == p;
        assert p == "" ==> Join(ps) == Join(rest);
      }
    }
  }

  lemma CountableRest(ps: seq<string>)
    requires |ps| > 1 && !Loose(ps[0])
    ensures Countable(ps) <==> Countable(ps[1..])
  {
    var front, back := ps[..|ps| - 1], ps[1..][..|ps| - 2];
    assert front == [ps[0]] + back;
    assert forall i | 0 <= i < |back| :: front[i + 1] == back[i];
    if Closed(front) { forall i | 0 <= i < |back| ensures !Loose(back[i]) { assert !Loose(front[i + 1]); } }
  }

  lemma LooseFirst(p: string, t: string)
    requires LineLike(p) && Loose(p)
    ensures |Lines(p + t)| <= if t == "" then 1 else |Lines(t)|
  {
    if t != "" {
      PrefixMerges(p, t);
    } else if p != "" {
      LastPiece(p);
      assert p + t == p;
    } else {
      assert p + t == "";
    }
  }

  // ---------------------------------------------------------------- where the last source line ends up
  // Source positions run to n, the number of source lines; an edit at `pos` has pos lines before it.

  // The old line at position n - 1 is kept by these edits.
  predicate KeepsLast(edits: seq<Edit>, pos: nat, n: nat) {
    edits != [] &&
    ((edits[0].Keep? && pos + 1 == n) || KeepsLast(edits[1..], Advance(pos, edits[0]), n))
  }

  // Lines added once the whole source is behind.
  function EndAdds(edits: seq<Edit>, pos: nat, n: nat): seq<string> {
    if edits == [] then []
    else
      (if edits[0].Add? && pos == n then [edits[0].line] else []) + EndAdds(edits[1..], Advance(pos, edits[0]), n)
  }

  function AllEndAdds(hunks: seq<Hunk>, n: nat): seq<string> {
    if hunks == [] then [] else EndAdds(hunks[0].edits, hunks[0].start, n) + AllEndAdds(hunks[1..], n)
  }

  // The last source line, not yet consumed at `at`, is in the result.
  predicate LastSurvives(at: nat, hunks: seq<Hunk>, n: nat)
    decreases |hunks|
  {
    at < n &&
    (hunks == [] || hunks[0].start == n
     || (if End(hunks[0]) == n then KeepsLast(hunks[0].edits, hunks[0].start, n)
         else LastSurvives(End(hunks[0]), hunks[1..], n)))
  }

  ghost predicate AddsClosed(edits: seq<Edit>) {
    forall i | 0 <= i < |edits| && edits[i].Add? :: !Loose(edits[i].line)
  }

  ghost predicate AllAddsClosed(hunks: seq<Hunk>) {
    forall i | 0 <= i < |hunks| :: AddsClosed(hunks[i].edits)
  }

  // Every source line but the last has its newline.
  ghost predicate SourceLike(source: seq<string>) {
    forall i | 0 <= i < |source| - 1 :: !Loose(source[i])
  }

  function Surviving(source: seq<string>, survives: bool): seq<string>
    requires survives ==> source != []
  {
    if survives then [source[|source| - 1]] else []
  }

  lemma Regroup(a: seq<string>, b: seq<string>, c: seq<string>)
    ensures a + (b + c) == a + b + c
  {
  }

  lemma RegroupFour(a: seq<string>, b: seq<string>, c: seq<string>, d: seq<string>)
    ensures a + b + c + d == a + (b + (c + d))
  {
    Regroup(a + b, c, d);
    Regroup(a, b, c + d);
  }

  lemma RegroupFive(a: seq<string>, b: seq<string>, c: seq<string>, d: seq<string>, e: seq<string>)
    ensures a + (b + (c + d)) + e == (a + b) + (c + (d + e))
  {
    Regroup(a, b, c + d);
    Regroup(a + b, c + d, e);
    Regroup(c, d, e);
  }

  lemma ClosedJoins(a: seq<string>, b: seq<string>)
    requires Closed(a) && Closed(b)
    ensures Closed(a + b)
  {
  }

  // What the edits at `pos` write: lines that surely end in a newline, the last source line if it is kept, and
  // lines added behind it.
  ghost predicate Splits(source: seq<string>, edits: seq<Edit>, pos: nat, early: seq<string>) {
    var n := |source|;
    && (KeepsLast(edits, pos, n) ==> source != [])
    && New(edits) == early + (Surviving(source, KeepsLast(edits, pos, n)) + EndAdds(edits, pos, n))
    && Closed(early) && Closed(EndAdds(edits, pos, n))
    && (pos == n ==> !KeepsLast(edits, pos, n) && early == [])
  }

  lemma SplitDrop(source: seq<string>, edits: seq<Edit>, pos: nat, rest: seq<string>)
    requires edits != [] && edits[0].Drop? && pos < |source| && Splits(source, edits[1..], pos + 1, rest)
    ensures Splits(source, edits, pos, rest)
  {
    assert New(edits) == New(edits[1..]);
    assert EndAdds(edits, pos, |source|) == EndAdds(edits[1..], pos + 1, |source|);
  }

  lemma SplitEndAdd(source: seq<string>, edits: seq<Edit>, pos: nat, rest: seq<string>)
    requires edits != [] && edits[0].Add? && pos == |source| && Splits(source, edits[1..], pos, rest)
    requires !Loose(edits[0].line)
    ensures Splits(source, edits, pos, rest)
  {
    var adds := EndAdds(edits[1..], pos, |source|);
    assert New(edits[1..]) == [] + ([] + adds) == adds;
    assert EndAdds(edits, pos, |source|) == [edits[0].line] + adds;
    assert New(edits) == [] + ([] + ([edits[0].line] + adds));
  }

  lemma SplitEarly(source: seq<string>, edits: seq<Edit>, pos: nat, rest: seq<string>)
    requires edits != [] && !edits[0].Drop? && !Loose(edits[0].line) && pos < |source|
    requires edits[0].Keep? ==> pos + 1 < |source|
    requires Splits(source, edits[1..], Advance(pos, edits[0]), rest)
    ensures Splits(source, edits, pos, [edits[0].line] + rest)
  {
    var n, next, first := |source|, Advance(pos, edits[0]), [edits[0].line];
    var tail := Surviving(source, KeepsLast(edits[1..], next, n)) + EndAdds(edits[1..], next, n);
    assert EndAdds(edits, pos, n) == EndAdds(edits[1..], next, n);
    assert New(edits) == first + New(edits[1..]);
    Regroup(first, rest, tail);
    ClosedJoins(first, rest);
  }

  lemma SplitKeepLast(source: seq<string>, edits: seq<Edit>, pos: nat, rest: seq<string>)
    requires edits != [] && edits[0].Keep? && pos + 1 == |source| && source[pos] == edits[0].line
    requires Splits(source, edits[1..], pos + 1, rest)
    ensures Splits(source, edits, pos, rest)
  {
    var adds := EndAdds(edits[1..], pos + 1, |source|);
    assert New(edits[1..]) == [] + ([] + adds) == adds;
    assert EndAdds(edits, pos, |source|) == adds;
    assert New(edits) == [] + ([source[pos]] + adds);
  }

  lemma {:induction false} EditsSplit(source: seq<string>, edits: seq<Edit>, pos: nat) returns (early: seq<string>)
    requires SourceLike(source) && AddsClosed(edits)
    requires pos + |Old(edits)| <= |source| && source[pos..pos + |Old(edits)|] == Old(edits)
    ensures Splits(source, edits, pos, early)
    decreases |edits|
  {
    early := [];
    if edits != [] {
      var n, e, more := |source|, edits[0], edits[1..];
      OldAdvances(source, pos, edits);
      assert AddsClosed(more) by {
        forall i | 0 <= i < |more| && more[i].Add? ensures !Loose(more[i].line) { assert more[i] == edits[i + 1]; }
      }
      early := EditsSplit(source, more, Advance(pos, e));
      if e.Drop? {
        SplitDrop(source, edits, pos, early);
      } else if e.Add? && pos == n {
        SplitEndAdd(source, edits, pos, early);
      } else if e.Keep? && pos + 1 == n {
        SplitKeepLast(source, edits, pos, early);
      } else {
        if e.Keep? { assert !Loose(source[pos]); }
        SplitEarly(source, edits, pos, early);
        early := [e.line] + early;
      }
    }
  }

  // Edits that stop before the end of the source neither keep its last line nor add behind it.
  lemma {:induction false} EditsStopEarly(edits: seq<Edit>, pos: nat, n: nat)
    requires pos + |Old(edits)| < n
    ensures !KeepsLast(edits, pos, n) && EndAdds(edits, pos, n) == []
    decreases |edits|
  {
    if edits != [] { EditsStopEarly(edits[1..], Advance(pos, edits[0]), n); }
  }

  // ---------------------------------------------------------------- the whole result

  ghost predicate SplitsAll(source: seq<string>, at: nat, hunks: seq<Hunk>, early: seq<string>)
    requires at <= |source| && Fits(source, at, hunks)
  {
    var n := |source|;
    && Replaced(source, at, hunks) == early + (Surviving(source, LastSurvives(at, hunks, n)) + AllEndAdds(hunks, n))
    && Closed(early) && Closed(AllEndAdds(hunks, n))
    && (at == n ==> early == [])
  }

  // Lines copied up to `start` are closed, but for the last source line.
  lemma CopySplit(source: seq<string>, at: nat, start: nat) returns (early: seq<string>)
    requires SourceLike(source) && at <= start <= |source|
    ensures Closed(early)
    ensures source[at..start] == early + Surviving(source, at < start == |source|)
    ensures at == |source| ==> early == []
  {
    if at < start == |source| {
      early := source[at..start - 1];
      assert source[at..start] == early + [source[start - 1]];
    } else {
      early := source[at..start];
    }
  }

  lemma {:induction false} ResultSplit(source: seq<string>, at: nat, hunks: seq<Hunk>) returns (early: seq<string>)
    requires at <= |source| && SourceLike(source) && Fits(source, at, hunks) && AllAddsClosed(hunks)
    ensures SplitsAll(source, at, hunks, early)
    decreases |hunks|
  {
    var n := |source|;
    if hunks == [] {
      early := CopySplit(source, at, n);
      assert source[at..n] == source[at..];
      assert Surviving(source, at < n) + [] == Surviving(source, at < n);
    } else {
      var h, rest := hunks[0], hunks[1..];
      assert AllAddsClosed(rest) by {
        forall i | 0 <= i < |rest| ensures AddsClosed(rest[i].edits) { assert rest[i] == hunks[i + 1]; }
      }
      assert AddsClosed(h.edits);
      var copied := CopySplit(source, at, h.start);
      var written := EditsSplit(source, h.edits, h.start);
      var later := ResultSplit(source, End(h), rest);
      if h.start == n {
        early := copied;
        StepAtEnd(source, at, hunks, copied, written, later);
      } else if End(h) == n {
        early := copied + written;
        StepToEnd(source, at, hunks, copied, written, later);
      } else {
        early := copied + written + later;
        StepBefore(source, at, hunks, copied, written, later);
      }
    }
  }

  // The parts a hunk and the hunks behind it contribute.
  ghost predicate Parts(source: seq<string>, at: nat, hunks: seq<Hunk>, copied: seq<string>, written: seq<string>,
                        later: seq<string>)
    requires hunks != [] && at <= |source| && Fits(source, at, hunks)
  {
    && Closed(copied) && source[at..hunks[0].start] == copied + Surviving(source, at < hunks[0].start == |source|)
    && (at == |source| ==> copied == [])
    && Splits(source, hunks[0].edits, hunks[0].start, written)
    && SplitsAll(source, End(hunks[0]), hunks[1..], later)
  }

  lemma StepAtEnd(source: seq<string>, at: nat, hunks: seq<Hunk>, copied: seq<string>, written: seq<string>,
                  later: seq<string>)
    requires hunks != [] && at <= |source| && Fits(source, at, hunks)
    requires Parts(source, at, hunks, copied, written, later)
    requires hunks[0].start == |source|
    ensures SplitsAll(source, at, hunks, copied)
  {
    var n, h, rest := |source|, hunks[0], hunks[1..];
    var adds, more := EndAdds(h.edits, n, n), AllEndAdds(rest, n);
    ClosedJoins(adds, more);
    assert New(h.edits) == adds by { assert [] + ([] + adds) == adds; }
    assert Replaced(source, n, rest) == more by { assert [] + ([] + more) == more; }
    RegroupFour(copied, Surviving(source, at < n), adds, more);
  }

  lemma StepToEnd(source: seq<string>, at: nat, hunks: seq<Hunk>, copied: seq<string>, written: seq<string>,
                  later: seq<string>)
    requires hunks != [] && at <= |source| && Fits(source, at, hunks)
    requires Parts(source, at, hunks, copied, written, later)
    requires hunks[0].start < |source| == End(hunks[0])
    ensures SplitsAll(source, at, hunks, copied + written)
  {
    var n, h, rest := |source|, hunks[0], hunks[1..];
    var kept := Surviving(source, KeepsLast(h.edits, h.start, n));
    var adds, more := EndAdds(h.edits, h.start, n), AllEndAdds(rest, n);
    assert Closed(adds + more) && Closed(copied + written) by {
      ClosedJoins(adds, more);
      ClosedJoins(copied, written);
    }
    assert source[at..h.start] == copied by { assert copied + [] == copied; }
    assert Replaced(source, n, rest) == more by { assert [] + ([] + more) == more; }
    ToEndText(source, at, hunks, copied, written, kept, adds, more);
  }

  lemma ToEndText(source: seq<string>, at: nat, hunks: seq<Hunk>, copied: seq<string>, written: seq<string>,
                  kept: seq<string>, adds: seq<string>, more: seq<string>)
    requires hunks != [] && at <= |source| && Fits(source, at, hunks) && source[at..hunks[0].start] == copied
    requires New(hunks[0].edits) == written + (kept + adds) && Replaced(source, End(hunks[0]), hunks[1..]) == more
    ensures Replaced(source, at, hunks) == (copied + written) + (kept + (adds + more))
  {
    RegroupFive(copied, written, kept, adds, more);
  }

  lemma StepBefore(source: seq<string>, at: nat, hunks: seq<Hunk>, copied: seq<string>, written: seq<string>,
                   later: seq<string>)
    requires hunks != [] && at <= |source| && Fits(source, at, hunks)
    requires Parts(source, at, hunks, copied, written, later)
    requires End(hunks[0]) < |source|
    ensures SplitsAll(source, at, hunks, copied + written + later)
  {
    var n, h, rest := |source|, hunks[0], hunks[1..];
    EditsStopEarly(h.edits, h.start, n);
    var tail := Surviving(source, LastSurvives(End(h), rest, n)) + AllEndAdds(rest, n);
    ClosedJoins(copied, written);
    ClosedJoins(copied + written, later);
    assert source[at..h.start] == copied by { assert copied + [] == copied; }
    assert New(h.edits) == written by { assert written + ([] + []) == written; }
    assert AllEndAdds(hunks, n) == AllEndAdds(rest, n) by { assert [] + AllEndAdds(rest, n) == AllEndAdds(rest, n); }
    Regroup(copied + written, later, tail);
  }

  // With every addition closed, the result counts unless something is added behind a loose last line.
  lemma SplitCounts(early: seq<string>, kept: seq<string>, adds: seq<string>)
    requires Closed(early) && Closed(adds) && |kept| <= 1 && (kept != [] ==> kept[0] != "")
    ensures Countable(early + (kept + adds)) <==> (kept != [] && Loose(kept[0]) ==> adds == [])
    ensures Closed(early + (kept + adds)) <==> !(kept != [] && Loose(kept[0]))
  {
    var all := early + (kept + adds);
    if kept == [] {
      assert kept + adds == adds;
      ClosedJoins(early, adds);
      ClosedCounts(all);
    } else if !Loose(kept[0]) {
      ClosedJoins(kept, adds);
      ClosedJoins(early, kept + adds);
      ClosedCounts(all);
    } else {
      assert all[|early|] == kept[0];
      if adds == [] {
        assert all[..|all| - 1] == early;
      } else {
        assert all[..|all| - 1][|early|] == kept[0];
      }
    }
  }

  lemma ClosedCounts(ps: seq<string>)
    requires Closed(ps)
    ensures Countable(ps)
  {
    if ps != [] { assert !Loose(ps[|ps| - 1]); }
  }

  // ---------------------------------------------------------------- an addition without its newline

  // The very last edit adds a line without its newline.
  ghost predicate LooseEnd(hunks: seq<Hunk>) {
    hunks != [] &&
    var edits := hunks[|hunks| - 1].edits;
    edits != [] && edits[|edits| - 1].Add? && Loose(edits[|edits| - 1].line)
  }

  ghost function LastAdded(hunks: seq<Hunk>): string
    requires LooseEnd(hunks)
  {
    var edits := hunks[|hunks| - 1].edits;
    edits[|edits| - 1].line
  }

  // The hunks without that edit.
  ghost function Trim(hunks: seq<Hunk>): seq<Hunk>
    requires LooseEnd(hunks)
  {
    var h := hunks[|hunks| - 1];
    hunks[..|hunks| - 1] + [h.(edits := h.edits[..|h.edits| - 1])]
  }

  lemma {:induction false} SidesTrim(edits: seq<Edit>, line: string)
    ensures Old(edits + [Add(line)]) == Old(edits) && New(edits + [Add(line)]) == New(edits) + [line]
  {
    if edits != [] {
      assert (edits + [Add(line)])[1..] == edits[1..] + [Add(line)];
      SidesTrim(edits[1..], line);
    }
  }

  lemma {:induction false} EditsTrim(edits: seq<Edit>, line: string, pos: nat, n: nat)
    ensures var more := edits + [Add(line)];
      && KeepsLast(more, pos, n) == KeepsLast(edits, pos, n)
      && EndAdds(more, pos, n) == EndAdds(edits, pos, n) + if pos + |Old(edits)| == n then [line] else []
    decreases |edits|
  {
    var more := edits + [Add(line)];
    if edits == [] {
      assert more[1..] == [];
    } else {
      assert more[1..] == edits[1..] + [Add(line)];
      EditsTrim(edits[1..], line, Advance(pos, edits[0]), n);
      var first := if edits[0].Add? && pos == n then [edits[0].line] else [];
      Regroup(first, EndAdds(edits[1..], Advance(pos, edits[0]), n), if pos + |Old(edits)| == n then [line] else []);
    }
  }

  // What the last addition brings.
  ghost predicate Trims(source: seq<string>, at: nat, hunks: seq<Hunk>, front: seq<string>)
    requires at <= |source| && Fits(source, at, hunks) && LooseEnd(hunks)
  {
    var n, less, end := |source|, Trim(hunks), End(hunks[|hunks| - 1]);
    && Fits(source, at, less) && end <= n
    && Replaced(source, at, less) == front + source[end..]
    && Replaced(source, at, hunks) == front + [LastAdded(hunks)] + source[end..]
    && LastSurvives(at, less, n) == LastSurvives(at, hunks, n)
    && (end == n ==> AllEndAdds(hunks, n) == AllEndAdds(less, n) + [LastAdded(hunks)])
  }

  lemma TrimOne(source: seq<string>, at: nat, hunk: Hunk) returns (front: seq<string>)
    requires at <= |source| && Fits(source, at, [hunk]) && LooseEnd([hunk])
    ensures Trims(source, at, [hunk], front)
  {
    var n, line := |source|, LastAdded([hunk]);
    var edits := hunk.edits[..|hunk.edits| - 1];
    assert hunk.edits == edits + [Add(line)];
    SidesTrim(edits, line);
    EditsTrim(edits, line, hunk.start, n);
    var less := hunk.(edits := edits);
    assert Trim([hunk]) == [less];
    front := source[at..hunk.start] + New(edits);
    assert Replaced(source, End(hunk), [hunk][1..]) == source[End(hunk)..];
    Regroup(source[at..hunk.start], New(edits), [line]);
    assert AllEndAdds([hunk], n) == EndAdds(hunk.edits, hunk.start, n) + [];
    assert AllEndAdds([less], n) == EndAdds(edits, hunk.start, n) + [];
  }

  lemma TrimMore(source: seq<string>, at: nat, hunks: seq<Hunk>, later: seq<string>)
    requires |hunks| > 1 && at <= |source| && Fits(source, at, hunks) && LooseEnd(hunks)
    requires Trims(source, End(hunks[0]), hunks[1..], later)
    ensures Trims(source, at, hunks, source[at..hunks[0].start] + New(hunks[0].edits) + later)
  {
    var n, h, rest, end := |source|, hunks[0], hunks[1..], End(hunks[|hunks| - 1]);
    var less, text := Trim(hunks), source[at..h.start] + New(h.edits);
    assert less[0] == h && less[1..] == Trim(rest);
    Regroup(text, later, source[end..]);
    Regroup(text, later + [LastAdded(hunks)], source[end..]);
    Regroup(text, later, [LastAdded(hunks)]);
    if end == n {
      Regroup(EndAdds(h.edits, h.start, n), AllEndAdds(Trim(rest), n), [LastAdded(hunks)]);
    }
  }

  lemma {:induction false} TrimAll(source: seq<string>, at: nat, hunks: seq<Hunk>) returns (front: seq<string>)
    requires at <= |source| && Fits(source, at, hunks) && LooseEnd(hunks)
    ensures Trims(source, at, hunks, front)
    decreases |hunks|
  {
    if |hunks| == 1 {
      assert hunks == [hunks[0]];
      front := TrimOne(source, at, hunks[0]);
    } else {
      var later := TrimAll(source, End(hunks[0]), hunks[1..]);
      TrimMore(source, at, hunks, later);
      front := source[at..hunks[0].start] + New(hunks[0].edits) + later;
    }
  }

  lemma LooseCounts(front: seq<string>, line: string, rest: seq<string>)
    requires Loose(line)
    ensures Countable(front + [line] + rest) <==> rest == [] && Closed(front) && line != ""
  {
    var all := front + [line] + rest;
    if rest == [] {
      assert all == front + [line] && all[..|all| - 1] == front;
    } else {
      assert all[..|all| - 1][|front|] == line;
    }
  }

  // ---------------------------------------------------------------- the condition

  /** No line is glued to another: nothing is added behind a last source line without a newline, and an added
      line without a newline is not empty and nothing of the source comes behind it. */
  ghost predicate NothingRunsTogether(source: seq<string>, hunks: seq<Hunk>) {
    var n := |source|;
    && (LastSurvives(0, hunks, n) && Loose(source[n - 1]) ==> AllEndAdds(hunks, n) == [])
    && (LooseEnd(hunks) ==> End(hunks[|hunks| - 1]) == n && LastAdded(hunks) != "")
  }

  lemma ResultCounts(source: seq<string>, hunks: seq<Hunk>)
    requires Fits(source, 0, hunks) && SourceLike(source) && "" !in source
    requires AllAddsClosed(if LooseEnd(hunks) then Trim(hunks) else hunks)
    ensures Countable(Replaced(source, 0, hunks)) <==> NothingRunsTogether(source, hunks)
  {
    var n := |source|;
    if LooseEnd(hunks) {
      var front := TrimAll(source, 0, hunks);
      var less, end := Trim(hunks), End(hunks[|hunks| - 1]);
      LooseCounts(front, LastAdded(hunks), source[end..]);
      if end == n {
        var early := ResultSplit(source, 0, less);
        SplitCounts(early, Surviving(source, LastSurvives(0, less, n)), AllEndAdds(less, n));
        assert front + source[end..] == front;
      }
    } else {
      var early := ResultSplit(source, 0, hunks);
      SplitCounts(early, Surviving(source, LastSurvives(0, hunks, n)), AllEndAdds(hunks, n));
    }
  }

  // ---------------------------------------------------------------- lines and edits of real texts

  // What Lines makes of a text: no newline inside a line, none missing but at the end, no empty line.
  ghost predicate TextLines(lines: seq<string>) {
    && SourceLike(lines) && AllLineLike(lines)
    && forall i | 0 <= i < |lines| :: lines[i] != ""
  }

  lemma {:induction false} LineEndIsNewline(s: string)
    requires s != ""
    ensures LineLike(s[..LineEnd(s)])
    ensures LineEnd(s) < |s| ==> s[LineEnd(s) - 1] == '\n'
    ensures LineEnd(s) == |s| && s[|s| - 1] == '\n' ==> !Loose(s[..LineEnd(s)])
  {
    if s[0] != '\n' && |s| > 1 {
      LineEndIsNewline(s[1..]);
      var p, q := s[..LineEnd(s)], s[1..][..LineEnd(s[1..])];
      assert p == [s[0]] + q;
      forall i | 0 <= i < |p| - 1 ensures p[i] != '\n' {
        if i > 0 { assert p[i] == q[i - 1]; }
      }
    }
  }

  lemma OneMoreLine(first: string, rest: seq<string>)
    requires LineLike(first) && first != "" && TextLines(rest) && (rest != [] ==> !Loose(first))
    ensures TextLines([first] + rest)
    ensures Closed(rest) && !Loose(first) ==> Closed([first] + rest)
  {
    var all := [first] + rest;
    forall i | 0 <= i < |all| ensures LineLike(all[i]) && all[i] != "" && (i < |all| - 1 ==> !Loose(all[i])) {
      if i > 0 { assert all[i] == rest[i - 1]; }
    }
  }

  lemma {:induction false} LinesAreTextLines(s: string)
    ensures TextLines(Lines(s))
    ensures s != "" && s[|s| - 1] == '\n' ==> Closed(Lines(s))
  {
    if s != "" {
      LineEndIsNewline(s);
      var first, rest := s[..LineEnd(s)], s[LineEnd(s)..];
      LinesAreTextLines(rest);
      OneMoreLine(first, Lines(rest));
    }
  }

  // An edit is a patch line without its first character.
  ghost predicate EditLine(e: Edit, p: string) {
    p != "" && e.line == p[1..] && (e.Add? ==> p[0] == '+')
  }

  lemma {:induction false} BodyLines(source: seq<string>, at: nat, patch: seq<string>, k: nat)
    requires k <= |patch| && ReadBody(source, at, patch, k).Ok?
    ensures ReadBody(source, at, patch, k).value.1 == k + |ReadBody(source, at, patch, k).value.0|
    ensures var edits := ReadBody(source, at, patch, k).value.0;
      forall i | 0 <= i < |edits| :: EditLine(edits[i], patch[k + i])
    decreases |patch| - k
  {
    if k < |patch| {
      var edit := ReadEdit(source, at, patch[k]);
      if edit.value.Some? {
        var e := edit.value.value;
        BodyLines(source, Advance(at, e), patch, k + 1);
        var more := ReadBody(source, Advance(at, e), patch, k + 1).value.0;
        var edits := ReadBody(source, at, patch, k).value.0;
        assert edits == [e] + more && EditLine(e, patch[k]);
        forall i | 0 <= i < |edits| ensures EditLine(edits[i], patch[k + i]) {
          if i > 0 { assert EditLine(more[i - 1], patch[k + 1 + (i - 1)]); }
        }
      }
    }
  }

  ghost predicate AllLines(hunks: seq<Hunk>) {
    forall i, j | 0 <= i < |hunks| && 0 <= j < |hunks[i].edits| :: LineLike(hunks[i].edits[j].line)
  }

  lemma EditOfLine(e: Edit, p: string)
    requires EditLine(e, p) && LineLike(p)
    ensures LineLike(e.line) && (e.Add? && Loose(e.line) ==> Loose(p))
  {
  }

  // One hunk that was read: its lines are lines, and only an addition from the patch's last line may be loose.
  ghost predicate OnlyLastLoose(hunk: Hunk, end: nat, patch: seq<string>) {
    forall j | 0 <= j < |hunk.edits| :: LineLike(hunk.edits[j].line) &&
      (hunk.edits[j].Add? && Loose(hunk.edits[j].line) ==>
         end == |patch| && j == |hunk.edits| - 1 && patch != [] && Loose(patch[|patch| - 1]))
  }

  lemma BodyLooseness(edits: seq<Edit>, start: nat, patch: seq<string>, k: nat)
    requires TextLines(patch) && k + |edits| <= |patch|
    requires forall i | 0 <= i < |edits| :: EditLine(edits[i], patch[k + i])
    ensures OnlyLastLoose(Hunk(start, edits), k + |edits|, patch)
  {
    forall j | 0 <= j < |edits|
      ensures LineLike(edits[j].line) && (edits[j].Add? && Loose(edits[j].line) ==>
                k + |edits| == |patch| && j == |edits| - 1 && patch != [] && Loose(patch[|patch| - 1]))
    {
      EditOfLine(edits[j], patch[k + j]);
    }
  }

  lemma HunkLines(h: Header, source: seq<string>, at: nat, patch: seq<string>, k: nat)
    requires TextLines(patch) && k <= |patch| && HunkUnder(h, source, at, patch, k).Ok?
    ensures OnlyLastLoose(HunkUnder(h, source, at, patch, k).value.0, HunkUnder(h, source, at, patch, k).value.1, patch)
  {
    BodyLines(source, HunkStart(h), patch, k);
    BodyLooseness(ReadBody(source, HunkStart(h), patch, k).value.0, HunkStart(h), patch, k);
  }

  // Only the very last addition of a patch may be loose.
  ghost predicate Additions(hunks: seq<Hunk>) {
    && AllLines(hunks)
    && AllAddsClosed(if LooseEnd(hunks) then Trim(hunks) else hunks)
  }

  lemma LastHunk(hunk: Hunk)
    requires forall j | 0 <= j < |hunk.edits| :: LineLike(hunk.edits[j].line)
    requires forall j | 0 <= j < |hunk.edits| && hunk.edits[j].Add? && Loose(hunk.edits[j].line) ::
               j == |hunk.edits| - 1
    ensures Additions([hunk])
  {
  }

  lemma MoreHunks(hunk: Hunk, rest: seq<Hunk>)
    requires rest != [] && Additions(rest) && AddsClosed(hunk.edits)
    requires forall j | 0 <= j < |hunk.edits| :: LineLike(hunk.edits[j].line)
    ensures Additions([hunk] + rest)
  {
    var hunks := [hunk] + rest;
    assert AllLines(hunks) by {
      forall i, j | 0 <= i < |hunks| && 0 <= j < |hunks[i].edits| ensures LineLike(hunks[i].edits[j].line) {
        if i > 0 { assert hunks[i] == rest[i - 1]; }
      }
    }
    assert LooseEnd(hunks) == LooseEnd(rest) by { assert hunks[|hunks| - 1] == rest[|rest| - 1]; }
    var before := if LooseEnd(rest) then Trim(rest) else rest;
    assert (if LooseEnd(hunks) then Trim(hunks) else hunks) == [hunk] + before;
    forall i | 0 <= i < |before| + 1 ensures AddsClosed(([hunk] + before)[i].edits) {
      if i > 0 { assert ([hunk] + before)[i] == before[i - 1]; }
    }
  }

  lemma {:induction false} PatchAdditions(source: seq<string>, at: nat, patch: seq<string>, k: nat, saw: bool)
    requires TextLines(patch) && at <= |source| && k <= |patch| && ApplyFrom(source, at, patch, k, saw).Ok?
    ensures Additions(HunksOf(source, at, patch, k, saw))
    ensures LooseEnd(HunksOf(source, at, patch, k, saw)) ==> Loose(patch[|patch| - 1])
    decreases |patch| - k
  {
    if k < |patch| {
      if !StartsWith(TrimEol(patch[k]), "@@ ") {
        PatchAdditions(source, at, patch, k + 1, saw);
      } else {
        HunkLines(ParseHeader(TrimEol(patch[k])).value, source, at, patch, k + 1);
        var (hunk, end) := ReadHunk(source, at, patch, k).value;
        var rest := HunksOf(source, End(hunk), patch, end, true);
        PatchAdditions(source, End(hunk), patch, end, true);
        if rest == [] {
          LastHunk(hunk);
          assert [hunk] + rest == [hunk];
        } else {
          MoreHunks(hunk, rest);
        }
      }
    }
  }

  lemma {:induction false} NewIsLineLike(edits: seq<Edit>)
    requires forall j | 0 <= j < |edits| :: LineLike(edits[j].line)
    ensures AllLineLike(New(edits))
  {
    if edits != [] { NewIsLineLike(edits[1..]); }
  }

  lemma {:induction false} ReplacedIsLineLike(source: seq<string>, at: nat, hunks: seq<Hunk>)
    requires at <= |source| && Fits(source, at, hunks) && AllLineLike(source) && AllLines(hunks)
    ensures AllLineLike(Replaced(source, at, hunks))
    decreases |hunks|
  {
    if hunks != [] {
      assert forall j | 0 <= j < |hunks[0].edits| :: LineLike(hunks[0].edits[j].line);
      NewIsLineLike(hunks[0].edits);
      ReplacedIsLineLike(source, End(hunks[0]), hunks[1..]);
    }
  }

  // ---------------------------------------------------------------- the line count

  // The hunks of an accepted patch.
  ghost function Accepted(source: string, patch: string): seq<Hunk>
    requires Apply(source, patch).Ok?
  {
    HunksOf(Lines(source), 0, Lines(patch), 0, false)
  }

  /** A patched text never has more lines than the source and its hunks say, and exactly that many if and only
      if no line is glued to another. */
  lemma PatchedLineCount(source: string, patch: string)
    requires Apply(source, patch).Ok?
    ensures var lines, said := |Lines(Apply(source, patch).value)|, |Lines(source)| + Growth(Accepted(source, patch));
      && lines <= said
      && (lines == said <==> NothingRunsTogether(Lines(source), Accepted(source, patch)))
  {
    var before, hunks := Lines(source), Accepted(source, patch);
    LinesAreTextLines(source);
    LinesAreTextLines(patch);
    OkIsReplacement(before, 0, Lines(patch), 0, false);
    PatchAdditions(before, 0, Lines(patch), 0, false);
    ReplacedLength(before, 0, hunks);
    ReplacedIsLineLike(before, 0, hunks);
    JoinedCount(Replaced(before, 0, hunks));
    ResultCounts(before, hunks);
  }

  // An empty text or one that ends in a newline.
  predicate Terminated(s: string) { s == "" || s[|s| - 1] == '\n' }

  /** Texts and patches that end in a newline: the count is the one the hunks say. */
  lemma TerminatedLineCount(source: string, patch: string)
    requires Apply(source, patch).Ok? && Terminated(source) && Terminated(patch)
    ensures |Lines(Apply(source, patch).value)| == |Lines(source)| + Growth(Accepted(source, patch))
  {
    PatchedLineCount(source, patch);
    LinesAreTextLines(source);
    LinesAreTextLines(patch);
    PatchAdditions(Lines(source), 0, Lines(patch), 0, false);
  }

  // ---------------------------------------------------------------- a line glued to the next

  lemma {:induction false} LinesOfPieces(ps: seq<string>)
    requires AllLineLike(ps) && Countable(ps)
    ensures Lines(Join(ps)) == ps
  {
    if |ps| == 1 {
      LastPiece(ps[0]);
      assert Join(ps) == ps[0] + "" == ps[0];
      assert ps == [ps[0]];
    } else if |ps| > 1 {
      assert ps[..|ps| - 1][0] == ps[0];
      CountableRest(ps);
      LinesOfPieces(ps[1..]);
      FirstPiece(ps[0], Join(ps[1..]));
    }
  }

  lemma HunksStep(source: seq<string>, at: nat, patch: seq<string>, k: nat, saw: bool, hunk: Hunk, end: nat)
    requires at <= |source| && k < |patch| && StartsWith(TrimEol(patch[k]), "@@ ")
    requires ReadHunk(source, at, patch, k) == Ok((hunk, end)) && ApplyFrom(source, End(hunk), patch, end, true).Ok?
    ensures ApplyFrom(source, at, patch, k, saw).Ok?
    ensures HunksOf(source, at, patch, k, saw) == [hunk] + HunksOf(source, End(hunk), patch, end, true)
  {
  }

  lemma HunkRead(source: seq<string>, at: nat, patch: seq<string>, k: nat, hunk: Hunk, saw: bool)
    requires at <= |source| && k < |patch| && StartsWith(TrimEol(patch[k]), "@@ ")
    requires ReadHunk(source, at, patch, k) == Ok((hunk, |patch|))
    ensures ApplyFrom(source, at, patch, k, saw).Ok? && HunksOf(source, at, patch, k, saw) == [hunk]
  {
    HunksStep(source, at, patch, k, saw, hunk, |patch|);
  }

  // Keep the first line and add one without its newline.
  function GluingHunk(a: string, x: string): Hunk { Hunk(0, [Keep(a), Add(x)]) }

  lemma GluingSides(a: string, x: string)
    ensures Old(GluingHunk(a, x).edits) == [a] && New(GluingHunk(a, x).edits) == [a, x]
    ensures PrintHunks([GluingHunk(a, x)], 0) == [HeaderLine(GluingHunk(a, x), 0), " " + a, "+" + x]
  {
    var edits := GluingHunk(a, x).edits;
    assert edits[1..] == [Add(x)] && edits[1..][1..] == [];
    assert Old(edits[1..]) == [] && New(edits[1..]) == [x] && PrintEdits(edits[1..]) == ["+" + x];
    assert PrintEdits(edits) == [" " + a, "+" + x];
  }

  lemma GluingPatch(a: string, x: string)
    requires LineLike(a) && !Loose(a) && LineLike(x) && Loose(x)
    ensures var patch := PrintHunks([GluingHunk(a, x)], 0); Lines(Join(patch)) == patch
  {
    GluingSides(a, x);
    var header, keep, add := HeaderLine(GluingHunk(a, x), 0), " " + a, "+" + x;
    HeaderIsLine(GluingHunk(a, x), 0);
    assert LineLike(keep) && !Loose(keep) && LineLike(add) && add != "";
    assert [header, keep, add][..2] == [header, keep];
    LinesOfPieces([header, keep, add]);
  }

  lemma GluingLines(a: string, b: string, x: string)
    requires LineLike(a) && !Loose(a) && LineLike(b) && !Loose(b) && LineLike(x) && Loose(x)
    ensures Lines(a + b) == [a, b] && Join([a, x, b]) == a + (x + b) && |Lines(a + (x + b))| == 2
  {
    FirstPiece(a, b);
    LastPiece(b);
    FirstPiece(a, x + b);
    PrefixMerges(x, b);
    assert [a, x, b][1..] == [x, b] && [x, b][1..] == [b] && Join([b]) == b + "" == b;
  }

  lemma GluingFits(a: string, b: string, x: string)
    ensures var hunks := [GluingHunk(a, x)];
      && Fits([a, b], 0, hunks) && Landings(hunks) == hunks && Small(hunks, 0) && Growth(hunks) == 1
      && Replaced([a, b], 0, hunks) == [a, x, b]
  {
    GluingSides(a, x);
    assert [a, b][0..1] == [a] && [a, b][1..] == [b];
  }

  lemma GluingReads(a: string, b: string, x: string, patch: seq<string>)
    requires patch == PrintHunks([GluingHunk(a, x)], 0)
    ensures ApplyFrom([a, b], 0, patch, 0, false) == Ok([a, x, b])
    ensures HunksOf([a, b], 0, patch, 0, false) == [GluingHunk(a, x)]
  {
    GluingFits(a, b, x);
    assert patch[0..] == patch;
    PrintedReads([a, b], 0, [GluingHunk(a, x)], 0, patch, 0);
    ApplyRead([a, b], 0, patch, 0, [GluingHunk(a, x)], false);
    HunkRead([a, b], 0, patch, 0, GluingHunk(a, x), false);
  }

  /** Keeping the first of two lines and adding one without a newline, as the last line of the patch, is accepted
      and glues the addition to the second line: two lines where the hunk says three. */
  lemma GluedLine(a: string, b: string, x: string)
    requires LineLike(a) && !Loose(a) && LineLike(b) && !Loose(b) && LineLike(x) && Loose(x)
    ensures var patch := Join(PrintHunks([GluingHunk(a, x)], 0));
      && Apply(a + b, patch) == Ok(a + (x + b)) && |Lines(a + (x + b))| == 2
      && |Lines(a + b)| + Growth(Accepted(a + b, patch)) == 3
  {
    var patch := PrintHunks([GluingHunk(a, x)], 0);
    GluingPatch(a, x);
    GluingLines(a, b, x);
    GluingFits(a, b, x);
    GluingReads(a, b, x, patch);
  }
}
