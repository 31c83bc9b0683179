/** Hunks that only insert: a printed one lands a line early. When the patch is then refused, and when the result
    is still the text that was meant. */
module UnifiedDiffInsertions {
  import opened Options
  import opened Text
  import opened UnifiedDiff
  import opened UnifiedDiffTheorems
  import opened UnifiedDiffLines

  // ---------------------------------------------------------------- when a patch is refused

  /** An insertion away from the start comes right behind a hunk with an old side. */
  ghost predicate Blocked(hunks: seq<Hunk>) {
    exists i | 0 < i < |hunks| ::
      !Anchored(hunks[i]) && Old(hunks[i - 1].edits) != [] && hunks[i].start == End(hunks[i - 1])
  }

  // The first hunk can land: `lag` says that the hunk before landed a line early.
  ghost predicate Front(at: nat, lag: bool, hunks: seq<Hunk>) {
    hunks != [] ==> Anchored(hunks[0]) || lag || hunks[0].start > at
  }

  ghost predicate Clear(at: nat, lag: bool, hunks: seq<Hunk>)
    decreases |hunks|
  {
    hunks != [] ==> Front(at, lag, hunks) && Clear(End(hunks[0]), !Anchored(hunks[0]), hunks[1..])
  }

  lemma BlockedHead(hunks: seq<Hunk>)
    requires |hunks| > 1
    ensures var h, next := hunks[0], hunks[1];
      Blocked(hunks) <==> (!Anchored(next) && Old(h.edits) != [] && next.start == End(h)) || Blocked(hunks[1..])
  {
    var rest := hunks[1..];
    if Blocked(hunks) {
      var i :| 0 < i < |hunks| && !Anchored(hunks[i])
               && Old(hunks[i - 1].edits) != [] && hunks[i].start == End(hunks[i - 1]);
      if i > 1 { assert !Anchored(rest[i - 1]) && rest[i - 2] == hunks[i - 1]; }
    }
    if Blocked(rest) {
      var i :| 0 < i < |rest| && !Anchored(rest[i])
               && Old(rest[i - 1].edits) != [] && rest[i].start == End(rest[i - 1]);
      assert !Anchored(hunks[i + 1]) && hunks[i] == rest[i - 1];
    }
  }

  lemma {:induction false} ClearIsUnblocked(source: seq<string>, at: nat, lag: bool, hunks: seq<Hunk>)
    requires Fits(source, at, hunks)
    ensures Clear(at, lag, hunks) <==> Front(at, lag, hunks) && !Blocked(hunks)
    decreases |hunks|
  {
    if hunks != [] {
      ClearIsUnblocked(source, End(hunks[0]), !Anchored(hunks[0]), hunks[1..]);
      if |hunks| > 1 { BlockedHead(hunks); }
    }
  }

  // Where the applier stands when the hunks are to be read at `at`.
  function Stand(at: nat, lag: bool): nat
    requires lag ==> at > 0
  {
    if lag then at - 1 else at
  }

  lemma {:induction false} LandingsFit(source: seq<string>, at: nat, lag: bool, hunks: seq<Hunk>)
    requires at <= |source| && (lag ==> at > 0) && Fits(source, at, hunks) && Clear(at, lag, hunks)
    ensures Fits(source, Stand(at, lag), Landings(hunks))
    decreases |hunks|
  {
    if hunks != [] {
      LandingsFit(source, End(hunks[0]), !Anchored(hunks[0]), hunks[1..]);
      assert Landings(hunks)[1..] == Landings(hunks[1..]);
    }
  }

  lemma OutOfOrderHead(source: seq<string>, at: nat, h: Hunk, shift: int, patch: seq<string>, k: nat, saw: bool)
    requires at <= |source| && k < |patch| && patch[k] == HeaderLine(h, shift) && SmallHunk(h, shift)
    requires Landing(h).start < at
    ensures ApplyFrom(source, at, patch, k, saw) == Err(OutOfOrder)
  {
    HeaderReads(h, shift);
    assert HunkUnder(HeaderOf(h), source, at, patch, k + 1) == Err(OutOfOrder) by {
      assert HunkStart(HeaderOf(h)) == Landing(h).start;
    }
  }

  lemma ErrorBehind(source: seq<string>, at: nat, patch: seq<string>, k: nat, saw: bool, hunk: Hunk, end: nat, e: Error)
    requires at <= |source| && k < |patch| && StartsWith(TrimEol(patch[k]), "@@ ")
    requires ReadHunk(source, at, patch, k) == Ok((hunk, end))
    requires ApplyFrom(source, End(hunk), patch, end, true) == Err(e)
    ensures ApplyFrom(source, at, patch, k, saw) == Err(e)
  {
  }

  lemma {:induction false} BlockedFails(source: seq<string>, at: nat, lag: bool, hunks: seq<Hunk>, shift: int,
                                        patch: seq<string>, k: nat, saw: bool)
    requires at <= |source| && (lag ==> at > 0)
    requires Fits(source, at, hunks) && !Clear(at, lag, hunks) && Small(hunks, shift)
    requires k <= |patch| && patch[k..] == PrintHunks(hunks, shift)
    ensures ApplyFrom(source, Stand(at, lag), patch, k, saw) == Err(OutOfOrder)
    decreases |hunks|
  {
    var h, rest := hunks[0], hunks[1..];
    var shift' := shift + |New(h.edits)| - |Old(h.edits)|;
    var tail := PrintHunks(rest, shift');
    SplitPrinted(h, shift, tail, patch, k);
    if !Front(at, lag, hunks) {
      OutOfOrderHead(source, at, h, shift, patch, k, saw);
    } else {
      PrintedHead(rest, shift');
      PrintedStep(source, Stand(at, lag), h, shift, tail, patch, k);
      var end := |patch| - |tail|;
      BlockedFails(source, End(h), !Anchored(h), rest, shift', patch, end, true);
      assert End(Landing(h)) == Stand(End(h), !Anchored(h));
      ErrorBehind(source, Stand(at, lag), patch, k, saw, Landing(h), end, OutOfOrder);
    }
  }

  // ---------------------------------------------------------------- when a line early makes no difference

  /** Every line an unanchored hunk inserts is equal to the source line before it. */
  ghost predicate SameLines(source: seq<string>, hunks: seq<Hunk>) {
    forall i | 0 <= i < |hunks| && !Anchored(hunks[i]) ::
      hunks[i].start <= |source| && AllSame(New(hunks[i].edits), source[hunks[i].start - 1])
  }

  ghost predicate AllSame(lines: seq<string>, line: string) {
    forall i | 0 <= i < |lines| :: lines[i] == line
  }

  ghost predicate AreLines(lines: seq<string>) {
    forall i | 0 <= i < |lines| :: IsLine(lines[i])
  }

  lemma {:induction false} Rotation(lines: seq<string>, line: string)
    ensures lines + [line] == [line] + lines <==> AllSame(lines, line)
  {
    var a, b := lines + [line], [line] + lines;
    if a == b && lines != [] {
      assert a[0] == b[0];
      assert lines[1..] + [line] == a[1..] && b[1..] == lines == [line] + lines[1..];
      Rotation(lines[1..], line);
      forall i | 0 <= i < |lines| ensures lines[i] == line {
        if i > 0 { assert lines[i] == lines[1..][i - 1]; }
      }
    } else if AllSame(lines, line) {
      forall i | 0 <= i < |a| ensures a[i] == b[i] {}
    }
  }

  lemma {:induction false} LastOfJoin(lines: seq<string>)
    requires AreLines(lines) && lines != []
    ensures Join(lines) != "" && Join(lines)[|Join(lines)| - 1] == '\n'
  {
    if |lines| > 1 {
      LastOfJoin(lines[1..]);
    } else {
      assert Join(lines) == lines[0] + "";
    }
  }

  // Whole lines commute with a line only if they are copies of it.
  lemma Commutes(lines: seq<string>, line: string)
    requires AreLines(lines) && LineLike(line) && line != ""
    ensures Join(lines) + line == line + Join(lines) <==> AllSame(lines, line)
  {
    var left, right := Join(lines) + line, line + Join(lines);
    if lines == [] {
      assert left == right;
    } else if Loose(line) {
      LastOfJoin(lines);
      assert left[|left| - 1] != right[|right| - 1];
      assert IsLine(lines[0]);
    } else {
      ClosedCommutes(lines, line);
    }
  }

  lemma ClosedCommutes(lines: seq<string>, line: string)
    requires AreLines(lines) && IsLine(line)
    ensures Join(lines) + line == line + Join(lines) <==> AllSame(lines, line)
  {
    var left, right := lines + [line], [line] + lines;
    assert Join(left) == Join(lines) + line by {
      JoinAppend(lines, [line]);
      assert Join([line]) == line + "" == line;
    }
    assert Join(right) == line + Join(lines) by { assert right[1..] == lines; }
    LinesOfJoin(left);
    LinesOfJoin(right);
    Rotation(lines, line);
  }

  lemma SameTail(hunks: seq<Hunk>, source: seq<string>)
    requires hunks != []
    ensures SameLines(source, hunks) <==> SameLines(source, [hunks[0]]) && SameLines(source, hunks[1..])
  {
    var rest := hunks[1..];
    assert [hunks[0]][0] == hunks[0];
    if SameLines(source, hunks) {
      forall i | 0 <= i < |rest| && !Anchored(rest[i])
        ensures rest[i].start <= |source| && AllSame(New(rest[i].edits), source[rest[i].start - 1])
      {
        assert rest[i] == hunks[i + 1];
      }
    }
    if SameLines(source, [hunks[0]]) && SameLines(source, rest) {
      forall i | 0 <= i < |hunks| && !Anchored(hunks[i])
        ensures hunks[i].start <= |source| && AllSame(New(hunks[i].edits), source[hunks[i].start - 1])
      {
        if i > 0 { assert hunks[i] == rest[i - 1]; }
      }
    }
  }

  ghost function Meant(source: seq<string>, at: nat, hunks: seq<Hunk>): string
    requires at <= |source| && Fits(source, at, hunks)
  {
    Join(Replaced(source, at, hunks))
  }

  lemma MeantStep(source: seq<string>, at: nat, hunks: seq<Hunk>)
    requires hunks != [] && at <= |source| && Fits(source, at, hunks)
    ensures var h := hunks[0];
      Meant(source, at, hunks) == Join(source[at..h.start]) + (Join(New(h.edits)) + Meant(source, End(h), hunks[1..]))
  {
    var h := hunks[0];
    var copied, text, rest := source[at..h.start], New(h.edits), Replaced(source, End(h), hunks[1..]);
    Regroup(copied, text, rest);
    JoinAppend(copied, text + rest);
    JoinAppend(text, rest);
  }

  lemma CopyLast(source: seq<string>, at: nat, end: nat)
    requires at < end <= |source|
    ensures Join(source[at..end]) == Join(source[at..end - 1]) + source[end - 1]
  {
    assert source[at..end] == source[at..end - 1] + [source[end - 1]];
    JoinAppend(source[at..end - 1], [source[end - 1]]);
    assert Join([source[end - 1]]) == source[end - 1] + "" == source[end - 1];
  }

  // Starting one line earlier copies that line first.
  lemma MeantEarlier(source: seq<string>, at: nat, hunks: seq<Hunk>)
    requires 0 < at <= |source| && Fits(source, at, hunks)
    ensures Fits(source, at - 1, hunks) && Meant(source, at - 1, hunks) == source[at - 1] + Meant(source, at, hunks)
  {
    var line := source[at - 1];
    assert Replaced(source, at - 1, hunks) == [line] + Replaced(source, at, hunks) by {
      if hunks != [] {
        assert source[at - 1..hunks[0].start] == [line] + source[at..hunks[0].start];
        var text, rest := New(hunks[0].edits), Replaced(source, End(hunks[0]), hunks[1..]);
        Regroup([line], source[at..hunks[0].start], text);
        Regroup([line], source[at..hunks[0].start] + text, rest);
      }
    }
    assert ([line] + Replaced(source, at, hunks))[1..] == Replaced(source, at, hunks);
  }

  lemma CancelFront(p: string, a: string, b: string)
    ensures p + a == p + b <==> a == b
  {
    assert (p + a)[|p|..] == a && (p + b)[|p|..] == b;
  }

  lemma CancelBoth(a: string, b: string, c: string, d: string)
    requires |a| == |b|
    ensures a + c == b + d <==> a == b && c == d
  {
    assert (a + c)[..|a|] == a && (a + c)[|a|..] == c;
    assert (b + d)[..|b|] == b && (b + d)[|b|..] == d;
  }

  lemma RegroupText(a: string, b: string, c: string)
    ensures a + (b + c) == a + b + c
  {
  }

  ghost predicate AddsAreLines(hunks: seq<Hunk>) {
    forall i | 0 <= i < |hunks| :: AreLines(New(hunks[i].edits))
  }

  // The landed text from where the applier stands, and the text meant from `at`.
  ghost predicate Agree(source: seq<string>, at: nat, lag: bool, hunks: seq<Hunk>, acc: seq<string>)
    requires at <= |source| && (lag ==> at > 0)
    requires Fits(source, at, hunks) && Fits(source, Stand(at, lag), Landings(hunks))
  {
    var landed, meant := Meant(source, Stand(at, lag), Landings(hunks)), Meant(source, at, hunks);
    var line := if lag then source[at - 1] else "";
    && |landed| == |line| + |meant|
    && (Join(acc) + landed == line + (Join(acc) + meant) <==>
        (lag ==> AllSame(acc, line)) && SameLines(source, hunks))
  }

  lemma AgreeAnchored(source: seq<string>, at: nat, hunks: seq<Hunk>)
    requires hunks != [] && Anchored(hunks[0]) && at <= |source| && Fits(source, at, hunks)
    requires Fits(source, at, Landings(hunks)) && Fits(source, End(hunks[0]), Landings(hunks[1..]))
    requires Agree(source, End(hunks[0]), false, hunks[1..], [])
    ensures Agree(source, at, false, hunks, [])
  {
    var h, rest := hunks[0], hunks[1..];
    assert Landings(hunks)[1..] == Landings(rest);
    MeantStep(source, at, hunks);
    MeantStep(source, at, Landings(hunks));
    var copied, text := Join(source[at..h.start]), Join(New(h.edits));
    var landed, meant := Meant(source, End(h), Landings(rest)), Meant(source, End(h), rest);
    CancelFront(copied, text + landed, text + meant);
    CancelFront(text, landed, meant);
    SameTail(hunks, source);
    assert forall s: string :: "" + s == s;
  }

  lemma AgreeInsertion(source: seq<string>, at: nat, hunks: seq<Hunk>)
    requires hunks != [] && !Anchored(hunks[0]) && at < hunks[0].start && at <= |source| && Fits(source, at, hunks)
    requires Fits(source, at, Landings(hunks)) && Fits(source, hunks[0].start - 1, Landings(hunks[1..]))
    requires Agree(source, hunks[0].start, true, hunks[1..], New(hunks[0].edits))
    ensures Agree(source, at, false, hunks, [])
  {
    var h, rest := hunks[0], hunks[1..];
    assert Landings(hunks)[1..] == Landings(rest);
    MeantStep(source, at, hunks);
    MeantStep(source, at, Landings(hunks));
    CopyLast(source, at, h.start);
    var copied, text, line := Join(source[at..h.start - 1]), Join(New(h.edits)), source[h.start - 1];
    var landed, meant := Meant(source, h.start - 1, Landings(rest)), Meant(source, h.start, rest);
    RegroupText(copied, line, text + meant);
    CancelFront(copied, text + landed, line + (text + meant));
    SameTail(hunks, source);
    assert [hunks[0]][0] == h;
    assert forall s: string :: "" + s == s;
  }

  lemma AgreeSamePlace(source: seq<string>, at: nat, hunks: seq<Hunk>, acc: seq<string>)
    requires hunks != [] && !Anchored(hunks[0]) && 0 < at == hunks[0].start <= |source| && Fits(source, at, hunks)
    requires Fits(source, at - 1, Landings(hunks)) && Fits(source, at - 1, Landings(hunks[1..]))
    requires Agree(source, at, true, hunks[1..], acc + New(hunks[0].edits))
    ensures Agree(source, at, true, hunks, acc)
  {
    var h, rest := hunks[0], hunks[1..];
    assert Landings(hunks)[1..] == Landings(rest);
    MeantStep(source, at, hunks);
    MeantStep(source, at - 1, Landings(hunks));
    assert source[at..at] == [] && source[at - 1..at - 1] == [];
    var text, line := Join(New(h.edits)), source[at - 1];
    var landed, meant := Meant(source, at - 1, Landings(rest)), Meant(source, at, rest);
    assert Meant(source, at, hunks) == text + meant && Meant(source, at - 1, Landings(hunks)) == text + landed;
    JoinAppend(acc, New(h.edits));
    RegroupText(Join(acc), text, landed);
    RegroupText(Join(acc), text, meant);
    SameTail(hunks, source);
    SameJoined(acc, New(h.edits), line);
    assert [hunks[0]][0] == h;
  }

  lemma SameJoined(a: seq<string>, b: seq<string>, line: string)
    ensures AllSame(a + b, line) <==> AllSame(a, line) && AllSame(b, line)
  {
    if AllSame(a + b, line) {
      forall i | 0 <= i < |a| ensures a[i] == line { assert (a + b)[i] == a[i]; }
      forall i | 0 <= i < |b| ensures b[i] == line { assert (a + b)[|a| + i] == b[i]; }
    }
  }

  lemma AgreeBehind(source: seq<string>, at: nat, hunks: seq<Hunk>, acc: seq<string>)
    requires 0 < at <= |source| && TextLines(source) && AreLines(acc) && Fits(source, at, hunks)
    requires Fits(source, at, Landings(hunks)) && Fits(source, at - 1, Landings(hunks))
    requires Agree(source, at, false, hunks, [])
    ensures Agree(source, at, true, hunks, acc)
  {
    MeantEarlier(source, at, Landings(hunks));
    var landed, meant := Meant(source, at, Landings(hunks)), Meant(source, at, hunks);
    var line, text := source[at - 1], Join(acc);
    RegroupText(text, line, landed);
    RegroupText(line, text, meant);
    CancelBoth(text + line, line + text, landed, meant);
    Commutes(acc, line);
    assert "" + landed == landed && "" + meant == meant && "" + ("" + meant) == meant;
  }

  lemma {:induction false} Agrees(source: seq<string>, at: nat, lag: bool, hunks: seq<Hunk>, acc: seq<string>)
    requires at <= |source| && (lag ==> at > 0) && TextLines(source) && Fits(source, at, hunks) && Clear(at, lag, hunks)
    requires AddsAreLines(hunks) && AreLines(acc) && (!lag ==> acc == [])
    ensures Fits(source, Stand(at, lag), Landings(hunks)) && Agree(source, at, lag, hunks, acc)
    decreases |hunks|, lag
  {
    LandingsFit(source, at, lag, hunks);
    if hunks == [] {
      if lag { AgreeBehind(source, at, hunks, acc); }
    } else {
      var h, rest := hunks[0], hunks[1..];
      LandingsFit(source, End(h), !Anchored(h), rest);
      assert AreLines(New(h.edits));
      assert AddsAreLines(rest) by { assert forall i | 0 <= i < |rest| :: rest[i] == hunks[i + 1]; }
      if lag && (Anchored(h) || h.start > at) {
        Agrees(source, at, false, hunks, []);
        AgreeBehind(source, at, hunks, acc);
      } else if lag {
        Agrees(source, at, true, rest, acc + New(h.edits));
        AgreeSamePlace(source, at, hunks, acc);
      } else if Anchored(h) {
        Agrees(source, End(h), false, rest, []);
        AgreeAnchored(source, at, hunks);
      } else {
        Agrees(source, h.start, true, rest, New(h.edits));
        AgreeInsertion(source, at, hunks);
      }
    }
  }

  // ---------------------------------------------------------------- printing and applying, insertions included

  lemma {:induction false} NewAreLines(edits: seq<Edit>)
    requires LineEdits(edits)
    ensures AreLines(New(edits))
  {
    if edits != [] {
      assert IsLine(edits[0].line);
      NewAreLines(edits[1..]);
    }
  }

  lemma PrintBlocked(source: string, preface: seq<string>, hunks: seq<Hunk>)
    requires hunks != [] && Fits(Lines(source), 0, hunks) && Small(hunks, 0) && !Clear(0, false, hunks)
    requires IsPreface(preface) && forall i | 0 <= i < |hunks| :: LineEdits(hunks[i].edits)
    ensures Apply(source, Join(preface + PrintHunks(hunks, 0))) == Err(OutOfOrder)
  {
    var patch := preface + PrintHunks(hunks, 0);
    PrintedAreLines(hunks, 0);
    forall i | 0 <= i < |patch| ensures IsLine(patch[i]) {
      if i >= |preface| { assert patch[i] in PrintHunks(hunks, 0); }
    }
    LinesOfJoin(patch);
    forall k: nat | k < |preface| ensures Skipped(patch, k) { assert patch[k] == preface[k]; }
    SkipPreface(Lines(source), patch, |preface|);
    assert patch[|preface|..] == PrintHunks(hunks, 0);
    BlockedFails(Lines(source), 0, false, hunks, 0, patch, |preface|, false);
  }

  /** For every text and every ordered list of apart hunks that fit it: printing and applying is refused as out
      of order exactly when an insertion comes right behind a hunk with an old side; otherwise it replaces the old
      sides where the hunks land; and the result is the text that was meant exactly when it is not refused and
      every line inserted away from the start is a copy of the source line before it. */
  lemma PrintThenApplyExactly(source: string, preface: seq<string>, hunks: seq<Hunk>)
    requires hunks != [] && Fits(Lines(source), 0, hunks) && Small(hunks, 0)
    requires IsPreface(preface) && forall i | 0 <= i < |hunks| :: LineEdits(hunks[i].edits)
    ensures var lines, result := Lines(source), Apply(source, Join(preface + PrintHunks(hunks, 0)));
      && (Blocked(hunks) ==> result == Err(OutOfOrder))
      && (!Blocked(hunks) ==>
            Fits(lines, 0, Landings(hunks)) && result == Ok(Join(Replaced(lines, 0, Landings(hunks)))))
      && (result == Ok(Join(Replaced(lines, 0, hunks))) <==> !Blocked(hunks) && SameLines(lines, hunks))
  {
    var lines := Lines(source);
    LinesAreTextLines(source);
    ClearIsUnblocked(lines, 0, false, hunks);
    if Blocked(hunks) {
      PrintBlocked(source, preface, hunks);
    } else {
      assert AddsAreLines(hunks) by {
        forall i | 0 <= i < |hunks| ensures AreLines(New(hunks[i].edits)) { NewAreLines(hunks[i].edits); }
      }
      Agrees(lines, 0, false, hunks, []);
      PrintThenApply(source, preface, hunks);
      var landed, meant := Meant(lines, 0, Landings(hunks)), Meant(lines, 0, hunks);
      assert "" + landed == landed && "" + ("" + meant) == meant;
    }
  }

  // ---------------------------------------------------------------- two patches that git writes

  lemma TwoLines(a: string, b: string)
    requires IsLine(a) && IsLine(b)
    ensures Lines(a + b) == [a, b]
  {
    assert Join([a, b][1..]) == b + "" == b;
    LinesOfJoin([a, b]);
  }

  /** A line inserted between two lines comes out in front of both. */
  lemma InsertionLandsEarly(a: string, b: string, x: string)
    requires IsLine(a) && IsLine(b) && IsLine(x)
    ensures Apply(a + b, Join(PrintHunks([Hunk(1, [Add(x)])], 0))) == Ok(x + (a + b))
  {
    TwoLines(a, b);
    var hunk, lines := Hunk(1, [Add(x)]), [a, b];
    assert Old(hunk.edits) == [];
    assert Fits(lines, 0, [hunk]) by { assert lines[1..1] == []; }
    PrintThenApplyExactly(a + b, [], [hunk]);
    assert [] + PrintHunks([hunk], 0) == PrintHunks([hunk], 0);
    LandedText(lines, hunk, x);
    JoinLines(a + b);
  }

  lemma LandedText(lines: seq<string>, hunk: Hunk, x: string)
    requires lines != [] && hunk == Hunk(1, [Add(x)])
    ensures Fits(lines, 0, Landings([hunk])) && Meant(lines, 0, Landings([hunk])) == x + Join(lines)
  {
    var landed := Landings([hunk]);
    assert hunk.edits[1..] == [] && [x][1..] == [];
    assert Old(hunk.edits) == [] && New(hunk.edits) == [x] && Join([x]) == x + "" == x;
    assert [hunk][1..] == [] && [Landing(hunk)] + Landings([]) == [Landing(hunk)];
    assert landed == [Landing(hunk)];
    MeantStep(lines, 0, landed);
    assert lines[0..] == lines && lines[0..0] == [];
  }

  /** A line inserted right behind a hunk that keeps the line before it is refused. */
  lemma InsertionIsRefused(a: string, b: string, x: string)
    requires IsLine(a) && IsLine(b) && IsLine(x)
    ensures Apply(a + b, Join(PrintHunks([Hunk(0, [Keep(a)]), Hunk(1, [Add(x)])], 0))) == Err(OutOfOrder)
  {
    TwoLines(a, b);
    var first, second, lines := Hunk(0, [Keep(a)]), Hunk(1, [Add(x)]), [a, b];
    var hunks := [first, second];
    assert Old(first.edits) == [a] && New(first.edits) == [a];
    assert Old(second.edits) == [] && New(second.edits) == [x];
    assert lines[0..1] == [a] && lines[1..1] == [];
    assert hunks[1..] == [second];
    assert Fits(lines, 1, [second]) && Fits(lines, 0, hunks);
    assert Small([second], 0) && Small(hunks, 0);
    assert !Anchored(hunks[1]);
    PrintThenApplyExactly(a + b, [], hunks);
    assert [] + PrintHunks(hunks, 0) == PrintHunks(hunks, 0);
  }
}
