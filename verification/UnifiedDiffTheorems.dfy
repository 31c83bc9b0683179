/** Printing hunks and applying the patch replaces exactly their old sides; and nothing else is ever accepted. */
module UnifiedDiffTheorems {
  import opened Options
  import opened Decimal
  import opened Text
  import opened UnifiedDiff

  // ---------------------------------------------------------------- replacing old sides

  // In order, apart, and each old side is what the source holds there.
  ghost predicate Fits(source: seq<string>, at: nat, hunks: seq<Hunk>)
    decreases |hunks|
  {
    hunks != [] ==> Sits(source, at, hunks[0]) && Fits(source, End(hunks[0]), hunks[1..])
  }

  // source[at..] with the old sides replaced.
  ghost function Replaced(source: seq<string>, at: nat, hunks: seq<Hunk>): seq<string>
    requires at <= |source| && Fits(source, at, hunks)
    decreases |hunks|
  {
    if hunks == [] then source[at..]
    else source[at..hunks[0].start] + New(hunks[0].edits) + Replaced(source, End(hunks[0]), hunks[1..])
  }

  function Growth(hunks: seq<Hunk>): int {
    if hunks == [] then 0
    else |New(hunks[0].edits)| - |Old(hunks[0].edits)| + Growth(hunks[1..])
  }

  lemma {:induction false} ReplacedLength(source: seq<string>, at: nat, hunks: seq<Hunk>)
    requires at <= |source| && Fits(source, at, hunks)
    ensures |Replaced(source, at, hunks)| == |source| - at + Growth(hunks)
    decreases hunks
  {
    if hunks != [] { ReplacedLength(source, End(hunks[0]), hunks[1..]); }
  }

  // ---------------------------------------------------------------- whatever is accepted is a replacement

  // The hunks a successful application went through.
  ghost function HunksOf(source: seq<string>, at: nat, patch: seq<string>, k: nat, saw: bool): seq<Hunk>
    requires at <= |source| && k <= |patch| && ApplyFrom(source, at, patch, k, saw).Ok?
    decreases |patch| - k
  {
    if k == |patch| then []
    else if !StartsWith(TrimEol(patch[k]), "@@ ") then HunksOf(source, at, patch, k + 1, saw)
    else
      var (hunk, end) := ReadHunk(source, at, patch, k).value;
      [hunk] + HunksOf(source, End(hunk), patch, end, true)
  }

  /** An Ok result splits the source into copied lines and old sides that match exactly, and is the source with
      the old sides replaced; there is at least one hunk. */
  lemma {:induction false} OkIsReplacement(source: seq<string>, at: nat, patch: seq<string>, k: nat, saw: bool)
    requires at <= |source| && k <= |patch| && ApplyFrom(source, at, patch, k, saw).Ok?
    ensures var hunks := HunksOf(source, at, patch, k, saw);
      && Fits(source, at, hunks) && ApplyFrom(source, at, patch, k, saw).value == Replaced(source, at, hunks)
      && (saw || hunks != [])
    decreases |patch| - k
  {
    if k < |patch| {
      if !StartsWith(TrimEol(patch[k]), "@@ ") {
        OkIsReplacement(source, at, patch, k + 1, saw);
      } else {
        var (hunk, end) := ReadHunk(source, at, patch, k).value;
        OkIsReplacement(source, End(hunk), patch, end, true);
        assert HunksOf(source, at, patch, k, saw)[1..] == HunksOf(source, End(hunk), patch, end, true);
      }
    }
  }

  /** The same for the whole applier, with its line count. */
  lemma AcceptedPatch(source: string, patch: string) returns (hunks: seq<Hunk>)
    requires Apply(source, patch).Ok?
    ensures hunks != [] && Fits(Lines(source), 0, hunks)
    ensures Apply(source, patch).value == Join(Replaced(Lines(source), 0, hunks))
    ensures |Replaced(Lines(source), 0, hunks)| == |Lines(source)| + Growth(hunks)
  {
    OkIsReplacement(Lines(source), 0, Lines(patch), 0, false);
    hunks := HunksOf(Lines(source), 0, Lines(patch), 0, false);
    ReplacedLength(Lines(source), 0, hunks);
  }

  // ---------------------------------------------------------------- printing

  function PrintRange(start: nat, count: nat): string { Show(start) + "," + Show(count) }

  function PrintHeader(oldStart: nat, oldCount: nat, newStart: nat, newCount: nat): string {
    "@@ -" + PrintRange(oldStart, oldCount) + " +" + PrintRange(newStart, newCount) + " @@\n"
  }

  function PrintEdit(edit: Edit): string {
    match edit
    case Keep(line) => " " + line
    case Drop(line) => "-" + line
    case Add(line) => "+" + line
  }

  function PrintEdits(edits: seq<Edit>): seq<string> {
    if edits == [] then [] else [PrintEdit(edits[0])] + PrintEdits(edits[1..])
  }

  // Line numbers count from 1, but an empty side is announced by the line before it.
  function Announce(start: nat, count: nat): nat { if count == 0 then start else start + 1 }

  // `shift` is how far earlier hunks have moved the new side.
  function HeaderLine(h: Hunk, shift: int): string {
    var before, after := |Old(h.edits)|, |New(h.edits)|;
    var newStart := if h.start + shift < 0 then 0 else h.start + shift;
    PrintHeader(Announce(h.start, before), before, Announce(newStart, after), after)
  }

  function PrintHunk(h: Hunk, shift: int): seq<string> { [HeaderLine(h, shift)] + PrintEdits(h.edits) }

  function PrintHunks(hunks: seq<Hunk>, shift: int): seq<string> {
    if hunks == [] then []
    else
      var h := hunks[0];
      PrintHunk(h, shift) + PrintHunks(hunks[1..], shift + |New(h.edits)| - |Old(h.edits)|)
  }

  // Every number in the header fits a usize.
  ghost predicate SmallHunk(h: Hunk, shift: int) {
    h.start + 1 < USIZE && h.start + shift + 1 < USIZE && |Old(h.edits)| < USIZE && |New(h.edits)| < USIZE
  }

  ghost predicate Small(hunks: seq<Hunk>, shift: int) {
    hunks != [] ==>
      var h := hunks[0];
      && SmallHunk(h, shift)
      && Small(hunks[1..], shift + |New(h.edits)| - |Old(h.edits)|)
  }

  // The announced line number leads back to the hunk's start.
  ghost predicate Anchored(h: Hunk) { Old(h.edits) != [] || h.start == 0 }

  // Where the applier puts a printed hunk: an unanchored insertion lands one line early.
  ghost function Landing(h: Hunk): Hunk { if Anchored(h) then h else h.(start := h.start - 1) }

  ghost function Landings(hunks: seq<Hunk>): seq<Hunk> {
    if hunks == [] then [] else [Landing(hunks[0])] + Landings(hunks[1..])
  }

  // ---------------------------------------------------------------- reading a printed range

  lemma NoComma(digits: string, i: nat)
    requires AllDigits(digits) && i <= |digits|
    ensures !("," <= digits[i..])
  {
    if i < |digits| { assert digits[i..][0] == digits[i] && IsDigit(digits[i]); }
  }

  lemma ParseShow(n: nat)
    requires n < USIZE
    ensures ParseUsize(Show(n)) == Some(n)
  {
    ValueShow(n);
    assert IsDigit(Show(n)[0]);
  }

  lemma {:induction false} FindNone(s: string, needle: string)
    requires forall i | 0 <= i <= |s| :: !(needle <= s[i..])
    ensures Find(s, needle) == None
  {
    assert s[0..] == s;
    assert !(needle <= s[0..]);
    if s != "" {
      forall i | 0 <= i <= |s[1..]| ensures !(needle <= s[1..][i..]) {
        assert s[1..][i..] == s[i + 1..];
      }
      FindNone(s[1..], needle);
    }
  }

  lemma RangeRoundTrip(start: nat, count: nat)
    requires start < USIZE && count < USIZE
    ensures ParseRange(PrintRange(start, count)) == Ok((start, count))
  {
    var a, b := Show(start), Show(count);
    var range := PrintRange(start, count);
    assert range[|a|..] == "," + b;
    forall i | 0 <= i < |a| ensures !("," <= range[i..]) {
      assert range[i..][0] == a[i] && IsDigit(a[i]);
    }
    FindFirst(range, ",", |a|);
    assert range[..|a|] == a && range[|a| + 1..] == b;
    ParseShow(start);
    ParseShow(count);
    forall i | 0 <= i <= |b| ensures !("," <= b[i..]) { NoComma(b, i); }
    FindNone(b, ",");
  }

  lemma RangeHasNoSpace(start: nat, count: nat)
    ensures forall c | c in PrintRange(start, count) :: !IsSpace(c)
  {
    var a, b := Show(start), Show(count);
    assert AllDigits(a) && AllDigits(b);
    forall c | c in PrintRange(start, count) ensures !IsSpace(c) {
      var i :| 0 <= i < |PrintRange(start, count)| && PrintRange(start, count)[i] == c;
      if i < |a| {
        assert c == a[i];
      } else if i > |a| {
        assert c == b[i - |a| - 1];
      }
    }
  }

  lemma TrimHeader(s: string)
    ensures TrimEol(s + " @@\n") == s + " @@"
  {
    var t := s + " @@\n";
    assert t[|t| - 1] == '\n' && t[..|t| - 1] == s + " @@";
    assert (s + " @@")[|s| + 2] == '@';
    assert TrimEol(s + " @@") == s + " @@";
  }

  // The two ranges of a header, and the one space between them.
  function Ranges(a: string, b: string): string { ("-" + a) + (" +" + b) }

  lemma RangesChars(a: string, b: string, i: nat)
    requires (forall c | c in a :: !IsSpace(c)) && (forall c | c in b :: !IsSpace(c))
    requires i < |Ranges(a, b)|
    ensures Ranges(a, b)[i] == ' ' ==> i + 1 < |Ranges(a, b)| && Ranges(a, b)[i + 1] == '+'
  {
    var s := Ranges(a, b);
    if 1 <= i <= |a| {
      assert s[i] == a[i - 1] && a[i - 1] in a;
    } else if i > |a| + 2 {
      assert s[i] == b[i - |a| - 3] && b[i - |a| - 3] in b;
    }
  }

  // In "-a +b @@" the first " @@" is the last one.
  lemma HeaderEnd(a: string, b: string)
    requires (forall c | c in a :: !IsSpace(c)) && (forall c | c in b :: !IsSpace(c))
    ensures Find(Ranges(a, b) + " @@", " @@") == Some(|Ranges(a, b)|)
  {
    var p := Ranges(a, b);
    var s := p + " @@";
    assert s[|p|..] == " @@";
    forall i | 0 <= i < |p| ensures !(" @@" <= s[i..]) {
      RangesChars(a, b, i);
      assert s[i..][0] == p[i];
      if p[i] == ' ' { assert s[i..][1] == p[i + 1] == '+'; }
    }
    FindFirst(s, " @@", |p|);
  }

  lemma FirstToken(token: string, rest: string)
    requires token != "" && forall c | c in token :: !IsSpace(c)
    requires rest == "" || IsSpace(rest[0])
    ensures NextToken(token + rest) == Some((token, rest))
  {
    var s := token + rest;
    assert s[0] == token[0] && token[0] in token;
    assert SkipSpace(s) == s;
    assert forall i | 0 <= i < |token| :: token[i] in token;
    TokenEnds(token, rest);
    assert s[..|token|] == token && s[|token|..] == rest;
  }

  lemma TwoTokens(a: string, b: string)
    requires (forall c | c in a :: !IsSpace(c)) && (forall c | c in b :: !IsSpace(c))
    ensures NextToken(Ranges(a, b)) == Some(("-" + a, " +" + b))
    ensures NextToken(" +" + b) == Some(("+" + b, ""))
  {
    FirstToken("-" + a, " +" + b);
    FirstToken("+" + b, "");
    var t := " +" + b;
    assert t[1..] == "+" + b && ("+" + b) + "" == "+" + b;
    assert SkipSpace(t) == SkipSpace(t[1..]);
    assert SkipSpace("+" + b) == "+" + b;
  }

  lemma ParsePrinted(a: string, b: string, x: (nat, nat), y: (nat, nat))
    requires (forall c | c in a :: !IsSpace(c)) && (forall c | c in b :: !IsSpace(c))
    requires ParseRange(a) == Ok(x) && ParseRange(b) == Ok(y)
    ensures ParseHeader("@@ " + (Ranges(a, b) + " @@")) == Ok(Header(x.0, x.1, y.1))
  {
    var p := Ranges(a, b);
    var line := "@@ " + (p + " @@");
    assert line[3..] == p + " @@";
    HeaderEnd(a, b);
    assert (p + " @@")[..|p|] == p;
    TwoTokens(a, b);
    assert ("-" + a)[1..] == a && ("+" + b)[1..] == b;
  }

  lemma HeaderRoundTrip(oldStart: nat, oldCount: nat, newStart: nat, newCount: nat)
    requires oldStart < USIZE && oldCount < USIZE && newStart < USIZE && newCount < USIZE
    ensures var line := TrimEol(PrintHeader(oldStart, oldCount, newStart, newCount));
      StartsWith(line, "@@ ") && ParseHeader(line) == Ok(Header(oldStart, oldCount, newCount))
  {
    var a, b := PrintRange(oldStart, oldCount), PrintRange(newStart, newCount);
    RangeHasNoSpace(oldStart, oldCount);
    RangeHasNoSpace(newStart, newCount);
    RangeRoundTrip(oldStart, oldCount);
    RangeRoundTrip(newStart, newCount);
    ParsePrinted(a, b, (oldStart, oldCount), (newStart, newCount));
    PrintedLine(a, b);
  }

  lemma PrintedLine(a: string, b: string)
    ensures TrimEol("@@ -" + a + " +" + b + " @@\n") == "@@ " + (Ranges(a, b) + " @@")
  {
    var s := "@@ " + Ranges(a, b);
    assert "@@ -" + a + " +" + b + " @@\n" == s + " @@\n";
    TrimHeader(s);
    assert s + " @@" == "@@ " + (Ranges(a, b) + " @@");
  }

  // ---------------------------------------------------------------- reading printed hunks

  lemma ReadPrintedEdit(source: seq<string>, at: nat, e: Edit)
    requires e.Add? || (at < |source| && source[at] == e.line)
    ensures ReadEdit(source, at, PrintEdit(e)) == Ok(Some(e))
  {
    assert PrintEdit(e)[1..] == e.line;
  }

  lemma OldAdvances(source: seq<string>, at: nat, edits: seq<Edit>)
    requires edits != [] && at + |Old(edits)| <= |source| && source[at..at + |Old(edits)|] == Old(edits)
    ensures edits[0].Add? || (at < |source| && source[at] == edits[0].line)
    ensures var next := Advance(at, edits[0]);
      next + |Old(edits[1..])| <= |source| && source[next..next + |Old(edits[1..])|] == Old(edits[1..])
  {
    OldSplits(edits);
    if !edits[0].Add? {
      SliceHead(source, at, edits[0].line, Old(edits[1..]));
    }
  }

  lemma OldSplits(edits: seq<Edit>)
    requires edits != []
    ensures Old(edits) == if edits[0].Add? then Old(edits[1..]) else [edits[0].line] + Old(edits[1..])
  {
  }

  lemma SliceHead(source: seq<string>, at: nat, first: string, rest: seq<string>)
    requires at + 1 + |rest| <= |source| && source[at..at + 1 + |rest|] == [first] + rest
    ensures source[at] == first && source[at + 1..at + 1 + |rest|] == rest
  {
    var slice := source[at..at + 1 + |rest|];
    assert source[at] == slice[0];
    assert source[at + 1..at + 1 + |rest|] == slice[1..];
  }

  lemma {:induction false} ReadPrintedEdits(source: seq<string>, at: nat, edits: seq<Edit>, patch: seq<string>, k: nat,
                                            tail: seq<string>)
    requires k <= |patch| && patch[k..] == PrintEdits(edits) + tail
    requires tail == [] || StartsWith(tail[0], "@@ ")
    requires at + |Old(edits)| <= |source| && source[at..at + |Old(edits)|] == Old(edits)
    ensures ReadBody(source, at, patch, k) == Ok((edits, |patch| - |tail|))
    decreases edits
  {
    if edits == [] {
      assert patch[k..] == tail;
      if tail != [] {
        assert patch[k] == tail[0];
        assert ReadEdit(source, at, patch[k]) == Ok(None);
      }
    } else {
      var e, more := edits[0], edits[1..];
      assert patch[k] == patch[k..][0] == PrintEdit(e);
      assert patch[k + 1..] == patch[k..][1..] == PrintEdits(more) + tail;
      OldAdvances(source, at, edits);
      ReadPrintedEdit(source, at, e);
      ReadPrintedEdits(source, Advance(at, e), more, patch, k + 1, tail);
      assert [e] + more == edits;
    }
  }

  lemma HeaderReads(h: Hunk, shift: int)
    requires SmallHunk(h, shift)
    ensures var line := TrimEol(HeaderLine(h, shift));
      && StartsWith(line, "@@ ")
      && ParseHeader(line) == Ok(HeaderOf(h))
  {
    var newStart := if h.start + shift < 0 then 0 else h.start + shift;
    var before, after := |Old(h.edits)|, |New(h.edits)|;
    HeaderRoundTrip(Announce(h.start, before), before, Announce(newStart, after), after);
  }

  function HeaderOf(h: Hunk): Header {
    Header(Announce(h.start, |Old(h.edits)|), |Old(h.edits)|, |New(h.edits)|)
  }

  lemma HunkUnderPrinted(source: seq<string>, at: nat, h: Hunk, patch: seq<string>, k: nat, tail: seq<string>)
    requires k <= |patch| && patch[k..] == PrintEdits(h.edits) + tail
    requires tail == [] || StartsWith(tail[0], "@@ ")
    requires Sits(source, at, Landing(h))
    ensures HunkUnder(HeaderOf(h), source, at, patch, k) == Ok((Landing(h), |patch| - |tail|))
  {
    assert HunkStart(HeaderOf(h)) == Landing(h).start;
    ReadPrintedEdits(source, Landing(h).start, h.edits, patch, k, tail);
  }

  lemma ReadPrintedHunk(source: seq<string>, at: nat, h: Hunk, shift: int, patch: seq<string>, k: nat,
                        tail: seq<string>)
    requires SmallHunk(h, shift)
    requires k < |patch| && patch[k] == HeaderLine(h, shift) && patch[k + 1..] == PrintEdits(h.edits) + tail
    requires tail == [] || StartsWith(tail[0], "@@ ")
    requires Sits(source, at, Landing(h))
    ensures StartsWith(TrimEol(patch[k]), "@@ ")
    ensures ReadHunk(source, at, patch, k) == Ok((Landing(h), |patch| - |tail|))
  {
    HeaderReads(h, shift);
    HunkUnderPrinted(source, at, h, patch, k + 1, tail);
  }

  lemma PrintedHead(hunks: seq<Hunk>, shift: int)
    ensures PrintHunks(hunks, shift) == [] || StartsWith(PrintHunks(hunks, shift)[0], "@@ ")
  {
    if hunks != [] {
      assert PrintHunks(hunks, shift)[0] == HeaderLine(hunks[0], shift);
    }
  }

  lemma SplitPrinted(h: Hunk, shift: int, tail: seq<string>, patch: seq<string>, k: nat)
    requires k <= |patch| && patch[k..] == PrintHunk(h, shift) + tail
    ensures k < |patch| && patch[k] == HeaderLine(h, shift) && patch[k + 1..] == PrintEdits(h.edits) + tail
    ensures k < |patch| - |tail| && patch[|patch| - |tail|..] == tail
  {
    assert |patch[k..]| > 0;
    assert patch[k] == patch[k..][0];
    assert patch[k + 1..] == patch[k..][1..];
    assert patch[|patch| - |tail|..] == patch[k..][|PrintHunk(h, shift)|..];
  }

  // The patch from line k on reads as exactly these hunks.
  ghost predicate ReadsAs(source: seq<string>, at: nat, patch: seq<string>, k: nat, hunks: seq<Hunk>)
    requires k <= |patch|
    decreases |hunks|
  {
    if hunks == [] then k == |patch|
    else
      && k < |patch| && StartsWith(TrimEol(patch[k]), "@@ ")
      && var read := ReadHunk(source, at, patch, k);
         read.Ok? && read.value.0 == hunks[0] && ReadsAs(source, End(hunks[0]), patch, read.value.1, hunks[1..])
  }

  lemma {:induction false} ApplyRead(source: seq<string>, at: nat, patch: seq<string>, k: nat, hunks: seq<Hunk>,
                                     saw: bool)
    requires at <= |source| && k <= |patch| && ReadsAs(source, at, patch, k, hunks) && (saw || hunks != [])
    ensures Fits(source, at, hunks) && ApplyFrom(source, at, patch, k, saw) == Ok(Replaced(source, at, hunks))
    decreases |hunks|
  {
    if hunks != [] {
      ApplyRead(source, End(hunks[0]), patch, ReadHunk(source, at, patch, k).value.1, hunks[1..], true);
    }
  }

  lemma PrintedStep(source: seq<string>, at: nat, h: Hunk, shift: int, tail: seq<string>, patch: seq<string>, k: nat)
    requires k <= |patch| && patch[k..] == PrintHunk(h, shift) + tail
    requires tail == [] || StartsWith(tail[0], "@@ ")
    requires SmallHunk(h, shift) && Sits(source, at, Landing(h))
    ensures k < |patch| - |tail| && StartsWith(TrimEol(patch[k]), "@@ ")
    ensures ReadHunk(source, at, patch, k).Ok?
    ensures ReadHunk(source, at, patch, k).value.0 == Landing(h)
    ensures ReadHunk(source, at, patch, k).value.1 == |patch| - |tail|
  {
    SplitPrinted(h, shift, tail, patch, k);
    ReadPrintedHunk(source, at, h, shift, patch, k, tail);
  }

  lemma ReadsMore(source: seq<string>, at: nat, patch: seq<string>, k: nat, more: seq<Hunk>)
    requires k < |patch| && StartsWith(TrimEol(patch[k]), "@@ ") && ReadHunk(source, at, patch, k).Ok?
    requires var (hunk, end) := ReadHunk(source, at, patch, k).value; ReadsAs(source, End(hunk), patch, end, more)
    ensures ReadsAs(source, at, patch, k, [ReadHunk(source, at, patch, k).value.0] + more)
  {
    assert ([ReadHunk(source, at, patch, k).value.0] + more)[1..] == more;
  }

  lemma PrintedReadsMore(source: seq<string>, at: nat, h: Hunk, shift: int, tail: seq<string>, patch: seq<string>,
                         k: nat,
                         landed: Hunk, end: nat, more: seq<Hunk>)
    requires k <= |patch| && patch[k..] == PrintHunk(h, shift) + tail && end + |tail| == |patch|
    requires tail == [] || StartsWith(tail[0], "@@ ")
    requires SmallHunk(h, shift) && landed == Landing(h) && Sits(source, at, landed)
    requires ReadsAs(source, End(landed), patch, end, more)
    ensures ReadsAs(source, at, patch, k, [landed] + more)
  {
    PrintedStep(source, at, h, shift, tail, patch, k);
    var read := ReadHunk(source, at, patch, k).value;
    assert read.0 == landed && read.1 == end;
    assert ReadsAs(source, End(read.0), patch, read.1, more);
    ReadsMore(source, at, patch, k, more);
    assert [read.0] + more == [landed] + more;
  }

  lemma Suffix(patch: seq<string>, k: nat, head: seq<string>, tail: seq<string>)
    requires k <= |patch| && patch[k..] == head + tail
    ensures |tail| <= |patch| && patch[|patch| - |tail|..] == tail
  {
    assert patch[|patch| - |tail|..] == patch[k..][|head|..];
  }

  lemma {:induction false} PrintedReads(source: seq<string>, at: nat, hunks: seq<Hunk>, shift: int, patch: seq<string>,
                                        k: nat)
    requires k <= |patch| && patch[k..] == PrintHunks(hunks, shift)
    requires Fits(source, at, Landings(hunks)) && Small(hunks, shift)
    ensures ReadsAs(source, at, patch, k, Landings(hunks))
    decreases |hunks|
  {
    if hunks != [] {
      var h, more := hunks[0], hunks[1..];
      var shift' := shift + |New(h.edits)| - |Old(h.edits)|;
      var tail := PrintHunks(more, shift');
      Suffix(patch, k, PrintHunk(h, shift), tail);
      assert Landings(hunks)[1..] == Landings(more);
      var landed, end := Landing(h), |patch| - |tail|;
      PrintedReads(source, End(landed), more, shift', patch, end);
      PrintedHead(more, shift');
      PrintedReadsMore(source, at, h, shift, tail, patch, k, landed, end, Landings(more));
    }
  }

  ghost predicate AllAnchored(hunks: seq<Hunk>) {
    forall i | 0 <= i < |hunks| :: Anchored(hunks[i])
  }

  lemma {:induction false} AnchoredLandings(hunks: seq<Hunk>)
    ensures Landings(hunks) == hunks <==> AllAnchored(hunks)
  {
    if hunks != [] {
      AnchoredLandings(hunks[1..]);
      if Landings(hunks) == hunks {
        assert Landings(hunks)[0] == hunks[0] && Landings(hunks)[1..] == hunks[1..];
        forall i | 0 <= i < |hunks| ensures Anchored(hunks[i]) {
          if i > 0 { assert hunks[i] == hunks[1..][i - 1]; }
        }
      }
    }
  }

  // Lines before the first hunk, such as the file names, are passed over.
  ghost predicate IsPreface(lines: seq<string>) {
    forall i | 0 <= i < |lines| :: IsLine(lines[i]) && !StartsWith(TrimEol(lines[i]), "@@ ")
  }

  lemma SkipLine(source: seq<string>, at: nat, patch: seq<string>, k: nat, saw: bool)
    requires at <= |source| && k < |patch| && !StartsWith(TrimEol(patch[k]), "@@ ")
    ensures ApplyFrom(source, at, patch, k, saw) == ApplyFrom(source, at, patch, k + 1, saw)
  {
  }

  ghost predicate Skipped(patch: seq<string>, k: nat)
    requires k < |patch|
  {
    !StartsWith(TrimEol(patch[k]), "@@ ")
  }

  lemma {:induction false} SkipPreface(source: seq<string>, patch: seq<string>, k: nat)
    requires k <= |patch| && forall i: nat | i < k :: Skipped(patch, i)
    ensures ApplyFrom(source, 0, patch, 0, false) == ApplyFrom(source, 0, patch, k, false)
  {
    if k > 0 {
      SkipPreface(source, patch, k - 1);
      assert Skipped(patch, k - 1);
      SkipLine(source, 0, patch, k - 1, false);
    }
  }

  ghost predicate LineEdits(edits: seq<Edit>) {
    forall i | 0 <= i < |edits| :: IsLine(edits[i].line)
  }

  lemma {:induction false} PrintedEditsAreLines(edits: seq<Edit>)
    requires LineEdits(edits)
    ensures forall line | line in PrintEdits(edits) :: IsLine(line)
  {
    if edits != [] {
      PrintedEditsAreLines(edits[1..]);
      var e, line := edits[0], PrintEdit(edits[0]);
      assert IsLine(e.line) && line[1..] == e.line;
      assert forall i | 1 <= i < |line| :: line[i] == e.line[i - 1];
    }
  }

  lemma HeaderIsLine(h: Hunk, shift: int)
    ensures IsLine(HeaderLine(h, shift))
  {
    var before, after := |Old(h.edits)|, |New(h.edits)|;
    var newStart := if h.start + shift < 0 then 0 else h.start + shift;
    var a, b := PrintRange(Announce(h.start, before), before), PrintRange(Announce(newStart, after), after);
    RangeHasNoSpace(Announce(h.start, before), before);
    RangeHasNoSpace(Announce(newStart, after), after);
    var line := HeaderLine(h, shift);
    forall i | 0 <= i < |line| - 1 ensures line[i] != '\n' {
      if 4 <= i < 4 + |a| {
        assert line[i] == a[i - 4] && a[i - 4] in a;
      } else if 6 + |a| <= i < 6 + |a| + |b| {
        assert line[i] == b[i - 6 - |a|] && b[i - 6 - |a|] in b;
      }
    }
  }

  lemma {:induction false} PrintedAreLines(hunks: seq<Hunk>, shift: int)
    requires forall i | 0 <= i < |hunks| :: LineEdits(hunks[i].edits)
    ensures forall line | line in PrintHunks(hunks, shift) :: IsLine(line)
    decreases hunks
  {
    if hunks != [] {
      var h := hunks[0];
      HeaderIsLine(h, shift);
      PrintedEditsAreLines(h.edits);
      PrintedAreLines(hunks[1..], shift + |New(h.edits)| - |Old(h.edits)|);
    }
  }

  /** Applying printed hunks, with file names or other lines before them, replaces the old sides where the
      hunks land. */
  lemma PrintThenApply(source: string, preface: seq<string>, hunks: seq<Hunk>)
    requires hunks != [] && Fits(Lines(source), 0, Landings(hunks)) && Small(hunks, 0)
    requires IsPreface(preface) && forall i | 0 <= i < |hunks| :: LineEdits(hunks[i].edits)
    ensures Apply(source, Join(preface + PrintHunks(hunks, 0)))
            == Ok(Join(Replaced(Lines(source), 0, Landings(hunks))))
  {
    var patch := preface + PrintHunks(hunks, 0);
    PrintedAreLines(hunks, 0);
    forall i | 0 <= i < |patch| ensures IsLine(patch[i]) {
      if i >= |preface| { assert patch[i] in PrintHunks(hunks, 0); }
    }
    LinesOfJoin(patch);
    forall k: nat | k < |preface| ensures Skipped(patch, k) { assert patch[k] == preface[k]; }
    SkipPreface(Lines(source), patch, |preface|);
    assert patch[|preface|..] == PrintHunks(hunks, 0);
    PrintedReads(Lines(source), 0, hunks, 0, patch, |preface|);
    ApplyRead(Lines(source), 0, patch, |preface|, Landings(hunks), false);
  }

  /** For every text and every ordered list of apart hunks that fit it, each with a non-empty old side (or at
      the very start), printing and applying replaces exactly those old sides. */
  lemma RoundTrip(source: string, preface: seq<string>, hunks: seq<Hunk>)
    requires hunks != [] && Fits(Lines(source), 0, hunks) && AllAnchored(hunks) && Small(hunks, 0)
    requires IsPreface(preface) && forall i | 0 <= i < |hunks| :: LineEdits(hunks[i].edits)
    ensures Apply(source, Join(preface + PrintHunks(hunks, 0))) == Ok(Join(Replaced(Lines(source), 0, hunks)))
  {
    AnchoredLandings(hunks);
    PrintThenApply(source, preface, hunks);
  }
}
