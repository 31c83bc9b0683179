/** What the applier reads in a header and in a body, and what each refusal means. */
module UnifiedDiffRefusals {
  import opened Options
  import opened Decimal
  import opened Text
  import opened UnifiedDiff
  import opened UnifiedDiffTheorems

  // ---------------------------------------------------------------- ranges

  ghost predicate CommaFree(s: string) { forall i | 0 <= i < |s| :: s[i] != ',' }

  lemma FindComma(a: string, rest: string)
    requires CommaFree(a)
    ensures var s := a + ("," + rest); Find(s, ",") == Some(|a|) && s[..|a|] == a && s[|a| + 1..] == rest
  {
    var s := a + ("," + rest);
    assert s[|a|..] == "," + rest;
    forall i | 0 <= i < |rest| ensures s[|a| + 1..][i] == rest[i] {}
    forall i | 0 <= i < |a| ensures !("," <= s[i..]) { assert s[i..][0] == a[i]; }
    FindFirst(s, ",", |a|);
  }

  lemma FindNoComma(a: string)
    requires CommaFree(a)
    ensures Find(a, ",") == None
  {
    forall i | 0 <= i <= |a| ensures !("," <= a[i..]) {
      if i < |a| { assert a[i..][0] == a[i]; }
    }
    FindNone(a, ",");
  }

  /** Every range: a start alone counts one line, a start and a count are both read, anything more is refused. */
  lemma RangeReads(a: string, b: string, rest: string)
    requires CommaFree(a) && CommaFree(b)
    ensures var start, count := ParseUsize(a), ParseUsize(b);
      && ParseRange(a) == (if start.Some? then Ok((start.value, 1)) else Err(BadRange))
      && ParseRange(a + ("," + b))
         == (if start.Some? && count.Some? then Ok((start.value, count.value)) else Err(BadRange))
      && ParseRange(a + ("," + (b + ("," + rest)))) == Err(BadRange)
  {
    FindNoComma(a);
    FindComma(a, b);
    FindNoComma(b);
    var more := b + ("," + rest);
    FindComma(a, more);
    FindComma(b, rest);
  }

  /** A header whose ranges leave out their counts is read with counts of one. */
  lemma ShortHeader(oldStart: nat, newStart: nat)
    requires oldStart < USIZE && newStart < USIZE
    ensures ParseHeader("@@ " + (Ranges(Show(oldStart), Show(newStart)) + " @@")) == Ok(Header(oldStart, 1, 1))
  {
    var a, b := Show(oldStart), Show(newStart);
    DigitsOnly(a);
    DigitsOnly(b);
    RangeReads(a, b, "");
    RangeReads(b, a, "");
    ParseShow(oldStart);
    ParseShow(newStart);
    ParsePrinted(a, b, (oldStart, 1), (newStart, 1));
  }

  lemma DigitsOnly(a: string)
    requires AllDigits(a)
    ensures CommaFree(a) && forall c | c in a :: !IsSpace(c)
  {
    forall i | 0 <= i < |a| ensures a[i] != ',' && !IsSpace(a[i]) { assert IsDigit(a[i]); }
  }

  // ---------------------------------------------------------------- bodies

  // A line that is no part of a body: another header, or a marker that means nothing.
  ghost predicate EndsBody(line: string) {
    || StartsWith(line, "@@ ")
    || (line != "" && line[0] !in {' ', '-', '+', '\\'} && line[0] as int < 0x80)
  }

  // What is wrong with a line of a body, read against the source at `at`.
  ghost predicate Faulty(source: seq<string>, at: nat, line: string, e: Error) {
    && !StartsWith(line, "@@ ")
    && match e
       case EmptyLine => line == ""
       case CharBoundary => line != "" && line[0] as int >= 0x80
       case NoNewline => line != "" && line[0] == '\\'
       case PastEnd => line != "" && line[0] in {' ', '-'} && at >= |source|
       case Mismatch => line != "" && line[0] in {' ', '-'} && at < |source| && source[at] != line[1..]
       case _ => false
  }

  lemma EditReads(source: seq<string>, at: nat, line: string)
    ensures match ReadEdit(source, at, line)
      case Err(e) => Faulty(source, at, line, e)
      case Ok(None) => EndsBody(line)
      case Ok(Some(edit)) =>
        && line == PrintEdit(edit) && !StartsWith(line, "@@ ")
        && (edit.Add? || (at < |source| && source[at] == edit.line))
  {
    if line != "" { assert line == [line[0]] + line[1..]; }
  }

  // The old lines of the edits are what the source says from `at` on.
  ghost predicate Matches(source: seq<string>, at: nat, edits: seq<Edit>) {
    at + |Old(edits)| <= |source| && source[at..at + |Old(edits)|] == Old(edits)
  }

  lemma MatchesMore(source: seq<string>, at: nat, e: Edit, rest: seq<Edit>)
    requires at <= |source| && (e.Add? || (at < |source| && source[at] == e.line))
    requires Matches(source, Advance(at, e), rest)
    ensures Matches(source, at, [e] + rest) && at + |Old([e] + rest)| == Advance(at, e) + |Old(rest)|
  {
    assert ([e] + rest)[1..] == rest;
  }

  lemma PrintMore(e: Edit, rest: seq<Edit>)
    ensures PrintEdits([e] + rest) == [PrintEdit(e)] + PrintEdits(rest)
    ensures |PrintEdits(rest)| == |rest|
  {
    assert ([e] + rest)[1..] == rest;
    PrintLength(rest);
  }

  lemma {:induction false} PrintLength(edits: seq<Edit>)
    ensures |PrintEdits(edits)| == |edits|
  {
    if edits != [] { PrintLength(edits[1..]); }
  }

  // Lines k to `end` of the patch are these edits, and they match the source.
  ghost predicate Reads(source: seq<string>, at: nat, patch: seq<string>, k: nat, edits: seq<Edit>, end: nat) {
    && k <= end <= |patch| && patch[k..end] == PrintEdits(edits) && Matches(source, at, edits)
  }

  lemma ReadsMore(source: seq<string>, at: nat, patch: seq<string>, k: nat, e: Edit, rest: seq<Edit>, end: nat)
    requires k < |patch| && at <= |source| && patch[k] == PrintEdit(e)
    requires e.Add? || (at < |source| && source[at] == e.line)
    requires Reads(source, Advance(at, e), patch, k + 1, rest, end)
    ensures Reads(source, at, patch, k, [e] + rest, end)
  {
    MatchesMore(source, at, e, rest);
    PrintMore(e, rest);
    assert patch[k..end] == [patch[k]] + patch[k + 1..end];
  }

  /** A body is the longest run of matching edits; it is read up to a line that ends it, or refused for the first line
      that is at fault. */
  lemma {:induction false} BodyReads(source: seq<string>, at: nat, patch: seq<string>, k: nat)
    returns (edits: seq<Edit>, end: nat)
    requires at <= |source| && k <= |patch|
    ensures Reads(source, at, patch, k, edits, end)
    ensures match ReadBody(source, at, patch, k)
      case Ok((found, next)) => found == edits && next == end && (end < |patch| ==> EndsBody(patch[end]))
      case Err(e) => end < |patch| && Faulty(source, at + |Old(edits)|, patch[end], e)
    decreases |patch| - k
  {
    edits, end := [], k;
    if k < |patch| {
      EditReads(source, at, patch[k]);
      var edit := ReadEdit(source, at, patch[k]);
      if edit.Ok? && edit.value.Some? {
        var e := edit.value.value;
        var more, last := BodyReads(source, Advance(at, e), patch, k + 1);
        ReadsMore(source, at, patch, k, e, more, last);
        MatchesMore(source, at, e, more);
        edits, end := [e] + more, last;
      }
    }
  }

  // ---------------------------------------------------------------- hunks

  /** A hunk is refused because it starts before what was consumed or behind the source, because of the first line at
      fault in its body, or because its header counts other lines than the body has; otherwise it is read. */
  lemma HunkReads(h: Header, source: seq<string>, at: nat, patch: seq<string>, k: nat)
    returns (start: nat, edits: seq<Edit>, end: nat)
    requires at <= |source| && k <= |patch|
    ensures start == if h.oldStart == 0 then 0 else h.oldStart - 1
    ensures at <= start <= |source| ==> Reads(source, start, patch, k, edits, end)
    ensures match HunkUnder(h, source, at, patch, k)
      case Err(OutOfOrder) => start < at || start > |source|
      case Err(CountMismatch) =>
        && at <= start <= |source| && (|Old(edits)| != h.oldCount || |New(edits)| != h.newCount)
        && (end < |patch| ==> EndsBody(patch[end]))
      case Err(e) => at <= start <= |source| && end < |patch| && Faulty(source, start + |Old(edits)|, patch[end], e)
      case Ok((hunk, next)) =>
        && at <= start <= |source| && hunk == Hunk(start, edits) && next == end
        && |Old(edits)| == h.oldCount && |New(edits)| == h.newCount && (end < |patch| ==> EndsBody(patch[end]))
  {
    start := HunkStart(h);
    if at <= start <= |source| {
      edits, end := BodyReads(source, start, patch, k);
    } else {
      edits, end := [], k;
    }
  }
}
