/** The unified-diff applier of the patch set. */
module UnifiedDiff {
  import opened Options
  import opened Decimal
  import opened Text

  // CharBoundary stands for the panic on slicing a line whose first character is longer than one byte.
  datatype Error =
    | BadHeader | BadRange | OutOfOrder | EmptyLine | CharBoundary | NoNewline | Mismatch | PastEnd
    | CountMismatch | NoHunks

  datatype Result<+T> = Ok(value: T) | Err(error: Error)

  // ---------------------------------------------------------------- hunk headers

  datatype Header = Header(oldStart: nat, oldCount: nat, newCount: nat)

  // Start and count; the count defaults to 1 and a second comma is an error.
  function ParseRange(range: string): Result<(nat, nat)> {
    match Find(range, ",")
    case None =>
      var start := ParseUsize(range);
      if start.None? then Err(BadRange) else Ok((start.value, 1))
    case Some(comma) =>
      var start, tail := ParseUsize(range[..comma]), range[comma + 1..];
      if start.None? then Err(BadRange)
      else
        var last := Find(tail, ",");
        var count := ParseUsize(if last.Some? then tail[..last.value] else tail);
        if count.None? || last.Some? then Err(BadRange) else Ok((start.value, count.value))
  }

  function ParseHeader(header: string): Result<Header>
    requires StartsWith(header, "@@ ")
  {
    var end := Find(header[3..], " @@");
    if end.None? then Err(BadHeader)
    else
      var first := NextToken(header[3..][..end.value]);
      if first.None? || !StartsWith(first.value.0, "-") then Err(BadHeader)
      else
        var second := NextToken(first.value.1);
        if second.None? || !StartsWith(second.value.0, "+") then Err(BadHeader)
        else
          var before := ParseRange(first.value.0[1..]);
          if before.Err? then Err(before.error)
          else
            var after := ParseRange(second.value.0[1..]);
            if after.Err? then Err(after.error)
            else Ok(Header(before.value.0, before.value.1, after.value.1))
  }

  // ---------------------------------------------------------------- hunk bodies

  datatype Edit = Keep(line: string) | Drop(line: string) | Add(line: string)

  function Old(edits: seq<Edit>): seq<string> {
    if edits == [] then []
    else (if edits[0].Add? then [] else [edits[0].line]) + Old(edits[1..])
  }

  function New(edits: seq<Edit>): seq<string> {
    if edits == [] then []
    else (if edits[0].Drop? then [] else [edits[0].line]) + New(edits[1..])
  }

  // One line of a hunk body, read against the source at `at`; no edit where the body ends.
  function ReadEdit(source: seq<string>, at: nat, line: string): Result<Option<Edit>> {
    if StartsWith(line, "@@ ") then Ok(None)
    else if line == "" then Err(EmptyLine)
    else if line[0] as int >= 0x80 then Err(CharBoundary)
    else if line[0] == '+' then Ok(Some(Add(line[1..])))
    else if line[0] == '\\' then Err(NoNewline)
    else if line[0] == ' ' || line[0] == '-' then
      if at >= |source| then Err(PastEnd)
      else if source[at] != line[1..] then Err(Mismatch)
      else Ok(Some(if line[0] == ' ' then Keep(line[1..]) else Drop(line[1..])))
    else Ok(None)
  }

  function Advance(at: nat, edit: Edit): nat { if edit.Add? then at else at + 1 }

  // The edits of a body that starts at patch[k], and the line after it.
  function ReadBody(source: seq<string>, at: nat, patch: seq<string>, k: nat): (r: Result<(seq<Edit>, nat)>)
    requires k <= |patch|
    ensures r.Ok? ==> k <= r.value.1 <= |patch|
    decreases |patch| - k
  {
    if k == |patch| then Ok(([], k))
    else
      var edit := ReadEdit(source, at, patch[k]);
      if edit.Err? then Err(edit.error)
      else if edit.value.None? then Ok(([], k))
      else
        var more := ReadBody(source, Advance(at, edit.value.value), patch, k + 1);
        if more.Err? then more else Ok(([edit.value.value] + more.value.0, more.value.1))
  }

  function HunkStart(h: Header): nat { if h.oldStart == 0 then 0 else h.oldStart - 1 }

  // The old side of a body that was read is what the source says there.
  lemma {:induction false} BodyMatches(source: seq<string>, at: nat, patch: seq<string>, k: nat)
    requires at <= |source| && k <= |patch| && ReadBody(source, at, patch, k).Ok?
    ensures var edits := ReadBody(source, at, patch, k).value.0;
      at + |Old(edits)| <= |source| && source[at..at + |Old(edits)|] == Old(edits)
    decreases |patch| - k
  {
    if k < |patch| {
      var edit := ReadEdit(source, at, patch[k]);
      if edit.value.Some? {
        var e := edit.value.value;
        BodyMatches(source, Advance(at, e), patch, k + 1);
        var edits := ReadBody(source, at, patch, k).value.0;
        assert edits[1..] == ReadBody(source, Advance(at, e), patch, k + 1).value.0;
      }
    }
  }

  // Replace source[start..start + |Old(edits)|] by New(edits).
  datatype Hunk = Hunk(start: nat, edits: seq<Edit>)

  function End(hunk: Hunk): nat { hunk.start + |Old(hunk.edits)| }

  // The hunk is past what was consumed and its old side is what the source holds there.
  ghost predicate Sits(source: seq<string>, at: nat, hunk: Hunk) {
    at <= hunk.start && End(hunk) <= |source| && source[hunk.start..End(hunk)] == Old(hunk.edits)
  }

  // The hunk a header announces, its body starting at patch[k], and the line after the body.
  function HunkUnder(h: Header, source: seq<string>, at: nat, patch: seq<string>, k: nat): (r: Result<(Hunk, nat)>)
    requires k <= |patch|
    ensures r.Ok? ==> Sits(source, at, r.value.0) && k <= r.value.1 <= |patch|
  {
    var start := HunkStart(h);
    if start < at || start > |source| then Err(OutOfOrder)
    else
      var body := ReadBody(source, start, patch, k);
      if body.Err? then Err(body.error)
      else
        var edits := body.value.0;
        BodyMatches(source, start, patch, k);
        if |Old(edits)| != h.oldCount || |New(edits)| != h.newCount then Err(CountMismatch)
        else Ok((Hunk(start, edits), body.value.1))
  }

  function ReadHunk(source: seq<string>, at: nat, patch: seq<string>, k: nat): (r: Result<(Hunk, nat)>)
    requires k < |patch| && StartsWith(TrimEol(patch[k]), "@@ ")
    ensures r.Ok? ==> Sits(source, at, r.value.0) && k < r.value.1 <= |patch|
  {
    var header := ParseHeader(TrimEol(patch[k]));
    if header.Err? then Err(header.error) else HunkUnder(header.value, source, at, patch, k + 1)
  }

  // What is still to be written once source[..at] is consumed and the patch read up to line k.
  function ApplyFrom(source: seq<string>, at: nat, patch: seq<string>, k: nat, saw: bool): Result<seq<string>>
    requires at <= |source| && k <= |patch|
    decreases |patch| - k
  {
    if k == |patch| then if saw then Ok(source[at..]) else Err(NoHunks)
    else if !StartsWith(TrimEol(patch[k]), "@@ ") then ApplyFrom(source, at, patch, k + 1, saw)
    else
      var read := ReadHunk(source, at, patch, k);
      if read.Err? then Err(read.error)
      else
        var (hunk, end) := read.value;
        var rest := ApplyFrom(source, End(hunk), patch, end, true);
        if rest.Err? then rest else Ok(source[at..hunk.start] + New(hunk.edits) + rest.value)
  }

  // ---------------------------------------------------------------- the loops

  // match_source_line
  method MatchSourceLine(source: seq<string>, index: nat, expected: string) returns (r: Result<()>)
    ensures r == if index >= |source| then Err(PastEnd)
                 else if source[index] != expected then Err(Mismatch) else Ok(())
  {
    if index < |source| {
      if source[index] == expected {
        return Ok(());
      }
      return Err(Mismatch);
    }
    return Err(PastEnd);
  }

  // One line of the inner loop: its marker, and for an old line the match against the source.
  method ReadLine(source: seq<string>, at: nat, line: string) returns (r: Result<Option<Edit>>)
    ensures r == ReadEdit(source, at, line)
  {
    if StartsWith(line, "@@ ") {
      return Ok(None);
    }
    if line == "" {
      return Err(EmptyLine);
    }
    if line[0] as int >= 0x80 {
      return Err(CharBoundary);
    }
    var body := line[1..];
    match line[0] {
      case ' ' =>
        var matched := MatchSourceLine(source, at, body);
        if matched.Err? {
          return Err(matched.error);
        }
        return Ok(Some(Keep(body)));
      case '-' =>
        var matched := MatchSourceLine(source, at, body);
        if matched.Err? {
          return Err(matched.error);
        }
        return Ok(Some(Drop(body)));
      case '+' => return Ok(Some(Add(body)));
      case '\\' => return Err(NoNewline);
      case _ => return Ok(None);
    }
  }

  // The inner loop: the body of one hunk.
  method ApplyBody(source: seq<string>, start: nat, patch: seq<string>, first: nat)
    returns (r: Result<(nat, nat, seq<string>, nat, nat)>) // source cursor, patch cursor, output, counts
    requires first <= |patch| && start <= |source|
    ensures var body := ReadBody(source, start, patch, first);
      if body.Err? then r == Err(body.error)
      else var (edits, end) := body.value;
        r == Ok((start + |Old(edits)|, end, New(edits), |Old(edits)|, |New(edits)|))
  {
    var at, k := start, first;
    var output: seq<string> := [];
    var oldSeen, newSeen := 0, 0;
    while k < |patch|
      invariant first <= k <= |patch| && at == start + oldSeen && newSeen == |output|
      invariant Rest(source, start, patch, first, at, k, oldSeen, output)
    {
      RestStep(source, start, patch, first, at, k, oldSeen, output);
      var read := ReadLine(source, at, patch[k]);
      if read.Err? {
        return Err(read.error);
      }
      if read.value.None? {
        break;
      }
      var edit := read.value.value;
      if !edit.Drop? {
        output := output + [edit.line];
        newSeen := newSeen + 1;
      }
      if !edit.Add? {
        at, oldSeen := at + 1, oldSeen + 1;
      }
      k := k + 1;
    }
    RestStep(source, start, patch, first, at, k, oldSeen, output);
    return Ok((at, k, output, oldSeen, newSeen));
  }

  // What was read so far and what ReadBody says of the rest make up the whole body.
  ghost predicate Rest(source: seq<string>, start: nat, patch: seq<string>, first: nat, at: nat, k: nat,
                       oldSeen: nat, output: seq<string>)
    requires first <= |patch| && k <= |patch|
  {
    var body, rest := ReadBody(source, start, patch, first), ReadBody(source, at, patch, k);
    if rest.Err? then body == Err(rest.error)
    else body.Ok? && body.value.1 == rest.value.1
         && |Old(body.value.0)| == oldSeen + |Old(rest.value.0)|
         && New(body.value.0) == output + New(rest.value.0)
  }

  lemma RestStep(source: seq<string>, start: nat, patch: seq<string>, first: nat, at: nat, k: nat,
                 oldSeen: nat, output: seq<string>)
    requires first <= |patch| && k <= |patch| && Rest(source, start, patch, first, at, k, oldSeen, output)
    ensures k < |patch| ==>
              var edit := ReadEdit(source, at, patch[k]);
              var body := ReadBody(source, start, patch, first);
              && (edit.Err? ==> body == Err(edit.error))
              && (edit.Ok? && edit.value.Some? ==>
                    var e := edit.value.value;
                    Rest(source, start, patch, first, Advance(at, e), k + 1,
                         if e.Add? then oldSeen else oldSeen + 1, if e.Drop? then output else output + [e.line]))
    ensures k == |patch| || ReadEdit(source, at, patch[k]) == Ok(None) ==>
              var body := ReadBody(source, start, patch, first);
              body.Ok? && body.value.1 == k && |Old(body.value.0)| == oldSeen && New(body.value.0) == output
  {
    if k < |patch| {
      var edit := ReadEdit(source, at, patch[k]);
      if edit.Ok? && edit.value.Some? {
        var e := edit.value.value;
        var more := ReadBody(source, Advance(at, e), patch, k + 1);
        if more.Ok? {
          var edits := more.value.0;
          assert ([e] + edits)[1..] == edits;
          assert output + New([e] + edits) == (if e.Drop? then output else output + [e.line]) + New(edits);
        }
      }
    }
  }

  // One round of the outer loop under a header: cursors, copied and new lines.
  method ApplyHunk(h: Header, source: seq<string>, at: nat, patch: seq<string>, k: nat)
    returns (r: Result<(nat, nat, seq<string>)>)
    requires at <= |source| && k <= |patch|
    ensures var read := HunkUnder(h, source, at, patch, k);
      if read.Err? then r == Err(read.error)
      else var (hunk, end) := read.value; r == Ok((End(hunk), end, source[at..hunk.start] + New(hunk.edits)))
  {
    var start := HunkStart(h);
    if start < at || start > |source| {
      return Err(OutOfOrder);
    }
    var body := ApplyBody(source, start, patch, k);
    if body.Err? {
      return Err(body.error);
    }
    var (next, end, text, oldSeen, newSeen) := body.value;
    if oldSeen != h.oldCount || newSeen != h.newCount {
      return Err(CountMismatch);
    }
    return Ok((next, end, source[at..start] + text));
  }

  // What was written so far and what ApplyFrom says of the rest make up the whole.
  ghost predicate Ahead(source: seq<string>, patch: seq<string>, at: nat, k: nat, saw: bool, output: seq<string>)
    requires at <= |source| && k <= |patch|
  {
    var whole, rest := ApplyFrom(source, 0, patch, 0, false), ApplyFrom(source, at, patch, k, saw);
    if rest.Err? then whole == rest else whole == Ok(output + rest.value)
  }

  lemma AheadStep(source: seq<string>, patch: seq<string>, at: nat, k: nat, saw: bool, output: seq<string>)
    requires at <= |source| && k < |patch| && Ahead(source, patch, at, k, saw, output)
    requires StartsWith(TrimEol(patch[k]), "@@ ")
    ensures var read := ReadHunk(source, at, patch, k);
      if read.Err? then ApplyFrom(source, 0, patch, 0, false) == Err(read.error)
      else
        var (hunk, end) := read.value;
        Ahead(source, patch, End(hunk), end, true, output + (source[at..hunk.start] + New(hunk.edits)))
  {
    var read := ReadHunk(source, at, patch, k);
    if read.Ok? {
      var (hunk, end) := read.value;
      var rest := ApplyFrom(source, End(hunk), patch, end, true);
      if rest.Ok? {
        var text := source[at..hunk.start] + New(hunk.edits);
        assert output + (text + rest.value) == (output + text) + rest.value;
      }
    }
  }

  // The outer loop, on lines.
  method ApplyLines(source: seq<string>, patch: seq<string>) returns (r: Result<seq<string>>)
    ensures r == ApplyFrom(source, 0, patch, 0, false)
  {
    var output: seq<string> := [];
    var at, k, saw := 0, 0, false;
    assert Ahead(source, patch, 0, 0, false, []) by {
      var whole := ApplyFrom(source, 0, patch, 0, false);
      if whole.Ok? { assert [] + whole.value == whole.value; }
    }
    while k < |patch|
      invariant at <= |source| && k <= |patch|
      invariant Ahead(source, patch, at, k, saw, output)
      decreases |patch| - k
    {
      if !StartsWith(TrimEol(patch[k]), "@@ ") {
        k := k + 1;
        continue;
      }
      AheadStep(source, patch, at, k, saw, output);
      var header := ParseHeader(TrimEol(patch[k]));
      if header.Err? {
        return Err(header.error);
      }
      var read := ApplyHunk(header.value, source, at, patch, k + 1);
      if read.Err? {
        return Err(read.error);
      }
      var (next, end, text) := read.value;
      output := output + text;
      at, k, saw := next, end, true;
    }
    if !saw {
      return Err(NoHunks);
    }
    return Ok(output + source[at..]);
  }

  function Apply(source: string, patch: string): Result<string> {
    var lines := ApplyFrom(Lines(source), 0, Lines(patch), 0, false);
    if lines.Err? then Err(lines.error) else Ok(Join(lines.value))
  }

  /** apply_unified_diff */
  method ApplyUnifiedDiff(source: string, patch: string) returns (r: Result<string>)
    ensures r == Apply(source, patch)
  {
    var lines := ApplyLines(Lines(source), Lines(patch));
    if lines.Err? {
      return Err(lines.error);
    }
    return Ok(Join(lines.value));
  }
}
