/** Every RFC 8259 text of a value is read back as that value, unless a string in it holds a surrogate escape: then
    it is refused. */
module JsonTheorems {
  import opened Options
  import opened Text
  import opened Json

  // ---------------------------------------------------------------- texts, section 7 of RFC 8259

  // How one character of a string is written: as itself, with a short escape, with a \u escape or with two of them,
  // a surrogate pair.  The grammar also allows a surrogate on its own, which stands for no character.
  datatype Spelling =
    | Raw(c: char) | Short(letter: char) | Hex(digits: string) | Pair(high: string, low: string) | Lone(half: string)

  // Which spellings a text uses: all that the grammar allows, those that stand for characters, or those without
  // surrogates.
  datatype Style = Any | Meant | Plain

  function Code(digits: string): Option<nat> { if |digits| == 4 then HexDigits(digits) else None }

  predicate IsHigh(code: Option<nat>) { code.Some? && 0xD800 <= code.value < 0xDC00 }

  predicate IsLow(code: Option<nat>) { code.Some? && 0xDC00 <= code.value < 0xE000 }

  ghost predicate SpellingOk(sp: Spelling, style: Style) {
    match sp
    case Raw(c) => c != '"' && c != '\\' && c as int >= 0x20
    case Short(letter) => letter in {'"', '\\', '/', 'b', 'f', 'n', 'r', 't'}
    case Hex(digits) => Code(digits).Some? && !IsSurrogate(Code(digits).value)
    case Pair(high, low) => !style.Plain? && IsHigh(Code(high)) && IsLow(Code(low))
    case Lone(half) => style.Any? && (IsHigh(Code(half)) || IsLow(Code(half)))
  }

  function SpellingText(sp: Spelling): string {
    match sp
    case Raw(c) => [c]
    case Short(letter) => ['\\', letter]
    case Hex(digits) => ['\\', 'u'] + digits
    case Pair(high, low) => ['\\', 'u'] + high + (['\\', 'u'] + low)
    case Lone(half) => ['\\', 'u'] + half
  }

  // Section 7's table of short escapes.
  function ShortMeaning(letter: char): char {
    match letter
    case 'b' => 8 as char
    case 'f' => 12 as char
    case 'n' => 10 as char
    case 'r' => 13 as char
    case 't' => 9 as char
    case _ => letter
  }

  // The code point a surrogate pair stands for.
  function PairMeaning(high: nat, low: nat): char
    requires 0xD800 <= high < 0xDC00 && 0xDC00 <= low < 0xE000
  {
    (0x1_0000 + (high - 0xD800) * 0x400 + (low - 0xDC00)) as char
  }

  ghost function SpellingMeaning(sp: Spelling): char
    requires SpellingOk(sp, Meant)
  {
    match sp
    case Raw(c) => c
    case Short(letter) => ShortMeaning(letter)
    case Hex(digits) => Code(digits).value as char
    case Pair(high, low) => PairMeaning(Code(high).value, Code(low).value)
  }

  ghost predicate AllSpellingsOk(sps: seq<Spelling>, style: Style) {
    forall i | 0 <= i < |sps| :: SpellingOk(sps[i], style)
  }

  function SpellingsText(sps: seq<Spelling>): string {
    if sps == [] then "" else SpellingText(sps[0]) + SpellingsText(sps[1..])
  }

  ghost function SpellingsMeaning(sps: seq<Spelling>): string
    requires AllSpellingsOk(sps, Meant)
  {
    if sps == [] then "" else [SpellingMeaning(sps[0])] + SpellingsMeaning(sps[1..])
  }

  lemma DigitsHaveNoPlus(digits: string)
    requires Code(digits).Some?
    ensures digits[0] != '+' && HexCode(digits) == Code(digits)
  {
    assert HexDigits(digits[..3]).Some? && HexDigits(digits[..3][..2]).Some? && HexDigits(digits[..3][..2][..1]).Some?;
    assert digits[..3][..2][..1][0] == digits[0];
  }

  // A \u escape is taken as the character of its code, and refused if there is none.
  lemma EscapeReads(digits: string, rest: string)
    requires Code(digits).Some?
    ensures NextPiece(['\\', 'u'] + digits + rest)
            == if IsSurrogate(Code(digits).value) then Err(BadCodePoint) else Ok(Piece(Code(digits).value as char, 6))
  {
    var s := ['\\', 'u'] + digits + rest;
    DigitsHaveNoPlus(digits);
    assert s[2..6] == digits;
  }

  lemma PieceReads(sp: Spelling, rest: string)
    requires SpellingOk(sp, Plain)
    ensures NextPiece(SpellingText(sp) + rest) == Ok(Piece(SpellingMeaning(sp), |SpellingText(sp)|))
  {
    if sp.Hex? { EscapeReads(sp.digits, rest); }
  }

  lemma PieceFails(sp: Spelling, rest: string)
    requires SpellingOk(sp, Any) && !SpellingOk(sp, Plain)
    ensures NextPiece(SpellingText(sp) + rest) == Err(BadCodePoint)
  {
    if sp.Pair? {
      var more := ['\\', 'u'] + sp.low + rest;
      assert SpellingText(sp) + rest == ['\\', 'u'] + sp.high + more;
      EscapeReads(sp.high, more);
    } else {
      EscapeReads(sp.half, rest);
    }
  }

  predicate Widens(style: Style, wider: Style) { style.Plain? || wider.Any? || style == wider }

  lemma SpellingsWiden(sps: seq<Spelling>, style: Style, wider: Style)
    requires AllSpellingsOk(sps, style) && Widens(style, wider)
    ensures AllSpellingsOk(sps, wider)
  {
    forall i | 0 <= i < |sps| ensures SpellingOk(sps[i], wider) { assert SpellingOk(sps[i], style); }
  }

  // What the reader makes of a string after its opening quote.
  ghost predicate ReadsString(sps: seq<Spelling>, rest: string, out: string) {
    var r := StringFrom(SpellingsText(sps) + "\"" + rest, out);
    if AllSpellingsOk(sps, Plain) then AllSpellingsOk(sps, Meant) && r == Ok((out + SpellingsMeaning(sps), rest))
    else r == Err(BadCodePoint)
  }

  lemma FirstSpelling(sps: seq<Spelling>, style: Style)
    requires sps != []
    ensures AllSpellingsOk(sps, style) <==> SpellingOk(sps[0], style) && AllSpellingsOk(sps[1..], style)
  {
    if SpellingOk(sps[0], style) && AllSpellingsOk(sps[1..], style) {
      forall i | 0 <= i < |sps| ensures SpellingOk(sps[i], style) {
        if i > 0 { assert SpellingOk(sps[1..][i - 1], style); }
      }
    }
  }

  lemma StringStep(sp: Spelling, more: string, out: string)
    requires SpellingOk(sp, Plain)
    ensures StringFrom(SpellingText(sp) + more, out) == StringFrom(more, out + [SpellingMeaning(sp)])
  {
    PieceReads(sp, more);
    assert (SpellingText(sp) + more)[|SpellingText(sp)|..] == more;
  }

  lemma TextStep(sps: seq<Spelling>, rest: string)
    requires sps != []
    ensures SpellingsText(sps) + "\"" + rest == SpellingText(sps[0]) + (SpellingsText(sps[1..]) + "\"" + rest)
  {
    var first, more := SpellingText(sps[0]), SpellingsText(sps[1..]);
    assert SpellingsText(sps) == first + more;
    assert (first + more) + "\"" + rest == first + (more + "\"" + rest);
  }

  lemma PieceThenRest(sps: seq<Spelling>, rest: string, out: string, c: char)
    requires sps != [] && SpellingOk(sps[0], Plain) && SpellingMeaning(sps[0]) == c
    requires ReadsString(sps[1..], rest, out + [c])
    ensures ReadsString(sps, rest, out)
  {
    TextStep(sps, rest);
    StringStep(sps[0], SpellingsText(sps[1..]) + "\"" + rest, out);
    FirstSpelling(sps, Plain);
    if AllSpellingsOk(sps, Plain) {
      SpellingsWiden(sps, Plain, Meant);
      MeaningStep(sps, out, c);
    }
  }

  lemma MeaningStep(sps: seq<Spelling>, out: string, c: char)
    requires sps != [] && AllSpellingsOk(sps, Meant) && SpellingMeaning(sps[0]) == c
    ensures (out + [c]) + SpellingsMeaning(sps[1..]) == out + SpellingsMeaning(sps)
  {
    var more := SpellingsMeaning(sps[1..]);
    assert (out + [c]) + more == out + ([c] + more);
  }

  lemma FirstFails(sps: seq<Spelling>, rest: string, out: string)
    requires sps != [] && SpellingOk(sps[0], Any) && !SpellingOk(sps[0], Plain)
    ensures ReadsString(sps, rest, out)
  {
    TextStep(sps, rest);
    PieceFails(sps[0], SpellingsText(sps[1..]) + "\"" + rest);
  }

  /** Every spelling of a string is read as its meaning, unless it holds a surrogate escape: then it is refused. */
  lemma {:induction false} StringReads(sps: seq<Spelling>, rest: string, out: string)
    requires AllSpellingsOk(sps, Any)
    ensures ReadsString(sps, rest, out)
    decreases |sps|
  {
    if sps == [] {
      var s := SpellingsText(sps) + "\"" + rest;
      assert s == "\"" + rest && s[1..] == rest;
      assert out + SpellingsMeaning(sps) == out;
    } else if SpellingOk(sps[0], Plain) {
      var c := SpellingMeaning(sps[0]);
      StringReads(sps[1..], rest, out + [c]);
      PieceThenRest(sps, rest, out, c);
    } else {
      FirstFails(sps, rest, out);
    }
  }

  // ---------------------------------------------------------------- whitespace and numbers

  ghost predicate Blank(ws: string) {
    forall i | 0 <= i < |ws| :: ws[i] in {' ', '\t', '\n', '\r'}
  }

  lemma {:induction false} BlankSkips(ws: string, rest: string)
    requires Blank(ws)
    ensures SkipSpace(ws + rest) == SkipSpace(rest)
  {
    if ws == "" {
      assert ws + rest == rest;
    } else {
      assert (ws + rest)[1..] == ws[1..] + rest;
      BlankSkips(ws[1..], rest);
    }
  }

  ghost predicate NumberText<F>(literal: string, number: NumberParser<F>) {
    literal != "" && number(literal).Some? && forall i | 0 <= i < |literal| :: NumberChar(literal[i])
  }

  // What may follow a value: the end, or a character no number contains.
  ghost predicate Ends(rest: string) { rest == "" || !NumberChar(rest[0]) }

  lemma {:induction false} NumberEnds(literal: string, rest: string)
    requires (forall i | 0 <= i < |literal| :: NumberChar(literal[i])) && Ends(rest)
    ensures NumberLength(literal + rest) == |literal|
  {
    if literal == "" {
      assert literal + rest == rest;
    } else {
      assert (literal + rest)[1..] == literal[1..] + rest;
      NumberEnds(literal[1..], rest);
    }
  }

  // ---------------------------------------------------------------- documents

  // A text of a value, with every choice its writer had.
  datatype Doc =
    | DNull
    | DBool(b: bool)
    | DNumber(literal: string)
    | DString(chars: seq<Spelling>)
    | DArray(blank: string, items: seq<Item>)
    | DObject(gap: string, members: seq<Member>)

  datatype Item = Item(before: string, doc: Doc, after: string)

  datatype Member = Member(
    lead: string, key: seq<Spelling>, beforeColon: string, afterColon: string, value: Doc, trail: string)

  // The document's text, followed by `tail`.
  function DocText(d: Doc, tail: string): string
    decreases d
  {
    match d
    case DNull => "null" + tail
    case DBool(b) => (if b then "true" else "false") + tail
    case DNumber(literal) => literal + tail
    case DString(chars) => "\"" + (SpellingsText(chars) + "\"" + tail)
    case DArray(blank, items) => "[" + (if items == [] then blank + ("]" + tail) else ItemsText(items, "]" + tail))
    case DObject(gap, members) => "{" + (if members == [] then gap + ("}" + tail) else MembersText(members, "}" + tail))
  }

  function ItemsText(items: seq<Item>, tail: string): string
    requires items != []
    decreases items
  {
    var next := if |items| == 1 then tail else "," + ItemsText(items[1..], tail);
    items[0].before + DocText(items[0].doc, items[0].after + next)
  }

  function MembersText(members: seq<Member>, tail: string): string
    requires members != []
    decreases members
  {
    var m := members[0];
    var next := if |members| == 1 then tail else "," + MembersText(members[1..], tail);
    m.lead + ("\"" + (SpellingsText(m.key) + "\"" + ColonText(m, next)))
  }

  function ColonText(m: Member, next: string): string
    decreases m
  {
    m.beforeColon + (":" + (m.afterColon + DocText(m.value, m.trail + next)))
  }

  ghost predicate DocOk<F>(d: Doc, number: NumberParser<F>, style: Style)
    decreases d
  {
    match d
    case DNull => true
    case DBool(_) => true
    case DNumber(literal) => NumberText(literal, number)
    case DString(chars) => AllSpellingsOk(chars, style)
    case DArray(blank, items) => Blank(blank) && ItemsOk(items, number, style)
    case DObject(gap, members) => Blank(gap) && MembersOk(members, number, style)
  }

  ghost predicate ItemsOk<F>(items: seq<Item>, number: NumberParser<F>, style: Style)
    decreases items
  {
    items == [] ||
    var it := items[0];
    Blank(it.before) && DocOk(it.doc, number, style) && Blank(it.after) && ItemsOk(items[1..], number, style)
  }

  // The whitespace of a member.
  ghost predicate Spaced(m: Member) { Blank(m.lead) && Blank(m.beforeColon) && Blank(m.afterColon) && Blank(m.trail) }

  ghost predicate MembersOk<F>(members: seq<Member>, number: NumberParser<F>, style: Style)
    decreases members
  {
    members == [] ||
    var m := members[0];
    Spaced(m) && AllSpellingsOk(m.key, style) && DocOk(m.value, number, style) && MembersOk(members[1..], number, style)
  }

  lemma {:induction false} DocWidens<F>(d: Doc, number: NumberParser<F>, style: Style, wider: Style)
    requires DocOk(d, number, style) && Widens(style, wider)
    ensures DocOk(d, number, wider)
    decreases d
  {
    match d
    case DString(chars) => SpellingsWiden(chars, style, wider);
    case DArray(_, items) => ItemsWiden(items, number, style, wider);
    case DObject(_, members) => MembersWiden(members, number, style, wider);
    case _ =>
  }

  lemma {:induction false} ItemsWiden<F>(items: seq<Item>, number: NumberParser<F>, style: Style, wider: Style)
    requires ItemsOk(items, number, style) && Widens(style, wider)
    ensures ItemsOk(items, number, wider)
    decreases items
  {
    if items != [] {
      DocWidens(items[0].doc, number, style, wider);
      ItemsWiden(items[1..], number, style, wider);
    }
  }

  lemma {:induction false} MembersWiden<F>(members: seq<Member>, number: NumberParser<F>, style: Style, wider: Style)
    requires MembersOk(members, number, style) && Widens(style, wider)
    ensures MembersOk(members, number, wider)
    decreases members
  {
    if members != [] {
      SpellingsWiden(members[0].key, style, wider);
      DocWidens(members[0].value, number, style, wider);
      MembersWiden(members[1..], number, style, wider);
    }
  }

  ghost function Meaning<F>(d: Doc, number: NumberParser<F>): Value<F>
    requires DocOk(d, number, Meant)
    decreases d
  {
    match d
    case DNull => Null
    case DBool(b) => Bool(b)
    case DNumber(literal) => Number(number(literal).value)
    case DString(chars) => Str(SpellingsMeaning(chars))
    case DArray(_, items) => Array(ItemsMeaning(items, number))
    case DObject(_, members) => Object(MembersMeaning(members, number))
  }

  ghost function ItemsMeaning<F>(items: seq<Item>, number: NumberParser<F>): seq<Value<F>>
    requires ItemsOk(items, number, Meant)
    decreases items
  {
    if items == [] then [] else [Meaning(items[0].doc, number)] + ItemsMeaning(items[1..], number)
  }

  ghost function MembersMeaning<F>(members: seq<Member>, number: NumberParser<F>): seq<(string, Value<F>)>
    requires MembersOk(members, number, Meant)
    decreases members
  {
    if members == [] then []
    else [(SpellingsMeaning(members[0].key), Meaning(members[0].value, number))] + MembersMeaning(members[1..], number)
  }

  // ---------------------------------------------------------------- reading documents

  // A value starts with a character that is no space, comma or closing bracket.
  lemma DocHead<F>(d: Doc, tail: string, number: NumberParser<F>)
    requires DocOk(d, number, Any)
    ensures DocText(d, tail) != "" && !IsSpace(DocText(d, tail)[0])
    ensures DocText(d, tail)[0] != ']' && DocText(d, tail)[0] != ','
  {
    match d
    case DNumber(literal) => assert DocText(d, tail)[0] == literal[0];
    case _ =>
  }

  // What the reader makes of a document's text: its meaning, or a refusal if it holds a surrogate escape.
  ghost predicate Reads<F>(d: Doc, tail: string, number: NumberParser<F>) {
    var r := ParseValue(DocText(d, tail), number);
    if DocOk(d, number, Plain) then DocOk(d, number, Meant) && r == Ok((Meaning(d, number), tail))
    else r == Err(BadCodePoint)
  }

  lemma ValueSkips<F>(ws: string, s: string, number: NumberParser<F>)
    requires Blank(ws)
    ensures ParseValue(ws + s, number) == ParseValue(s, number)
  {
    BlankSkips(ws, s);
  }

  lemma ArraySkips<F>(ws: string, s: string, items: seq<Value<F>>, number: NumberParser<F>)
    requires Blank(ws)
    ensures ArrayFrom(ws + s, items, number) == ArrayFrom(s, items, number)
  {
    BlankSkips(ws, s);
  }

  lemma ObjectSkips<F>(ws: string, s: string, entries: seq<(string, Value<F>)>, number: NumberParser<F>)
    requires Blank(ws)
    ensures ObjectFrom(ws + s, entries, number) == ObjectFrom(s, entries, number)
  {
    BlankSkips(ws, s);
  }

  lemma BlankEnds(ws: string, next: string)
    requires Blank(ws) && Ends(next)
    ensures Ends(ws + next)
  {
    if ws == "" { assert ws + next == next; }
  }

  lemma StringDocReads<F>(d: Doc, tail: string, number: NumberParser<F>)
    requires d.DString? && AllSpellingsOk(d.chars, Any)
    ensures Reads(d, tail, number)
  {
    var s := DocText(d, tail);
    assert SkipSpace(s) == s && s[0] == '"';
    assert s[1..] == SpellingsText(d.chars) + "\"" + tail;
    StringReads(d.chars, tail, "");
    if AllSpellingsOk(d.chars, Plain) { assert "" + SpellingsMeaning(d.chars) == SpellingsMeaning(d.chars); }
  }

  lemma SimpleReads<F>(d: Doc, tail: string, number: NumberParser<F>)
    requires DocOk(d, number, Any) && Ends(tail) && (d.DNull? || d.DBool? || d.DNumber?)
    ensures Reads(d, tail, number)
  {
    var s := DocText(d, tail);
    DocHead(d, tail, number);
    assert SkipSpace(s) == s;
    match d
    case DNull => assert s[4..] == tail;
    case DBool(b) => assert s[if b then 4 else 5..] == tail;
    case DNumber(literal) => NumberDocReads(literal, tail, number);
  }

  lemma NumberDocReads<F>(literal: string, tail: string, number: NumberParser<F>)
    requires NumberText(literal, number) && Ends(tail)
    ensures ParseNumber(literal + tail, number) == Ok((Number(number(literal).value), tail))
  {
    NumberEnds(literal, tail);
    assert (literal + tail)[..|literal|] == literal && (literal + tail)[|literal|..] == tail;
  }

  lemma {:induction false} DocReads<F>(d: Doc, tail: string, number: NumberParser<F>)
    requires DocOk(d, number, Any) && Ends(tail)
    ensures Reads(d, tail, number)
    decreases d
  {
    match d
    case DString(_) => StringDocReads(d, tail, number);
    case DArray(blank, items) =>
      if items != [] { ItemsRead(items, tail, [], number); }
      ArrayDocReads(d, tail, number);
    case DObject(gap, members) =>
      if members != [] { MembersRead(members, tail, [], number); }
      ObjectDocReads(d, tail, number);
    case _ => SimpleReads(d, tail, number);
  }

  lemma ArrayDocReads<F>(d: Doc, tail: string, number: NumberParser<F>)
    requires d.DArray? && Blank(d.blank) && (d.items != [] ==> ReadsItems(d.items, tail, [], number))
    ensures Reads(d, tail, number)
  {
    var s := DocText(d, tail);
    assert SkipSpace(s) == s && s[0] == '[';
    if d.items == [] {
      assert s[1..] == d.blank + ("]" + tail);
      ArraySkips(d.blank, "]" + tail, [], number);
      ArrayEnds(tail, [], number);
      assert ItemsOk(d.items, number, Plain) && ItemsOk(d.items, number, Meant);
      assert ItemsMeaning(d.items, number) == [];
    } else {
      assert s[1..] == ItemsText(d.items, "]" + tail);
      if ItemsOk(d.items, number, Plain) { assert [] + ItemsMeaning(d.items, number) == ItemsMeaning(d.items, number); }
    }
  }

  lemma ObjectDocReads<F>(d: Doc, tail: string, number: NumberParser<F>)
    requires d.DObject? && Blank(d.gap) && (d.members != [] ==> ReadsMembers(d.members, tail, [], number))
    ensures Reads(d, tail, number)
  {
    var s := DocText(d, tail);
    assert SkipSpace(s) == s && s[0] == '{';
    if d.members == [] {
      assert s[1..] == d.gap + ("}" + tail);
      ObjectSkips(d.gap, "}" + tail, [], number);
      ObjectEnds(tail, [], number);
      assert MembersOk(d.members, number, Plain) && MembersOk(d.members, number, Meant);
      assert MembersMeaning(d.members, number) == [];
    } else {
      assert s[1..] == MembersText(d.members, "}" + tail);
      if MembersOk(d.members, number, Plain) {
        assert [] + MembersMeaning(d.members, number) == MembersMeaning(d.members, number);
      }
    }
  }

  lemma ArrayEnds<F>(tail: string, items: seq<Value<F>>, number: NumberParser<F>)
    ensures ArrayFrom("]" + tail, items, number) == Ok((Array(items), tail))
  {
    assert ("]" + tail)[1..] == tail;
    assert SkipSpace("]" + tail) == "]" + tail;
  }

  lemma ObjectEnds<F>(tail: string, entries: seq<(string, Value<F>)>, number: NumberParser<F>)
    ensures ObjectFrom("}" + tail, entries, number) == Ok((Object(entries), tail))
  {
    assert ("}" + tail)[1..] == tail;
    assert SkipSpace("}" + tail) == "}" + tail;
  }

  lemma ArrayComma<F>(s: string, items: seq<Value<F>>, number: NumberParser<F>)
    ensures ArrayFrom("," + s, items, number) == ArrayFrom(s, items, number)
  {
    assert ("," + s)[1..] == s;
    assert SkipSpace("," + s) == "," + s;
  }

  lemma ObjectComma<F>(s: string, entries: seq<(string, Value<F>)>, number: NumberParser<F>)
    ensures ObjectFrom("," + s, entries, number) == ObjectFrom(s, entries, number)
  {
    assert ("," + s)[1..] == s;
    assert SkipSpace("," + s) == "," + s;
  }

  // An item where one is expected is appended, and its refusal is the array's.
  lemma ArrayTakes<F>(d: Doc, tail: string, items: seq<Value<F>>, number: NumberParser<F>)
    requires DocOk(d, number, Any)
    ensures var r := ParseValue(DocText(d, tail), number);
      ArrayFrom(DocText(d, tail), items, number)
      == if r.Err? then Err(r.error) else ArrayFrom(r.value.1, items + [r.value.0], number)
  {
    DocHead(d, tail, number);
    assert SkipSpace(DocText(d, tail)) == DocText(d, tail);
  }

  lemma ItemStep<F>(it: Item, next: string, done: seq<Value<F>>, number: NumberParser<F>)
    requires Blank(it.before) && Blank(it.after) && DocOk(it.doc, number, Any) && Reads(it.doc, it.after + next, number)
    ensures ArrayFrom(it.before + DocText(it.doc, it.after + next), done, number)
            == if !DocOk(it.doc, number, Plain) then Err(BadCodePoint)
               else ArrayFrom(next, done + [Meaning(it.doc, number)], number)
  {
    ArraySkips(it.before, DocText(it.doc, it.after + next), done, number);
    ArrayTakes(it.doc, it.after + next, done, number);
    if DocOk(it.doc, number, Plain) { ArraySkips(it.after, next, done + [Meaning(it.doc, number)], number); }
  }

  ghost predicate ReadsItems<F>(items: seq<Item>, tail: string, done: seq<Value<F>>, number: NumberParser<F>)
    requires items != []
  {
    var r := ArrayFrom(ItemsText(items, "]" + tail), done, number);
    if ItemsOk(items, number, Plain) then
      ItemsOk(items, number, Meant) && r == Ok((Array(done + ItemsMeaning(items, number)), tail))
    else r == Err(BadCodePoint)
  }

  lemma {:induction false} ItemsRead<F>(items: seq<Item>, tail: string, done: seq<Value<F>>, number: NumberParser<F>)
    requires items != [] && ItemsOk(items, number, Any)
    ensures ReadsItems(items, tail, done, number)
    decreases items
  {
    var it := items[0];
    var next := if |items| == 1 then "]" + tail else "," + ItemsText(items[1..], "]" + tail);
    BlankEnds(it.after, next);
    DocReads(it.doc, it.after + next, number);
    ItemStep(it, next, done, number);
    if DocOk(it.doc, number, Plain) {
      var m := Meaning(it.doc, number);
      if |items| == 1 {
        LastItem(items, tail, done, number);
      } else {
        ArrayComma(ItemsText(items[1..], "]" + tail), done + [m], number);
        ItemsRead(items[1..], tail, done + [m], number);
        if ItemsOk(items, number, Plain) {
          assert (done + [m]) + ItemsMeaning(items[1..], number) == done + ([m] + ItemsMeaning(items[1..], number));
        }
      }
    }
  }

  lemma LastItem<F>(items: seq<Item>, tail: string, done: seq<Value<F>>, number: NumberParser<F>)
    requires |items| == 1 && ItemsOk(items, number, Plain) && DocOk(items[0].doc, number, Meant)
    requires ArrayFrom(ItemsText(items, "]" + tail), done, number)
             == ArrayFrom("]" + tail, done + [Meaning(items[0].doc, number)], number)
    ensures ReadsItems(items, tail, done, number)
  {
    var m := Meaning(items[0].doc, number);
    ArrayEnds(tail, done + [m], number);
    assert items[1..] == [];
    assert ItemsMeaning(items, number) == [m];
  }

  // What the reader makes of the text behind a key.
  lemma ColonReads<F>(m: Member, next: string, number: NumberParser<F>)
    requires Spaced(m)
    ensures var u := SkipSpace(m.beforeColon + (":" + (m.afterColon + DocText(m.value, next))));
      u != "" && u[0] == ':' && ParseValue(u[1..], number) == ParseValue(DocText(m.value, next), number)
  {
    var after := m.afterColon + DocText(m.value, next);
    BlankSkips(m.beforeColon, ":" + after);
    assert SkipSpace(":" + after) == ":" + after && (":" + after)[1..] == after;
    ValueSkips(m.afterColon, DocText(m.value, next), number);
  }

  // A key and a value without surrogate escapes.
  ghost predicate PlainMember<F>(m: Member, number: NumberParser<F>) {
    AllSpellingsOk(m.key, Plain) && DocOk(m.value, number, Plain)
  }

  ghost predicate MeantMember<F>(m: Member, number: NumberParser<F>) {
    AllSpellingsOk(m.key, Meant) && DocOk(m.value, number, Meant)
  }

  ghost function EntryOf<F>(m: Member, number: NumberParser<F>): (string, Value<F>)
    requires MeantMember(m, number)
  {
    (SpellingsMeaning(m.key), Meaning(m.value, number))
  }

  lemma EntryReads<F>(m: Member, next: string, number: NumberParser<F>)
    requires Spaced(m) && AllSpellingsOk(m.key, Any) && Reads(m.value, m.trail + next, number)
    ensures PlainMember(m, number) ==> MeantMember(m, number)
    ensures EntryFrom(SpellingsText(m.key) + "\"" + ColonText(m, next), number)
            == if PlainMember(m, number) then Ok((EntryOf(m, number), m.trail + next)) else Err(BadCodePoint)
  {
    StringReads(m.key, ColonText(m, next), "");
    if AllSpellingsOk(m.key, Plain) {
      assert "" + SpellingsMeaning(m.key) == SpellingsMeaning(m.key);
      ColonReads(m, m.trail + next, number);
    }
  }

  // A member where one is expected is appended, and its refusal is the object's.
  lemma ObjectTakes<F>(s: string, entries: seq<(string, Value<F>)>, number: NumberParser<F>)
    ensures var r := EntryFrom(s, number);
      ObjectFrom("\"" + s, entries, number)
      == if r.Err? then Err(r.error) else ObjectFrom(r.value.1, entries + [r.value.0], number)
  {
    assert SkipSpace("\"" + s) == "\"" + s && ("\"" + s)[1..] == s;
  }

  lemma MemberStep<F>(m: Member, next: string, done: seq<(string, Value<F>)>, number: NumberParser<F>)
    requires Spaced(m) && AllSpellingsOk(m.key, Any) && Reads(m.value, m.trail + next, number)
    ensures PlainMember(m, number) ==> MeantMember(m, number)
    ensures ObjectFrom(m.lead + ("\"" + (SpellingsText(m.key) + "\"" + ColonText(m, next))), done, number)
            == if PlainMember(m, number) then ObjectFrom(next, done + [EntryOf(m, number)], number)
               else Err(BadCodePoint)
  {
    var s := SpellingsText(m.key) + "\"" + ColonText(m, next);
    ObjectSkips(m.lead, "\"" + s, done, number);
    ObjectTakes(s, done, number);
    EntryReads(m, next, number);
    if PlainMember(m, number) { ObjectSkips(m.trail, next, done + [EntryOf(m, number)], number); }
  }

  ghost predicate ReadsMembers<F>(members: seq<Member>, tail: string, done: seq<(string, Value<F>)>,
                                  number: NumberParser<F>)
    requires members != []
  {
    var r := ObjectFrom(MembersText(members, "}" + tail), done, number);
    if MembersOk(members, number, Plain) then
      MembersOk(members, number, Meant) && r == Ok((Object(done + MembersMeaning(members, number)), tail))
    else r == Err(BadCodePoint)
  }

  lemma {:induction false} MembersRead<F>(members: seq<Member>, tail: string, done: seq<(string, Value<F>)>,
                                          number: NumberParser<F>)
    requires members != [] && MembersOk(members, number, Any)
    ensures ReadsMembers(members, tail, done, number)
    decreases members
  {
    var m := members[0];
    var next := if |members| == 1 then "}" + tail else "," + MembersText(members[1..], "}" + tail);
    BlankEnds(m.trail, next);
    DocReads(m.value, m.trail + next, number);
    MemberStep(m, next, done, number);
    if PlainMember(m, number) {
      var entry := EntryOf(m, number);
      if |members| == 1 {
        LastMember(members, tail, done, number);
      } else {
        ObjectComma(MembersText(members[1..], "}" + tail), done + [entry], number);
        MembersRead(members[1..], tail, done + [entry], number);
        if MembersOk(members, number, Plain) {
          assert (done + [entry]) + MembersMeaning(members[1..], number)
                 == done + ([entry] + MembersMeaning(members[1..], number));
        }
      }
    }
  }

  lemma LastMember<F>(members: seq<Member>, tail: string, done: seq<(string, Value<F>)>, number: NumberParser<F>)
    requires |members| == 1 && MembersOk(members, number, Plain) && MeantMember(members[0], number)
    requires ObjectFrom(MembersText(members, "}" + tail), done, number)
             == ObjectFrom("}" + tail, done + [EntryOf(members[0], number)], number)
    ensures ReadsMembers(members, tail, done, number)
  {
    var entry := EntryOf(members[0], number);
    ObjectEnds(tail, done + [entry], number);
    assert members[1..] == [];
    assert MembersMeaning(members, number) == [entry];
  }

  /** Every text that RFC 8259 allows, with any spelling of its strings, any whitespace around its tokens and any
      number literal the number parser accepts: if no string or key in it holds a surrogate escape the reader gives
      back its value, otherwise it refuses the text. */
  lemma TextReadsBack<F>(lead: string, d: Doc, trail: string, number: NumberParser<F>)
    requires Blank(lead) && Blank(trail) && DocOk(d, number, Any)
    ensures var r := ParseValue(lead + DocText(d, trail), number);
      if DocOk(d, number, Plain) then DocOk(d, number, Meant) && r == Ok((Meaning(d, number), trail))
      else r == Err(BadCodePoint)
  {
    BlankEnds(trail, "");
    assert trail + "" == trail;
    ValueSkips(lead, DocText(d, trail), number);
    DocReads(d, trail, number);
  }

  /** So a text that has a meaning is read as that exactly when it does without surrogate pairs. */
  lemma MeaningIsReadExactly<F>(lead: string, d: Doc, trail: string, number: NumberParser<F>)
    requires Blank(lead) && Blank(trail) && DocOk(d, number, Meant)
    ensures ParseValue(lead + DocText(d, trail), number) == Ok((Meaning(d, number), trail)) <==> DocOk(d, number, Plain)
  {
    DocWidens(d, number, Meant, Any);
    TextReadsBack(lead, d, trail, number);
  }

  // ---------------------------------------------------------------- a printer

  // Quotes and backslashes take a short escape, control characters a \u escape, all else stands for itself.
  function Spell(c: char): Spelling {
    if c == '"' || c == '\\' then Short(c)
    else if c as int < 0x20 then Hex(['0', '0', HexDigit(c as int / 16), HexDigit(c as int % 16)])
    else Raw(c)
  }

  function SpellAll(s: string): seq<Spelling> {
    if s == "" then [] else [Spell(s[0])] + SpellAll(s[1..])
  }

  function Print<F>(v: Value<F>, show: F -> string): Doc
    decreases v
  {
    match v
    case Null => DNull
    case Bool(b) => DBool(b)
    case Number(x) => DNumber(show(x))
    case Str(text) => DString(SpellAll(text))
    case Array(items) => DArray("", PrintItems(items, show))
    case Object(entries) => DObject("", PrintEntries(entries, show))
  }

  function PrintItems<F>(items: seq<Value<F>>, show: F -> string): seq<Item>
    decreases items
  {
    if items == [] then [] else [Item("", Print(items[0], show), "")] + PrintItems(items[1..], show)
  }

  function PrintEntries<F>(entries: seq<(string, Value<F>)>, show: F -> string): seq<Member>
    decreases entries
  {
    if entries == [] then [] else [PrintEntry(entries[0], show)] + PrintEntries(entries[1..], show)
  }

  function PrintEntry<F>(entry: (string, Value<F>), show: F -> string): Member
    decreases entry
  {
    Member("", SpellAll(entry.0), "", "", Print(entry.1, show), "")
  }

  lemma SpellMeans(c: char)
    ensures SpellingOk(Spell(c), Plain) && SpellingMeaning(Spell(c)) == c
  {
    if c as int < 0x20 {
      var a, b := HexDigit(c as int / 16), HexDigit(c as int % 16);
      var digits := ['0', '0', a, b];
      assert digits[..3] == ['0', '0', a] && digits[..3][..2] == ['0', '0'] && digits[..3][..2][..1] == ['0'];
      assert HexDigits(['0']) == Some(0) by { assert ['0'][..0] == ""; }
      assert HexDigits(['0', '0']) == Some(0);
      assert HexDigits(['0', '0', a]) == Some(c as int / 16);
      assert HexDigits(digits) == Some(c as int);
    }
  }

  lemma {:induction false} SpellAllMeans(s: string)
    ensures AllSpellingsOk(SpellAll(s), Plain) && AllSpellingsOk(SpellAll(s), Meant)
    ensures SpellingsMeaning(SpellAll(s)) == s
  {
    if s != "" {
      SpellMeans(s[0]);
      SpellAllMeans(s[1..]);
      assert SpellAll(s)[1..] == SpellAll(s[1..]);
    }
  }

  // The number parser reads back what `show` writes.
  ghost predicate Shows<F(!new)>(show: F -> string, number: NumberParser<F>) {
    forall x :: NumberText(show(x), number) && number(show(x)) == Some(x)
  }

  lemma {:induction false} PrintMeans<F(!new)>(v: Value<F>, show: F -> string, number: NumberParser<F>)
    requires Shows(show, number)
    ensures DocOk(Print(v, show), number, Plain) && DocOk(Print(v, show), number, Meant)
    ensures Meaning(Print(v, show), number) == v
    decreases v
  {
    match v
    case Number(x) => assert NumberText(show(x), number);
    case Str(text) => SpellAllMeans(text);
    case Array(items) => PrintItemsMean(items, show, number);
    case Object(entries) => PrintEntriesMean(entries, show, number);
    case _ =>
  }

  lemma {:induction false} PrintItemsMean<F(!new)>(items: seq<Value<F>>, show: F -> string, number: NumberParser<F>)
    requires Shows(show, number)
    ensures ItemsOk(PrintItems(items, show), number, Plain) && ItemsOk(PrintItems(items, show), number, Meant)
    ensures ItemsMeaning(PrintItems(items, show), number) == items
    decreases items
  {
    if items != [] {
      PrintMeans(items[0], show, number);
      PrintItemsMean(items[1..], show, number);
      assert PrintItems(items, show)[1..] == PrintItems(items[1..], show);
    }
  }

  lemma {:induction false} PrintEntriesMean<F(!new)>(entries: seq<(string, Value<F>)>, show: F -> string,
                                                     number: NumberParser<F>)
    requires Shows(show, number)
    ensures MembersOk(PrintEntries(entries, show), number, Plain)
    ensures MembersOk(PrintEntries(entries, show), number, Meant)
    ensures MembersMeaning(PrintEntries(entries, show), number) == entries
    decreases entries
  {
    if entries != [] {
      PrintEntryMeans(entries[0], show, number);
      PrintEntriesMean(entries[1..], show, number);
      assert PrintEntries(entries, show)[1..] == PrintEntries(entries[1..], show);
    }
  }

  lemma {:induction false} PrintEntryMeans<F(!new)>(entry: (string, Value<F>), show: F -> string,
                                                    number: NumberParser<F>)
    requires Shows(show, number)
    ensures var m := PrintEntry(entry, show);
      PlainMember(m, number) && MeantMember(m, number) && EntryOf(m, number) == entry
    decreases entry
  {
    SpellAllMeans(entry.0);
    PrintMeans(entry.1, show, number);
  }

  /** Printing any value and reading the text gives back the value and uses up all of the text. */
  lemma PrintReadsBack<F(!new)>(v: Value<F>, show: F -> string, number: NumberParser<F>)
    requires Shows(show, number)
    ensures ParseValue(DocText(Print(v, show), ""), number) == Ok((v, ""))
  {
    PrintMeans(v, show, number);
    DocWidens(Print(v, show), number, Plain, Any);
    DocReads(Print(v, show), "", number);
  }

  // ---------------------------------------------------------------- the example of section 7

  // U+1D11E, the G clef, as a surrogate pair.
  const CLEF := Pair("d834", "dd1e")

  lemma ClefCodes()
    ensures Code("d834") == Some(0xD834) && Code("dd1e") == Some(0xDD1E)
  {
    HexStep("d834");
    HexStep("dd1e");
  }

  lemma HexStep(s: string)
    requires |s| == 4 && forall i | 0 <= i < 4 :: HexValue(s[i]).Some?
    ensures HexDigits(s) == Some(((HexValue(s[0]).value * 16 + HexValue(s[1]).value) * 16 + HexValue(s[2]).value) * 16
                                 + HexValue(s[3]).value)
  {
    var a, b, c := s[..1], s[..2], s[..3];
    assert a[..0] == "" && b[..1] == a && c[..2] == b && s[..3] == c;
    assert HexDigits(a) == Some(HexValue(s[0]).value);
    assert HexDigits(b).Some? && HexDigits(c).Some?;
  }

  /** The text "\ud834\udd1e" stands for one character, and is refused; the character itself is read. */
  lemma ClefIsRefused<F>(number: NumberParser<F>)
    ensures DocOk(DString([CLEF]), number, Meant)
    ensures Meaning(DString([CLEF]), number) == Str([0x1_D11E as char])
    ensures ParseValue(DocText(DString([CLEF]), ""), number) == Err(BadCodePoint)
    ensures ParseValue(DocText(DString([Raw(0x1_D11E as char)]), ""), number) == Ok((Str([0x1_D11E as char]), ""))
  {
    ClefCodes();
    var pair, raw := DString([CLEF]), DString([Raw(0x1_D11E as char)]);
    assert SpellingOk(CLEF, Meant) && SpellingMeaning(CLEF) == 0x1_D11E as char;
    assert [CLEF][1..] == [] && SpellingsMeaning([CLEF]) == [0x1_D11E as char] + "";
    assert SpellingsMeaning(raw.chars) == [0x1_D11E as char] + "" by { assert raw.chars[1..] == []; }
    assert !AllSpellingsOk([CLEF], Plain) by { assert !SpellingOk([CLEF][0], Plain); }
    DocReads(pair, "", number);
    DocReads(raw, "", number);
  }
}
