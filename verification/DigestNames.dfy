/** Which trees the digest tells apart: those whose names differ as text. */
module DigestNames {
  import opened Options
  import opened Bytes
  import opened Digest
  import opened DigestTheorems
  import Utf8

  // ---------------------------------------------------------------- names as text

  // A tree with every name replaced by its text.
  function Renamed(e: Entry): Entry
    decreases e, 1
  {
    match e
    case File(name, contents) => File(Utf8.Lossy(name), contents)
    case Dir(name, entries) => Dir(Utf8.Lossy(name), RenamedAll(entries))
  }

  function RenamedAll(entries: seq<Entry>): seq<Entry>
    decreases entries, 0
  {
    if entries == [] then [] else [Renamed(entries[0])] + RenamedAll(entries[1..])
  }

  // No file name holds a separator.
  ghost predicate SlashFree(entries: seq<Entry>)
    decreases entries
  {
    entries != [] ==>
      && SLASH !in entries[0].name && (entries[0].Dir? ==> SlashFree(entries[0].entries))
      && SlashFree(entries[1..])
  }

  ghost predicate Utf8Names(entries: seq<Entry>)
    decreases entries
  {
    entries != [] ==>
      && Utf8.Valid(entries[0].name) && (entries[0].Dir? ==> Utf8Names(entries[0].entries))
      && Utf8Names(entries[1..])
  }

  lemma {:induction false} RenamedKeepsValid(entries: seq<Entry>)
    ensures RenamedAll(entries) == entries <==> Utf8Names(entries)
    decreases entries
  {
    if entries != [] {
      var e := entries[0];
      Utf8.LossyKeepsValid(e.name);
      if e.Dir? { RenamedKeepsValid(e.entries); }
      RenamedKeepsValid(entries[1..]);
      var all := RenamedAll(entries);
      assert all[0] == Renamed(e) && all[1..] == RenamedAll(entries[1..]);
      assert entries == [e] + entries[1..] && all == [all[0]] + all[1..];
      assert all == entries <==> all[0] == e && all[1..] == entries[1..];
    }
  }

  // ---------------------------------------------------------------- the walk sees the text only

  // The root, or a directory's path with its separator.
  predicate IsPrefix(prefix: seq<Byte>) { prefix == [] || prefix[|prefix| - 1] == SLASH }

  lemma SlashText(path: seq<Byte>)
    ensures Utf8.Lossy(path + [SLASH]) == Utf8.Lossy(path) + [SLASH]
  {
    Utf8.LossyAppends(path, [SLASH]);
    Utf8.AsciiFirst(SLASH, []);
    assert [SLASH] + [] == [SLASH];
  }

  lemma PathText(prefix: seq<Byte>, name: seq<Byte>)
    requires IsPrefix(prefix)
    ensures Utf8.Lossy(prefix + name) == Utf8.Lossy(prefix) + Utf8.Lossy(name)
  {
    if prefix == [] {
      assert prefix + name == name;
      assert Utf8.Lossy([]) + Utf8.Lossy(name) == Utf8.Lossy(name);
    } else {
      var p := prefix[..|prefix| - 1];
      assert prefix == p + [SLASH];
      SlashText(p);
      assert prefix + name == p + ([SLASH] + name) by { Utf8.Regroup(p, [SLASH], name); }
      Utf8.LossyAppends(p, [SLASH] + name);
      Utf8.AsciiFirst(SLASH, name);
      Utf8.Regroup(Utf8.Lossy(p), [SLASH], Utf8.Lossy(name));
    }
  }

  lemma DirText(prefix: seq<Byte>, name: seq<Byte>)
    requires IsPrefix(prefix)
    ensures IsPrefix(prefix + name + [SLASH])
    ensures Utf8.Lossy(prefix + name + [SLASH]) == Utf8.Lossy(prefix) + Utf8.Lossy(name) + [SLASH]
  {
    PathText(prefix, name);
    SlashText(prefix + name);
  }

  // A path made of texts is its own text.
  lemma TextIsText(prefix: seq<Byte>, name: seq<Byte>)
    requires IsPrefix(prefix)
    ensures Utf8.Lossy(Utf8.Lossy(prefix) + Utf8.Lossy(name)) == Utf8.Lossy(prefix) + Utf8.Lossy(name)
  {
    PathText(prefix, name);
    Utf8.LossyIsValid(prefix + name);
    Utf8.LossyKeepsValid(Utf8.Lossy(prefix + name));
  }

  lemma {:induction false} RecordsOfRenamed(prefix: seq<Byte>, entries: seq<Entry>)
    requires IsPrefix(prefix)
    ensures Records(Utf8.Lossy, prefix, entries) == Records(Utf8.Lossy, Utf8.Lossy(prefix), RenamedAll(entries))
    decreases entries
  {
    if entries != [] {
      var e := entries[0];
      PathText(prefix, e.name);
      TextIsText(prefix, e.name);
      if e.Dir? {
        DirText(prefix, e.name);
        RecordsOfRenamed(prefix + e.name + [SLASH], e.entries);
      }
      assert RecordsOf(Utf8.Lossy, prefix, e) == RecordsOf(Utf8.Lossy, Utf8.Lossy(prefix), Renamed(e));
      RecordsOfRenamed(prefix, entries[1..]);
      assert RenamedAll(entries)[1..] == RenamedAll(entries[1..]);
    }
  }

  // The renamed tree is one the walk describes faithfully.
  lemma {:induction false} RenamedIsPlain(prefix: seq<Byte>, entries: seq<Entry>)
    requires IsPrefix(prefix) && SlashFree(entries)
    ensures AllPlain(Utf8.Lossy, Utf8.Lossy(prefix), RenamedAll(entries))
    decreases entries
  {
    if entries != [] {
      var e := entries[0];
      TextIsText(prefix, e.name);
      Utf8.LossyAddsNoAscii(e.name, SLASH);
      if e.Dir? {
        DirText(prefix, e.name);
        RenamedIsPlain(prefix + e.name + [SLASH], e.entries);
      }
      assert Plain(Utf8.Lossy, Utf8.Lossy(prefix), Renamed(e));
      RenamedIsPlain(prefix, entries[1..]);
      assert RenamedAll(entries)[1..] == RenamedAll(entries[1..]);
    }
  }

  // ---------------------------------------------------------------- exactly which trees are told apart

  // A tree as a file system gives it: names without separator, and parts that fit their length prefix.
  ghost predicate Hashable(root: seq<Entry>) {
    SlashFree(Kept([], root)) && ShortRecords(Records(Utf8.Lossy, [], Kept([], root)))
  }

  /** The bytes of two trees are equal exactly when the trees are, up to the root's stamp, the same once every name
      is replaced by its text. */
  lemma DigestSeesTexts(x: seq<Entry>, y: seq<Entry>)
    requires Hashable(x) && Hashable(y)
    ensures TreeBytes(Utf8.Lossy, x) == TreeBytes(Utf8.Lossy, y) <==>
            RenamedAll(Kept([], x)) == RenamedAll(Kept([], y))
  {
    var a, b := Kept([], x), Kept([], y);
    var rs, qs := Records(Utf8.Lossy, [], a), Records(Utf8.Lossy, [], b);
    assert Utf8.Lossy([]) == [];
    RecordsOfRenamed([], a);
    RecordsOfRenamed([], b);
    if AllBytes(rs) == AllBytes(qs) {
      RecordsDecode(rs, qs);
      RenamedIsPlain([], a);
      RenamedIsPlain([], b);
      assert rs + [] == rs && qs + [] == qs;
      RecordsDetermineTree(Utf8.Lossy, [], RenamedAll(a), [], RenamedAll(b), []);
    }
  }

  lemma {:induction false} PlainIsUtf8(prefix: seq<Byte>, entries: seq<Entry>)
    requires IsPrefix(prefix) && Utf8.Lossy(prefix) == prefix && AllPlain(Utf8.Lossy, prefix, entries)
    ensures SlashFree(entries) && Utf8Names(entries)
    decreases entries
  {
    if entries != [] {
      var e := entries[0];
      assert Plain(Utf8.Lossy, prefix, e);
      PathText(prefix, e.name);
      assert Utf8.Lossy(e.name) == (prefix + Utf8.Lossy(e.name))[|prefix|..] == (prefix + e.name)[|prefix|..] == e.name;
      Utf8.LossyKeepsValid(e.name);
      if e.Dir? {
        SlashText(prefix + e.name);
        PlainIsUtf8(prefix + e.name + [SLASH], e.entries);
      }
      PlainIsUtf8(prefix, entries[1..]);
    }
  }

  /** The condition of TreeBytesInjective is that names are valid UTF-8. */
  lemma WellNamedIsUtf8(root: seq<Entry>)
    ensures WellNamed(Utf8.Lossy, root) <==> Hashable(root) && Utf8Names(Kept([], root))
  {
    assert Utf8.Lossy([]) == [];
    if WellNamed(Utf8.Lossy, root) {
      PlainIsUtf8([], Kept([], root));
    }
    if Hashable(root) && Utf8Names(Kept([], root)) {
      RenamedKeepsValid(Kept([], root));
      RenamedIsPlain([], Kept([], root));
    }
  }

  /** Trees whose names are all valid UTF-8 are told apart. */
  lemma Utf8TreesAreToldApart(x: seq<Entry>, y: seq<Entry>)
    requires Hashable(x) && Hashable(y) && Utf8Names(Kept([], x)) && Utf8Names(Kept([], y))
    ensures TreeBytes(Utf8.Lossy, x) == TreeBytes(Utf8.Lossy, y) <==> Kept([], x) == Kept([], y)
  {
    RenamedKeepsValid(Kept([], x));
    RenamedKeepsValid(Kept([], y));
    DigestSeesTexts(x, y);
  }

  /** Names of one invalid byte each: every such name has the same text, so the trees share their bytes. */
  lemma InvalidNamesCollide(contents: seq<Byte>)
    requires |contents| < U64
    ensures var x, y := [File([0xFF], contents)], [File([0xFE], contents)];
      && Hashable(x) && Hashable(y) && Kept([], x) != Kept([], y)
      && TreeBytes(Utf8.Lossy, x) == TreeBytes(Utf8.Lossy, y)
  {
    var x, y := [File([0xFF], contents)], [File([0xFE], contents)];
    OneFile(0xFF, contents);
    OneFile(0xFE, contents);
    DigestSeesTexts(x, y);
  }

  // ---------------------------------------------------------------- what a cache user sees

  /** An entry stamped with `key` when it held `before` is complete for a request `wanted` exactly when the keys are
      equal and the entry holds what was stamped once every name is replaced by its text, or its bytes collide. */
  lemma CompleteSeesTexts(key: string, before: seq<Entry>, wanted: string, now: seq<Entry>)
    requires OneLine(key) && Hashable(before) && Hashable(now)
    ensures Complete(Utf8.Lossy, Some(Stamp(Utf8.Lossy, key, before)), wanted, now) <==>
            && key == wanted
            && (RenamedAll(Kept([], before)) == RenamedAll(Kept([], now))
                || Collision(TreeBytes(Utf8.Lossy, before), TreeBytes(Utf8.Lossy, now)))
  {
    CompleteMeans(Utf8.Lossy, key, before, wanted, now);
    DigestSeesTexts(before, now);
  }

  /** An entry stamped while it held a file named FF is complete while it holds one named FE instead. */
  lemma RenamedFileGoesUnnoticed(key: string, contents: seq<Byte>)
    requires OneLine(key) && |contents| < U64
    ensures var before, now := [File([0xFF], contents)], [File([0xFE], contents)];
      Kept([], before) != Kept([], now) && Complete(Utf8.Lossy, Some(Stamp(Utf8.Lossy, key, before)), key, now)
  {
    var before, now := [File([0xFF], contents)], [File([0xFE], contents)];
    InvalidNamesCollide(contents);
    CompleteMeans(Utf8.Lossy, key, before, key, now);
  }

  lemma OneFile(b: Byte, contents: seq<Byte>)
    requires 0xF5 <= b && |contents| < U64
    ensures var x := [File([b], contents)];
      Kept([], x) == x && Hashable(x) && RenamedAll(x) == [File(Utf8.REPLACEMENT, contents)]
  {
    var e := File([b], contents);
    var x := [e];
    assert [] + [b] == [b] && x[..0] == [] && x[1..] == [];
    assert Kept([], x) == [] + [e];
    assert Utf8.Lossy([b]) == Utf8.REPLACEMENT by {
      assert [b][1..] == [] && Utf8.Lossy([]) == [];
      assert Utf8.REPLACEMENT + [] == Utf8.REPLACEMENT;
    }
    assert RenamedAll(x) == [Renamed(e)] + [];
    assert Records(Utf8.Lossy, [], x) == RecordsOf(Utf8.Lossy, [], e) + [];
  }
}
