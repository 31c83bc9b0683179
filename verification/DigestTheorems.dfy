/** The hashed bytes of a tree are uniquely decodable, so a cache entry is complete exactly while it holds what
    was stamped, up to a collision of the hash. */
module DigestTheorems {
  import opened Options
  import opened Bytes
  import opened Digest
  import Sha256
  import Text

  // ---------------------------------------------------------------- bytes to records

  ghost predicate ShortRecord(r: Record) {
    |r.path| < U64 && (r.FileRecord? ==> |r.contents| < U64)
  }

  ghost predicate ShortRecords(rs: seq<Record>) {
    forall i | 0 <= i < |rs| :: ShortRecord(rs[i])
  }

  // What follows the path of a record, then of the list.
  function AfterPath(r: Record, x: seq<Byte>): seq<Byte> {
    match r
    case DirRecord(_) => [100] + x
    case FileRecord(_, contents) => [102] + (Part(contents) + x)
  }

  lemma SplitRecord(r: Record, x: seq<Byte>)
    ensures RecordBytes(r) + x == Part(r.path) + AfterPath(r, x)
    ensures AfterPath(r, x)[0] == if r.DirRecord? then 100 else 102
    ensures AfterPath(r, x)[1..] == if r.DirRecord? then x else Part(r.contents) + x
  {
  }

  lemma RecordIsPrefixFree(r: Record, x: seq<Byte>, q: Record, y: seq<Byte>)
    requires ShortRecord(r) && ShortRecord(q) && RecordBytes(r) + x == RecordBytes(q) + y
    ensures r == q && x == y
  {
    SplitRecord(r, x);
    SplitRecord(q, y);
    PartIsPrefixFree(r.path, AfterPath(r, x), q.path, AfterPath(q, y));
    if r.FileRecord? && q.FileRecord? {
      PartIsPrefixFree(r.contents, x, q.contents, y);
    }
  }

  lemma NonEmptyBytes(r: Record)
    ensures |RecordBytes(r)| > 0
  {
  }

  lemma {:induction false} RecordsDecode(rs: seq<Record>, qs: seq<Record>)
    requires ShortRecords(rs) && ShortRecords(qs) && AllBytes(rs) == AllBytes(qs)
    ensures rs == qs
  {
    if rs != [] && qs != [] {
      RecordIsPrefixFree(rs[0], AllBytes(rs[1..]), qs[0], AllBytes(qs[1..]));
      RecordsDecode(rs[1..], qs[1..]);
      assert rs == [rs[0]] + rs[1..] && qs == [qs[0]] + qs[1..];
    } else if rs != [] {
      NonEmptyBytes(rs[0]);
    } else if qs != [] {
      NonEmptyBytes(qs[0]);
    }
  }

  // ---------------------------------------------------------------- records to trees

  // File names hold no separator, and the path's text is the path (it is valid Unicode).
  ghost predicate Plain(lossy: Lossy, prefix: seq<Byte>, e: Entry)
    decreases e, 1
  {
    && SLASH !in e.name && lossy(prefix + e.name) == prefix + e.name
    && (e.Dir? ==> AllPlain(lossy, prefix + e.name + [SLASH], e.entries))
  }

  ghost predicate AllPlain(lossy: Lossy, prefix: seq<Byte>, entries: seq<Entry>)
    decreases entries, 0
  {
    entries == [] || (Plain(lossy, prefix, entries[0]) && AllPlain(lossy, prefix, entries[1..]))
  }

  // The list does not go on under `prefix`.
  ghost predicate Foreign(rs: seq<Record>, prefix: seq<Byte>) {
    rs == [] || !(prefix <= rs[0].path)
  }

  // A sibling's path is not under a directory of the same parent.
  lemma SiblingIsForeign(prefix: seq<Byte>, name: seq<Byte>, other: seq<Byte>)
    requires SLASH !in other
    ensures !(prefix + name + [SLASH] <= prefix + other)
  {
    var under, path, i := prefix + name + [SLASH], prefix + other, |prefix| + |name|;
    assert under[i] == SLASH;
    if i < |path| {
      assert path[i] == other[|name|] && other[|name|] in other;
    }
  }

  lemma LongerIsForeign(rs: seq<Record>, prefix: seq<Byte>, more: seq<Byte>)
    requires Foreign(rs, prefix)
    ensures Foreign(rs, prefix + more)
  {
    assert prefix <= prefix + more;
  }

  lemma FirstRecord(lossy: Lossy, prefix: seq<Byte>, entries: seq<Entry>)
    requires entries != [] && AllPlain(lossy, prefix, entries)
    ensures Records(lossy, prefix, entries) != []
    ensures Records(lossy, prefix, entries)[0].path == prefix + entries[0].name
  {
    assert Plain(lossy, prefix, entries[0]);
  }

  lemma ListingIsNotForeign(lossy: Lossy, prefix: seq<Byte>, entries: seq<Entry>, tail: seq<Record>)
    requires entries != [] && AllPlain(lossy, prefix, entries)
    ensures !Foreign(Records(lossy, prefix, entries) + tail, prefix)
  {
    FirstRecord(lossy, prefix, entries);
    assert prefix <= prefix + entries[0].name;
  }

  // What follows a directory's own records is not under it.
  lemma RestIsForeign(lossy: Lossy, prefix: seq<Byte>, name: seq<Byte>, entries: seq<Entry>, tail: seq<Record>)
    requires AllPlain(lossy, prefix, entries) && Foreign(tail, prefix)
    ensures Foreign(Records(lossy, prefix, entries) + tail, prefix + name + [SLASH])
  {
    if entries == [] {
      assert Records(lossy, prefix, entries) + tail == tail;
      LongerIsForeign(tail, prefix, name + [SLASH]);
      assert prefix + (name + [SLASH]) == prefix + name + [SLASH];
    } else {
      FirstRecord(lossy, prefix, entries);
      assert Plain(lossy, prefix, entries[0]);
      SiblingIsForeign(prefix, name, entries[0].name);
    }
  }

  // The records of a list of entries, split after the first entry's own.
  lemma SplitRecords(lossy: Lossy, prefix: seq<Byte>, entries: seq<Entry>, tail: seq<Record>)
    requires entries != []
    ensures var e, rest := entries[0], Records(lossy, prefix, entries[1..]) + tail;
      var path := lossy(prefix + e.name);
      Records(lossy, prefix, entries) + tail
      == match e
         case File(_, contents) => [FileRecord(path, contents)] + rest
         case Dir(_, below) => [DirRecord(path)] + (Records(lossy, prefix + e.name + [SLASH], below) + rest)
  {
  }

  /** Two listings under one prefix, each followed by records from elsewhere, with the same records are the same. */
  lemma {:induction false} RecordsDetermineTree(lossy: Lossy, prefix: seq<Byte>, xs: seq<Entry>, u: seq<Record>,
                                                ys: seq<Entry>, v: seq<Record>)
    requires AllPlain(lossy, prefix, xs) && AllPlain(lossy, prefix, ys) && Foreign(u, prefix) && Foreign(v, prefix)
    requires Records(lossy, prefix, xs) + u == Records(lossy, prefix, ys) + v
    ensures xs == ys && u == v
    decreases xs
  {
    if xs == [] || ys == [] {
      assert Records(lossy, prefix, []) == [];
      assert [] + u == u && [] + v == v;
      if xs != [] { ListingIsNotForeign(lossy, prefix, xs, u); }
      if ys != [] { ListingIsNotForeign(lossy, prefix, ys, v); }
    } else {
      FirstEntryMatches(lossy, prefix, xs, u, ys, v);
      var x, y := xs[0], ys[0];
      var restX, restY := Records(lossy, prefix, xs[1..]) + u, Records(lossy, prefix, ys[1..]) + v;
      if x.Dir? {
        RestIsForeign(lossy, prefix, x.name, xs[1..], u);
        RestIsForeign(lossy, prefix, y.name, ys[1..], v);
        RecordsDetermineTree(lossy, prefix + x.name + [SLASH], x.entries, restX, y.entries, restY);
      }
      RecordsDetermineTree(lossy, prefix, xs[1..], u, ys[1..], v);
      assert xs == [x] + xs[1..] && ys == [y] + ys[1..];
    }
  }

  // Equal records start with entries of the same name and kind, and go on equally.
  lemma FirstEntryMatches(lossy: Lossy, prefix: seq<Byte>, xs: seq<Entry>, u: seq<Record>, ys: seq<Entry>,
                          v: seq<Record>)
    requires xs != [] && ys != [] && AllPlain(lossy, prefix, xs) && AllPlain(lossy, prefix, ys)
    requires Records(lossy, prefix, xs) + u == Records(lossy, prefix, ys) + v
    ensures xs[0].name == ys[0].name && (xs[0].Dir? <==> ys[0].Dir?)
    ensures var restX, restY := Records(lossy, prefix, xs[1..]) + u, Records(lossy, prefix, ys[1..]) + v;
      if xs[0].Dir? then
        Records(lossy, prefix + xs[0].name + [SLASH], xs[0].entries) + restX
        == Records(lossy, prefix + xs[0].name + [SLASH], ys[0].entries) + restY
      else xs[0] == ys[0] && restX == restY
  {
    var x, y := xs[0], ys[0];
    SplitRecords(lossy, prefix, xs, u);
    SplitRecords(lossy, prefix, ys, v);
    assert Plain(lossy, prefix, x) && Plain(lossy, prefix, y);
    var rs, qs := Records(lossy, prefix, xs) + u, Records(lossy, prefix, ys) + v;
    assert rs[0] == qs[0] && rs[1..] == qs[1..];
    assert rs[0].path == prefix + x.name && qs[0].path == prefix + y.name;
    assert x.name == (prefix + x.name)[|prefix|..] && y.name == (prefix + y.name)[|prefix|..];
  }

  // ---------------------------------------------------------------- trees

  // A tree the walk describes faithfully: separator-free names in Unicode, parts that fit their length prefix.
  ghost predicate WellNamed(lossy: Lossy, root: seq<Entry>) {
    AllPlain(lossy, [], Kept([], root)) && ShortRecords(Records(lossy, [], Kept([], root)))
  }

  /** Equal bytes come from trees that differ at most in the root's stamp. */
  lemma TreeBytesInjective(lossy: Lossy, x: seq<Entry>, y: seq<Entry>)
    requires WellNamed(lossy, x) && WellNamed(lossy, y) && TreeBytes(lossy, x) == TreeBytes(lossy, y)
    ensures Kept([], x) == Kept([], y)
  {
    var rs, qs := Records(lossy, [], Kept([], x)), Records(lossy, [], Kept([], y));
    RecordsDecode(rs, qs);
    assert [] + rs == rs && rs + [] == rs && qs + [] == qs;
    RecordsDetermineTree(lossy, [], Kept([], x), [], Kept([], y), []);
  }

  // ---------------------------------------------------------------- the stamp

  ghost predicate OneLine(s: string) { s != "" && '\n' !in s && '\r' !in s }

  lemma {:induction false} HexIsOneLine(n: nat, width: nat)
    ensures '\n' !in Sha256.HexOf(n, width) && '\r' !in Sha256.HexOf(n, width)
  {
    if width > 0 { HexIsOneLine(n / 16, width - 1); }
  }

  lemma {:induction false} HexAllIsOneLine(ws: seq<Sha256.Word>)
    ensures '\n' !in Sha256.HexAll(ws) && '\r' !in Sha256.HexAll(ws)
  {
    if ws != [] {
      HexIsOneLine(ws[0], 8);
      HexAllIsOneLine(ws[1..]);
    }
  }

  lemma TwoLines(first: string, second: string)
    requires OneLine(first) && OneLine(second)
    ensures StampLines(first + "\n" + second + "\n") == [first, second]
  {
    var lines := [first + "\n", second + "\n"];
    assert Text.Join(lines) == first + "\n" + second + "\n" by {
      assert lines[1..] == [second + "\n"] && lines[1..][1..] == [];
      assert Text.Join(lines[1..]) == second + "\n" + "";
    }
    assert Text.IsLine(lines[0]) && Text.IsLine(lines[1]);
    Text.LinesOfJoin(lines);
    StripLine(first);
    StripLine(second);
  }

  lemma StripLine(s: string)
    requires OneLine(s)
    ensures StripEol(s + "\n") == s
  {
    assert (s + "\n")[..|s|] == s && s[|s| - 1] in s;
  }

  // Two inputs with one digest.
  ghost predicate Collision(x: seq<Byte>, y: seq<Byte>) {
    x != y && Sha256.Hash(x) == Sha256.Hash(y)
  }

  lemma SameDigest(x: seq<Byte>, y: seq<Byte>)
    ensures DigestText(x) == DigestText(y) <==> x == y || Collision(x, y)
  {
    if DigestText(x) == DigestText(y) { Sha256.HexInjective(Sha256.Hash(x), Sha256.Hash(y)); }
  }

  // A stamp is compared key with key and digest with digest.
  lemma CompleteMeans(lossy: Lossy, key: string, before: seq<Entry>, wanted: string, now: seq<Entry>)
    requires OneLine(key)
    ensures var x, y := TreeBytes(lossy, before), TreeBytes(lossy, now);
      Complete(lossy, Some(Stamp(lossy, key, before)), wanted, now) <==> key == wanted && (x == y || Collision(x, y))
  {
    var x, y := TreeBytes(lossy, before), TreeBytes(lossy, now);
    var digest, current := "sha256:" + DigestText(x), "sha256:" + DigestText(y);
    DigestIsOneLine(Sha256.Hash(x));
    TwoLines(key, digest);
    assert digest[7..] == DigestText(x) && current[7..] == DigestText(y);
    SameDigest(x, y);
    var lines, wants := [key, digest], [wanted, current];
    assert lines == wants <==> lines[0] == wants[0] && lines[1] == wants[1];
  }

  /** An entry stamped with `key` when it held `before` is complete for a request `wanted` exactly when the keys
      are equal and the entry still holds what was stamped, or its bytes collide with it, if names are their own
      text.  DigestNames.CompleteSeesTexts is about all names. */
  lemma CompleteExactly(lossy: Lossy, key: string, before: seq<Entry>, wanted: string, now: seq<Entry>)
    requires OneLine(key) && WellNamed(lossy, before) && WellNamed(lossy, now)
    ensures Complete(lossy, Some(Stamp(lossy, key, before)), wanted, now)
            <==> key == wanted
                 && (Kept([], before) == Kept([], now) || Collision(TreeBytes(lossy, before), TreeBytes(lossy, now)))
  {
    CompleteMeans(lossy, key, before, wanted, now);
    if TreeBytes(lossy, before) == TreeBytes(lossy, now) { TreeBytesInjective(lossy, before, now); }
  }

  // Every key the launcher stamps with is one line.
  lemma KeyIsOneLine(k: CacheKey)
    ensures OneLine(DigestText(Parts(Fields(k)))[..32])
  {
    var r := Sha256.Hash(Parts(Fields(k)));
    HexAllIsOneLine([r.a, r.b, r.c, r.d, r.e, r.f, r.g, r.h]);
  }

  lemma DigestIsOneLine(r: Sha256.Regs)
    ensures OneLine("sha256:" + Sha256.Hex(r))
  {
    HexAllIsOneLine([r.a, r.b, r.c, r.d, r.e, r.f, r.g, r.h]);
  }
}
