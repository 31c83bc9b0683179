/** What the launch cache hashes: nine-part keys and directory trees, as length-prefixed bytes. */
module Digest {
  import opened Options
  import opened Bytes
  import Sha256
  import Text

  const U64: nat := 0x1_0000_0000_0000_0000
  const SLASH: Byte := 47

  // ---------------------------------------------------------------- length-prefixed parts

  // append_cache_digest_part; a length is a u64.
  function Part(part: seq<Byte>): seq<Byte> { Be(|part|, 8) + part }

  lemma EightBytes()
    ensures Pow256(8) == U64
  {
    assert Pow256(4) == 0x1_0000_0000;
  }

  /** A part ends where its length says, whatever follows. */
  lemma PartIsPrefixFree(p: seq<Byte>, x: seq<Byte>, q: seq<Byte>, y: seq<Byte>)
    requires |p| < U64 && |q| < U64 && Part(p) + x == Part(q) + y
    ensures p == q && x == y
  {
    var s, t := Part(p) + x, Part(q) + y;
    EightBytes();
    assert s[..8] == Be(|p|, 8) && t[..8] == Be(|q|, 8);
    NumBe(|p|, 8);
    NumBe(|q|, 8);
    assert p == s[8..8 + |p|] && q == t[8..8 + |q|];
    assert x == s[8 + |p|..] && y == t[8 + |q|..];
  }

  function Parts(parts: seq<seq<Byte>>): seq<Byte> {
    if parts == [] then [] else Part(parts[0]) + Parts(parts[1..])
  }

  ghost predicate Short(parts: seq<seq<Byte>>) {
    forall i | 0 <= i < |parts| :: |parts[i]| < U64
  }

  /** Equal bytes come from equal lists of parts, as long as the lists have the same length. */
  lemma {:induction false} PartsInjective(ps: seq<seq<Byte>>, qs: seq<seq<Byte>>)
    requires |ps| == |qs| && Short(ps) && Short(qs) && Parts(ps) == Parts(qs)
    ensures ps == qs
  {
    if ps != [] {
      PartIsPrefixFree(ps[0], Parts(ps[1..]), qs[0], Parts(qs[1..]));
      PartsInjective(ps[1..], qs[1..]);
      assert ps == [ps[0]] + ps[1..] && qs == [qs[0]] + qs[1..];
    }
  }

  // ---------------------------------------------------------------- copy_key

  datatype CacheKey = CacheKey(
    framework: seq<Byte>, frameworkVersion: seq<Byte>, sourceDigest: seq<Byte>, probeVersion: seq<Byte>,
    toolchain: seq<Byte>, target: seq<Byte>, features: seq<Byte>, patchDigest: seq<Byte>, probePath: seq<Byte>)

  function Fields(k: CacheKey): (parts: seq<seq<Byte>>)
    ensures |parts| == 9
  {
    [k.framework, k.frameworkVersion, k.sourceDigest, k.probeVersion, k.toolchain, k.target, k.features, k.patchDigest,
     k.probePath]
  }

  function DigestText(bytes: seq<Byte>): (s: string)
    ensures |s| == 64
  {
    Sha256.Hex(Sha256.Hash(bytes))
  }

  method CopyKey(k: CacheKey) returns (key: string)
    requires |Parts(Fields(k))| < 0x2000_0000_0000_0000
    ensures var parts := [k.framework, k.frameworkVersion, k.sourceDigest, k.probeVersion, k.toolchain, k.target,
                          k.features, k.patchDigest, k.probePath];
      |key| == 32 && key == DigestText(Parts(parts))[..32]
  {
    var bytes := AppendParts(Fields(k));
    var hex := Sha256.Sha256Hex(bytes);
    key := hex[..32];
  }

  method AppendParts(parts: seq<seq<Byte>>) returns (bytes: seq<Byte>)
    ensures bytes == Parts(parts)
  {
    bytes := [];
    for i := 0 to |parts|
      invariant bytes == Parts(parts[..i])
    {
      PartsAppend(parts[..i], parts[i]);
      assert parts[..i + 1] == parts[..i] + [parts[i]];
      bytes := bytes + Be(|parts[i]|, 8);
      bytes := bytes + parts[i];
    }
    assert parts[..|parts|] == parts;
  }

  lemma {:induction false} PartsAppend(ps: seq<seq<Byte>>, p: seq<Byte>)
    ensures Parts(ps + [p]) == Parts(ps) + Part(p)
  {
    if ps == [] {
      assert Parts([p]) == Part(p) + Parts([p][1..]);
      assert ps + [p] == [p];
    } else {
      assert (ps + [p])[1..] == ps[1..] + [p];
      PartsAppend(ps[1..], p);
    }
  }

  /** Two inputs share the bytes behind their key only if all nine parts are equal. */
  lemma KeyBytesInjective(j: CacheKey, k: CacheKey)
    requires Short(Fields(j)) && Short(Fields(k)) && Parts(Fields(j)) == Parts(Fields(k))
    ensures j == k
  {
    var ps, qs := Fields(j), Fields(k);
    PartsInjective(ps, qs);
    assert ps[0] == qs[0] && ps[1] == qs[1] && ps[2] == qs[2] && ps[3] == qs[3] && ps[4] == qs[4];
    assert ps[5] == qs[5] && ps[6] == qs[6] && ps[7] == qs[7] && ps[8] == qs[8];
  }

  // ---------------------------------------------------------------- directory trees

  // A directory lists its entries in the order of their names.
  datatype Entry = File(name: seq<Byte>, contents: seq<Byte>) | Dir(name: seq<Byte>, entries: seq<Entry>)

  // ".termwright-complete"
  const STAMP: seq<Byte> := [
    46, 116, 101, 114, 109, 119, 114, 105, 103, 104, 116, 45, 99, 111, 109, 112, 108, 101, 116, 101]

  // One line of the walk: the path as text, and a directory mark or a file's contents.
  datatype Record = DirRecord(path: seq<Byte>) | FileRecord(path: seq<Byte>, contents: seq<Byte>)

  function RecordBytes(r: Record): seq<Byte> {
    match r
    case DirRecord(path) => Part(path) + [100]
    case FileRecord(path, contents) => Part(path) + [102] + Part(contents)
  }

  function AllBytes(rs: seq<Record>): seq<Byte> {
    if rs == [] then [] else RecordBytes(rs[0]) + AllBytes(rs[1..])
  }

  // to_string_lossy, as far as the walk is concerned.
  type Lossy = seq<Byte> -> seq<Byte>

  function RecordsOf(lossy: Lossy, prefix: seq<Byte>, e: Entry): seq<Record>
    decreases e, 1
  {
    var path := prefix + e.name;
    match e
    case File(_, contents) => [FileRecord(lossy(path), contents)]
    case Dir(_, entries) => [DirRecord(lossy(path))] + Records(lossy, path + [SLASH], entries)
  }

  function Records(lossy: Lossy, prefix: seq<Byte>, entries: seq<Entry>): seq<Record>
    decreases entries, 0
  {
    if entries == [] then []
    else RecordsOf(lossy, prefix, entries[0]) + Records(lossy, prefix, entries[1..])
  }

  predicate IsStamp(path: seq<Byte>) { path == STAMP }

  lemma StampHasNoSlash(path: seq<Byte>)
    requires SLASH in path
    ensures !IsStamp(path)
  {
  }

  // The entries whose path is not the stamp's.
  function Kept(prefix: seq<Byte>, entries: seq<Entry>): seq<Entry> {
    if entries == [] then []
    else
      var before := Kept(prefix, entries[..|entries| - 1]);
      if IsStamp(prefix + entries[|entries| - 1].name) then before else before + [entries[|entries| - 1]]
  }

  // What is hashed for a tree.
  function TreeBytes(lossy: Lossy, root: seq<Entry>): seq<Byte> {
    AllBytes(Records(lossy, [], Kept([], root)))
  }

  // ---------------------------------------------------------------- the walk

  lemma {:induction false} AllBytesAppend(a: seq<Record>, b: seq<Record>)
    ensures AllBytes(a + b) == AllBytes(a) + AllBytes(b)
  {
    if a == [] {
      assert a + b == b;
    } else {
      assert (a + b)[1..] == a[1..] + b;
      AllBytesAppend(a[1..], b);
    }
  }

  lemma {:induction false} RecordsAppend(lossy: Lossy, prefix: seq<Byte>, a: seq<Entry>, e: Entry)
    ensures Records(lossy, prefix, a + [e]) == Records(lossy, prefix, a) + RecordsOf(lossy, prefix, e)
    decreases |a|
  {
    if a == [] {
      assert a + [e] == [e] && [e][1..] == [];
      assert Records(lossy, prefix, [e]) == RecordsOf(lossy, prefix, e) + Records(lossy, prefix, []);
    } else {
      assert (a + [e])[1..] == a[1..] + [e];
      RecordsAppend(lossy, prefix, a[1..], e);
    }
  }

  // Only the root's own stamp has the stamp's path.
  lemma {:induction false} KeptBelow(prefix: seq<Byte>, entries: seq<Entry>)
    requires SLASH in prefix
    ensures Kept(prefix, entries) == entries
  {
    if entries != [] {
      KeptBelow(prefix, entries[..|entries| - 1]);
      StampHasNoSlash(prefix + entries[|entries| - 1].name);
    }
  }

  lemma AppendEntry(lossy: Lossy, prefix: seq<Byte>, kept: seq<Entry>, e: Entry)
    ensures AllBytes(Records(lossy, prefix, kept + [e]))
            == AllBytes(Records(lossy, prefix, kept)) + AllBytes(RecordsOf(lossy, prefix, e))
  {
    RecordsAppend(lossy, prefix, kept, e);
    AllBytesAppend(Records(lossy, prefix, kept), RecordsOf(lossy, prefix, e));
  }

  lemma EntryBytes(lossy: Lossy, prefix: seq<Byte>, e: Entry)
    ensures AllBytes(RecordsOf(lossy, prefix, e))
            == match e
               case File(_, contents) => Part(lossy(prefix + e.name)) + [102] + Part(contents)
               case Dir(_, entries) =>
                 Part(lossy(prefix + e.name)) + [100] + AllBytes(Records(lossy, prefix + e.name + [SLASH], entries))
  {
    var rs := RecordsOf(lossy, prefix, e);
    match e
    case File(_, contents) =>
      assert rs[1..] == [];
      assert AllBytes([]) == [];
    case Dir(_, entries) =>
      assert rs[1..] == Records(lossy, prefix + e.name + [SLASH], entries);
  }

  // The walk's output, entry by entry.
  function EntryDigest(lossy: Lossy, prefix: seq<Byte>, e: Entry): seq<Byte>
    decreases e, 1
  {
    var path := prefix + e.name;
    match e
    case Dir(_, entries) => Part(lossy(path)) + [100] + WalkBytes(lossy, path + [SLASH], entries, |entries|)
    case File(_, contents) => Part(lossy(path)) + [102] + Part(contents)
  }

  // ... of the first n entries.
  function WalkBytes(lossy: Lossy, prefix: seq<Byte>, entries: seq<Entry>, n: nat): seq<Byte>
    requires n <= |entries|
    decreases entries, 0, n
  {
    if n == 0 then []
    else
      var before := WalkBytes(lossy, prefix, entries, n - 1);
      if IsStamp(prefix + entries[n - 1].name) then before else before + EntryDigest(lossy, prefix, entries[n - 1])
  }

  lemma {:induction false} EntryDigestIsRecords(lossy: Lossy, prefix: seq<Byte>, e: Entry)
    ensures EntryDigest(lossy, prefix, e) == AllBytes(RecordsOf(lossy, prefix, e))
    decreases e, 1
  {
    EntryBytes(lossy, prefix, e);
    if e.Dir? {
      var path := prefix + e.name + [SLASH];
      WalkBytesAreRecords(lossy, path, e.entries, |e.entries|);
      assert e.entries[..|e.entries|] == e.entries;
      KeptBelow(path, e.entries);
    }
  }

  lemma {:induction false} WalkBytesAreRecords(lossy: Lossy, prefix: seq<Byte>, entries: seq<Entry>, n: nat)
    requires n <= |entries|
    ensures WalkBytes(lossy, prefix, entries, n) == AllBytes(Records(lossy, prefix, Kept(prefix, entries[..n])))
    decreases entries, 0, n
  {
    if n == 0 {
      assert Records(lossy, prefix, []) == [];
    } else {
      var e := entries[n - 1];
      WalkBytesAreRecords(lossy, prefix, entries, n - 1);
      assert entries[..n][..n - 1] == entries[..n - 1];
      if !IsStamp(prefix + e.name) {
        EntryDigestIsRecords(lossy, prefix, e);
        AppendEntry(lossy, prefix, Kept(prefix, entries[..n - 1]), e);
      }
    }
  }

  /** walk: a directory's output, appended to what was hashed before. */
  method Walk(lossy: Lossy, prefix: seq<Byte>, entries: seq<Entry>, before: seq<Byte>) returns (input: seq<Byte>)
    ensures input == before + WalkBytes(lossy, prefix, entries, |entries|)
    decreases entries, 0
  {
    input := before;
    for i := 0 to |entries|
      invariant input == before + WalkBytes(lossy, prefix, entries, i)
    {
      var e := entries[i];
      if IsStamp(prefix + e.name) {
        continue;
      }
      input := WalkEntry(lossy, prefix, e, input);
    }
  }

  method WalkEntry(lossy: Lossy, prefix: seq<Byte>, e: Entry, before: seq<Byte>) returns (input: seq<Byte>)
    ensures input == before + EntryDigest(lossy, prefix, e)
    decreases e, 1
  {
    var path := prefix + e.name;
    input := before + Part(lossy(path));
    match e {
      case Dir(_, entries) =>
        input := Walk(lossy, path + [SLASH], entries, input + [100]);
      case File(_, contents) =>
        input := input + [102];
        input := input + Part(contents);
    }
  }

  method WalkRoot(lossy: Lossy, root: seq<Entry>) returns (input: seq<Byte>)
    ensures input == TreeBytes(lossy, root)
  {
    input := Walk(lossy, [], root, []);
    WalkBytesAreRecords(lossy, [], root, |root|);
    assert root[..|root|] == root;
    assert input == WalkBytes(lossy, [], root, |root|);
  }

  method DigestCacheContents(lossy: Lossy, root: seq<Entry>) returns (digest: string)
    requires |TreeBytes(lossy, root)| < 0x2000_0000_0000_0000
    ensures digest == "sha256:" + DigestText(TreeBytes(lossy, root))
  {
    var input := WalkRoot(lossy, root);
    var hex := Sha256.Sha256Hex(input);
    digest := "sha256:" + hex;
  }

  // ---------------------------------------------------------------- the stamp

  // str::lines: a line loses its newline, and a carriage return before it.
  function StripEol(line: string): string {
    if line != "" && line[|line| - 1] == '\n' then
      var body := line[..|line| - 1];
      if body != "" && body[|body| - 1] == '\r' then body[..|body| - 1] else body
    else line
  }

  function StampLines(stamp: string): (lines: seq<string>)
    ensures |lines| == |Text.Lines(stamp)|
  {
    var lines := Text.Lines(stamp);
    seq(|lines|, i requires 0 <= i < |lines| => StripEol(lines[i]))
  }

  ghost predicate Complete(lossy: Lossy, stamp: Option<string>, key: string, root: seq<Entry>) {
    stamp.Some? && StampLines(stamp.value) == [key, "sha256:" + DigestText(TreeBytes(lossy, root))]
  }

  /** cache_entry_complete; `stamp` is the stamp file's text, if it can be read. */
  method CacheEntryComplete(lossy: Lossy, stamp: Option<string>, key: string, root: seq<Entry>) returns (complete: bool)
    requires |TreeBytes(lossy, root)| < 0x2000_0000_0000_0000
    ensures complete <==> Complete(lossy, stamp, key, root)
  {
    if stamp.None? {
      return false;
    }
    var lines := StampLines(stamp.value);
    if |lines| == 0 || lines[0] != key {
      return false;
    }
    if |lines| == 1 {
      return false;
    }
    if |lines| != 2 {
      return false;
    }
    var digest := DigestCacheContents(lossy, root);
    return digest == lines[1];
  }

  // The text materialize_cache_entry writes.
  function Stamp(lossy: Lossy, key: string, root: seq<Entry>): string {
    key + "\n" + ("sha256:" + DigestText(TreeBytes(lossy, root))) + "\n"
  }
}
