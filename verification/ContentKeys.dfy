/**
 The byte stream that `ContentKey::derive` feeds to its hasher. Each encoder takes the stream that
 follows it, the way successive `update` calls extend one hash input.
 */
module ContentKeys {
  import opened Records

  const WORD := 0x1_0000_0000_0000_0000

  function Limit(width: nat): (p: nat)
    ensures p > 0
  {
    if width == 0 then 1 else 256 * Limit(width - 1)
  }

  function LittleEndian(n: nat, width: nat): (bytes: Text)
    ensures |bytes| == width
  {
    if width == 0 then [] else [(n % 256) as byte] + LittleEndian(n / 256, width - 1)
  }

  /** The number that bytes stand for, lowest byte first. */
  function ReadLittleEndian(bytes: Text): nat {
    if bytes == [] then 0 else (bytes[0] as nat) + 256 * ReadLittleEndian(bytes[1..])
  }

  lemma {:induction false} LittleEndianReadsBack(n: nat, width: nat)
    requires n < Limit(width)
    ensures ReadLittleEndian(LittleEndian(n, width)) == n
  {
    if width > 0 {
      LittleEndianReadsBack(n / 256, width - 1);
      assert LittleEndian(n, width)[1..] == LittleEndian(n / 256, width - 1);
    }
  }

  function PutCount(count: nat, rest: Text): Text {
    LittleEndian(count, 8) + rest
  }

  function Put(bytes: Text, rest: Text): Text {
    PutCount(|bytes|, bytes + rest)
  }

  function PutByte(b: byte, rest: Text): Text {
    [b] + rest
  }

  function PutOptional(value: Option<Text>, rest: Text): Text {
    match value
    case Some(text) => PutByte(1, Put(text, rest))
    case None => PutByte(0, rest)
  }

  function PutEach(texts: seq<Text>, rest: Text): Text {
    if texts == [] then rest else Put(texts[0], PutEach(texts[1..], rest))
  }

  function PutHeadings(headings: seq<(byte, Text)>, rest: Text): Text {
    if headings == [] then rest
    else PutByte(headings[0].0, Put(headings[0].1, PutHeadings(headings[1..], rest)))
  }

  function PutStructure(structure: Option<ChunkStructure>, rest: Text): Text {
    match structure
    case None => PutByte(0, rest)
    case Some(s) =>
      PutByte(1, PutOptional(s.title, PutCount(|s.headings|,
        PutHeadings(s.headings, PutByte(if s.generatedNavigation then 1 else 0, rest)))))
  }

  function PutChunk(c: Chunk, rest: Text): Text {
    PutCount(c.ord, PutCount(|c.headingPath|, PutEach(c.headingPath, PutChunkBody(c, rest))))
  }

  function PutChunkBody(c: Chunk, rest: Text): Text {
    PutCount(c.lineStart, PutCount(c.lineEnd, Put(c.text, Put(c.searchText,
      PutOptional(c.claimMarks, PutStructure(c.structure, PutCount(c.overlapBytes, rest)))))))
  }

  function PutChunks(chunks: seq<Chunk>, rest: Text): Text {
    if chunks == [] then rest else PutChunk(chunks[0], PutChunks(chunks[1..], rest))
  }

  /** `name` is the standard library's last path component of a file reference. */
  function KeyInput(file: PreparedFile, name: Text -> Text, fingerprint: Text): Text {
    Put(file.contentHash, Put(name(file.fileRef), Put(fingerprint, Put(file.summary,
      PutCount(|file.keywords|, PutEach(file.keywords, PutOptional(file.frontmatter,
        PutCount(|file.chunks|, PutChunks(file.chunks, [])))))))))
  }

  // Every length and count is a 64-bit machine word.

  predicate FitsEach(texts: seq<Text>) {
    |texts| < WORD && forall t :: t in texts ==> |t| < WORD
  }

  predicate FitsOptional(value: Option<Text>) {
    value.Some? ==> |value.value| < WORD
  }

  predicate FitsStructure(structure: Option<ChunkStructure>) {
    structure.Some? ==>
      && FitsOptional(structure.value.title)
      && |structure.value.headings| < WORD
      && forall h :: h in structure.value.headings ==> |h.1| < WORD
  }

  predicate FitsChunk(c: Chunk) {
    && c.ord < WORD && FitsEach(c.headingPath)
    && c.lineStart < WORD && c.lineEnd < WORD && |c.text| < WORD && |c.searchText| < WORD
    && FitsOptional(c.claimMarks) && FitsStructure(c.structure) && c.overlapBytes < WORD
  }

  predicate Fits(file: PreparedFile) {
    && |file.contentHash| < WORD && |file.fileRef| < WORD && |file.summary| < WORD
    && FitsEach(file.keywords) && FitsOptional(file.frontmatter)
    && |file.chunks| < WORD && forall c :: c in file.chunks ==> FitsChunk(c)
  }

  lemma {:induction false} LittleEndianInjective(m: nat, n: nat, width: nat)
    requires m < Limit(width) && n < Limit(width)
    requires LittleEndian(m, width) == LittleEndian(n, width)
    ensures m == n
  {
    if width > 0 {
      var a, b := LittleEndian(m, width), LittleEndian(n, width);
      assert a[0] == b[0] && a[1..] == b[1..];
      assert a[1..] == LittleEndian(m / 256, width - 1) && b[1..] == LittleEndian(n / 256, width - 1);
      LittleEndianInjective(m / 256, n / 256, width - 1);
      assert m % 256 == n % 256;
    }
  }

  lemma WordLimit()
    ensures Limit(8) == WORD
  {
    assert Limit(2) == 0x1_0000;
    assert Limit(4) == 0x1_0000_0000;
    assert Limit(6) == 0x1_0000_0000_0000;
  }

  lemma CountCancels(m: nat, n: nat, x: Text, y: Text)
    requires m < WORD && n < WORD && PutCount(m, x) == PutCount(n, y)
    ensures m == n && x == y
  {
    var a, b := PutCount(m, x), PutCount(n, y);
    assert a[..8] == LittleEndian(m, 8) && b[..8] == LittleEndian(n, 8);
    assert a[8..] == x && b[8..] == y;
    WordLimit();
    LittleEndianInjective(m, n, 8);
  }

  lemma PutCancels(s: Text, t: Text, x: Text, y: Text)
    requires |s| < WORD && |t| < WORD && Put(s, x) == Put(t, y)
    ensures s == t && x == y
  {
    CountCancels(|s|, |t|, s + x, t + y);
    assert (s + x)[..|s|] == s && (t + y)[..|t|] == t;
    assert (s + x)[|s|..] == x && (t + y)[|t|..] == y;
  }

  lemma ByteCancels(b: byte, c: byte, x: Text, y: Text)
    requires PutByte(b, x) == PutByte(c, y)
    ensures b == c && x == y
  {
    assert PutByte(b, x)[0] == b && PutByte(c, y)[0] == c;
    assert PutByte(b, x)[1..] == x && PutByte(c, y)[1..] == y;
  }

  lemma OptionalCancels(s: Option<Text>, t: Option<Text>, x: Text, y: Text)
    requires FitsOptional(s) && FitsOptional(t) && PutOptional(s, x) == PutOptional(t, y)
    ensures s == t && x == y
  {
    ByteCancels(if s.Some? then 1 else 0, if t.Some? then 1 else 0,
                if s.Some? then Put(s.value, x) else x, if t.Some? then Put(t.value, y) else y);
    if s.Some? {
      PutCancels(s.value, t.value, x, y);
    }
  }

  lemma {:induction false} EachCancels(a: seq<Text>, b: seq<Text>, x: Text, y: Text)
    requires FitsEach(a) && FitsEach(b) && |a| == |b| && PutEach(a, x) == PutEach(b, y)
    ensures a == b && x == y
  {
    if a != [] {
      PutCancels(a[0], b[0], PutEach(a[1..], x), PutEach(b[1..], y));
      EachCancels(a[1..], b[1..], x, y);
      assert a == [a[0]] + a[1..] && b == [b[0]] + b[1..];
    }
  }

  lemma {:induction false} HeadingsCancel(a: seq<(byte, Text)>, b: seq<(byte, Text)>, x: Text, y: Text)
    requires |a| == |b| && PutHeadings(a, x) == PutHeadings(b, y)
    requires forall h :: h in a || h in b ==> |h.1| < WORD
    ensures a == b && x == y
  {
    if a != [] {
      assert a[0] in a && b[0] in b;
      var p, q := PutHeadings(a[1..], x), PutHeadings(b[1..], y);
      ByteCancels(a[0].0, b[0].0, Put(a[0].1, p), Put(b[0].1, q));
      PutCancels(a[0].1, b[0].1, p, q);
      HeadingsCancel(a[1..], b[1..], x, y);
      assert a == [a[0]] + a[1..] && b == [b[0]] + b[1..];
    }
  }

  lemma StructureCancels(s: Option<ChunkStructure>, t: Option<ChunkStructure>, x: Text, y: Text)
    requires FitsStructure(s) && FitsStructure(t) && PutStructure(s, x) == PutStructure(t, y)
    ensures s == t && x == y
  {
    assert s.Some? == t.Some? by { assert PutStructure(s, x)[0] == PutStructure(t, y)[0]; }
    if s.None? {
      ByteCancels(0, 0, x, y);
    } else {
      var a, b := s.value, t.value;
      var navA: byte, navB: byte := if a.generatedNavigation then 1 else 0, if b.generatedNavigation then 1 else 0;
      var tailA, tailB := PutByte(navA, x), PutByte(navB, y);
      var bodyA, bodyB := PutHeadings(a.headings, tailA), PutHeadings(b.headings, tailB);
      var countA, countB := PutCount(|a.headings|, bodyA), PutCount(|b.headings|, bodyB);
      ByteCancels(1, 1, PutOptional(a.title, countA), PutOptional(b.title, countB));
      OptionalCancels(a.title, b.title, countA, countB);
      CountCancels(|a.headings|, |b.headings|, bodyA, bodyB);
      HeadingsCancel(a.headings, b.headings, tailA, tailB);
      ByteCancels(navA, navB, x, y);
    }
  }

  lemma ChunkBodyCancels(c: Chunk, d: Chunk, x: Text, y: Text)
    requires FitsChunk(c) && FitsChunk(d) && PutChunkBody(c, x) == PutChunkBody(d, y)
    ensures c == d.(ord := c.ord, headingPath := c.headingPath) && x == y
  {
    var c6, d6 := PutCount(c.overlapBytes, x), PutCount(d.overlapBytes, y);
    var c5, d5 := PutStructure(c.structure, c6), PutStructure(d.structure, d6);
    var c4, d4 := PutOptional(c.claimMarks, c5), PutOptional(d.claimMarks, d5);
    var c3, d3 := Put(c.searchText, c4), Put(d.searchText, d4);
    var c2, d2 := Put(c.text, c3), Put(d.text, d3);
    CountCancels(c.lineStart, d.lineStart, PutCount(c.lineEnd, c2), PutCount(d.lineEnd, d2));
    CountCancels(c.lineEnd, d.lineEnd, c2, d2);
    PutCancels(c.text, d.text, c3, d3);
    PutCancels(c.searchText, d.searchText, c4, d4);
    OptionalCancels(c.claimMarks, d.claimMarks, c5, d5);
    StructureCancels(c.structure, d.structure, c6, d6);
    CountCancels(c.overlapBytes, d.overlapBytes, x, y);
  }

  lemma ChunkCancels(c: Chunk, d: Chunk, x: Text, y: Text)
    requires FitsChunk(c) && FitsChunk(d) && PutChunk(c, x) == PutChunk(d, y)
    ensures c == d && x == y
  {
    var bodyC, bodyD := PutChunkBody(c, x), PutChunkBody(d, y);
    var pathC, pathD := PutEach(c.headingPath, bodyC), PutEach(d.headingPath, bodyD);
    CountCancels(c.ord, d.ord, PutCount(|c.headingPath|, pathC), PutCount(|d.headingPath|, pathD));
    CountCancels(|c.headingPath|, |d.headingPath|, pathC, pathD);
    EachCancels(c.headingPath, d.headingPath, bodyC, bodyD);
    ChunkBodyCancels(c, d, x, y);
  }

  lemma {:induction false} ChunksCancel(a: seq<Chunk>, b: seq<Chunk>, x: Text, y: Text)
    requires |a| == |b| && PutChunks(a, x) == PutChunks(b, y)
    requires forall c :: c in a || c in b ==> FitsChunk(c)
    ensures a == b && x == y
  {
    if a != [] {
      assert a[0] in a && b[0] in b;
      ChunkCancels(a[0], b[0], PutChunks(a[1..], x), PutChunks(b[1..], y));
      ChunksCancel(a[1..], b[1..], x, y);
      assert a == [a[0]] + a[1..] && b == [b[0]] + b[1..];
    }
  }

  /**
   Two files give the hasher the same bytes only when every input of the derivation is equal, so
   (without a hash collision) files under one content key have one set of content rows.
   */
  lemma KeyInputInjective(f: PreparedFile, g: PreparedFile, name: Text -> Text, mine: Text, other: Text)
    requires Fits(f) && Fits(g) && |mine| < WORD && |other| < WORD
    requires |name(f.fileRef)| < WORD && |name(g.fileRef)| < WORD
    requires KeyInput(f, name, mine) == KeyInput(g, name, other)
    ensures SharedOf(f) == SharedOf(g) && f.contentHash == g.contentHash && name(f.fileRef) == name(g.fileRef)
    ensures mine == other
  {
    var f7, g7 := PutChunks(f.chunks, []), PutChunks(g.chunks, []);
    var f6, g6 := PutCount(|f.chunks|, f7), PutCount(|g.chunks|, g7);
    var f5, g5 := PutOptional(f.frontmatter, f6), PutOptional(g.frontmatter, g6);
    var f4, g4 := PutEach(f.keywords, f5), PutEach(g.keywords, g5);
    var f3, g3 := PutCount(|f.keywords|, f4), PutCount(|g.keywords|, g4);
    var f2, g2 := Put(f.summary, f3), Put(g.summary, g3);
    var f1, g1 := Put(mine, f2), Put(other, g2);
    PutCancels(f.contentHash, g.contentHash, Put(name(f.fileRef), f1), Put(name(g.fileRef), g1));
    PutCancels(name(f.fileRef), name(g.fileRef), f1, g1);
    PutCancels(mine, other, f2, g2);
    PutCancels(f.summary, g.summary, f3, g3);
    CountCancels(|f.keywords|, |g.keywords|, f4, g4);
    EachCancels(f.keywords, g.keywords, f5, g5);
    OptionalCancels(f.frontmatter, g.frontmatter, f6, g6);
    CountCancels(|f.chunks|, |g.chunks|, f7, g7);
    ChunksCancel(f.chunks, g.chunks, [], []);
  }

  /** Files that agree on every input of the derivation share their rows, whatever root they sit in. */
  lemma KeyInputIgnoresLocation(f: PreparedFile, g: PreparedFile, name: Text -> Text, fingerprint: Text)
    requires SharedOf(f) == SharedOf(g) && f.contentHash == g.contentHash
    requires name(f.fileRef) == name(g.fileRef)
    ensures KeyInput(f, name, fingerprint) == KeyInput(g, name, fingerprint)
  {}
}
