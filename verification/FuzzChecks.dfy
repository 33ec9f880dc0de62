/** The two checkers of the fuzz crate whose verdicts carry the fuzz targets. */
module FuzzChecks {
  import opened Records
  import opened TextBasics

  const MAX_HEADING_DEPTH: nat := 3

  datatype ChunkerKind = Markdown | Rst

  datatype Piece = Piece(ord: nat, text: string, lineStart: nat, lineEnd: nat, headingDepth: nat)

  // ----- check_chunks -----

  /** Where the first `i` pieces end. */
  function EndOf(pieces: seq<Piece>, starts: seq<nat>, i: nat): nat
    requires i <= |pieces| && i <= |starts|
  {
    if i == 0 then 0 else starts[i-1] + |pieces[i-1].text|
  }

  /** Piece `i` stands at its start, after nothing but whitespace, with the lines it claims. */
  predicate PlacedAt(text: string, pieces: seq<Piece>, starts: seq<nat>, i: nat, kind: ChunkerKind)
    requires i < |pieces| && i < |starts|
  {
    var p, start, from := pieces[i], starts[i], EndOf(pieces, starts, i);
    && p.ord == i && p.text != "" && from <= start && Occurs(text, p.text, start)
    && AllWhite(text[from..start])
    && p.lineStart == 1 + Newlines(text[..start])
    && p.lineEnd == 1 + Newlines(text[..start + |p.text| - 1])
    && (kind.Markdown? ==> p.headingDepth <= MAX_HEADING_DEPTH)
  }

  /** The text is whitespace, piece, whitespace, ..., piece, whitespace, at the given starts. */
  predicate Tiles(text: string, pieces: seq<Piece>, starts: seq<nat>, kind: ChunkerKind) {
    && |starts| == |pieces|
    && (forall i :: 0 <= i < |pieces| ==> PlacedAt(text, pieces, starts, i, kind))
    && EndOf(pieces, starts, |pieces|) <= |text| && AllWhite(text[EndOf(pieces, starts, |pieces|)..])
  }

  /** Piece `i` stands where it should, and nowhere earlier after the piece before it. */
  predicate PlacedFirst(text: string, pieces: seq<Piece>, starts: seq<nat>, i: nat, kind: ChunkerKind)
    requires i < |pieces| && i < |starts|
  {
    PlacedAt(text, pieces, starts, i, kind) && FirstFrom(text, pieces[i].text, EndOf(pieces, starts, i), starts[i])
  }

  /** A tiling that puts every piece at its first occurrence after the piece before it. */
  predicate TilesFirst(text: string, pieces: seq<Piece>, starts: seq<nat>, kind: ChunkerKind) {
    && |starts| == |pieces|
    && (forall i :: 0 <= i < |pieces| ==> PlacedFirst(text, pieces, starts, i, kind))
    && EndOf(pieces, starts, |pieces|) <= |text| && AllWhite(text[EndOf(pieces, starts, |pieces|)..])
  }

  predicate Dark(s: string) {
    exists i :: 0 <= i < |s| && !IsWhite(s[i])
  }

  /** No piece is blank: a non-empty one holds a character that is not whitespace. */
  predicate NoneBlank(pieces: seq<Piece>) {
    forall i :: 0 <= i < |pieces| && pieces[i].text != "" ==> Dark(pieces[i].text)
  }

  method FindFrom(text: string, part: string, from: nat) returns (at: Option<nat>)
    requires from <= |text|
    ensures at.Some? ==> FirstFrom(text, part, from, at.value)
    ensures at.None? ==> forall q :: from <= q ==> !Occurs(text, part, q)
  {
    var i := from;
    while i + |part| <= |text|
      invariant from <= i
      invariant forall q :: from <= q < i ==> !Occurs(text, part, q)
    {
      if text[i..i + |part|] == part {
        return Some(i);
      }
      i := i + 1;
    }
    return None;
  }

  method CountNewlines(s: string) returns (n: nat)
    ensures n == Newlines(s)
  {
    n := 0;
    for i := 0 to |s|
      invariant n == Newlines(s[..i])
    {
      assert s[..i+1][..i] == s[..i];
      if s[i] == '\n' {
        n := n + 1;
      }
    }
    assert s[..|s|] == s;
  }

  /** One piece of the check: its place after `cursor`, and the line counter after it. */
  method CheckPiece(text: string, p: Piece, index: nat, cursor: nat, line: nat, kind: ChunkerKind)
    returns (start: Option<nat>, after: nat)
    requires cursor <= |text| && line == 1 + Newlines(text[..cursor])
    ensures start.Some? ==>
      FirstFrom(text, p.text, cursor, start.value) && Fits(text, p, index, cursor, start.value, kind)
    ensures start.Some? ==> after == 1 + Newlines(text[..start.value + |p.text|])
    ensures start.None? ==>
      forall q: nat :: FirstFrom(text, p.text, cursor, q) ==> !Fits(text, p, index, cursor, q, kind)
  {
    start, after := None, line;
    if p.ord != index || p.text == "" {
      return;
    }
    var found := FindFrom(text, p.text, cursor);
    if found.None? {
      return;
    }
    var at := found.value;
    var gapLines := CountNewlines(text[cursor..at]);
    var last := |p.text| - 1;
    var bodyLines := CountNewlines(p.text[..last]);
    LinesAcross(text, p.text, cursor, at);
    FirstIsUnique(text, p.text, cursor, at);
    var fits := AllWhite(text[cursor..at]) && p.lineStart == line + gapLines && p.lineEnd == line + gapLines + bodyLines
      && (kind.Markdown? ==> p.headingDepth <= MAX_HEADING_DEPTH);
    assert fits <==> Fits(text, p, index, cursor, at, kind);
    if fits {
      after := line + gapLines + bodyLines + if p.text[last] == '\n' then 1 else 0;
      start := Some(at);
    }
  }

  lemma FirstIsUnique(text: string, part: string, from: nat, at: nat)
    requires FirstFrom(text, part, from, at)
    ensures forall q: nat :: FirstFrom(text, part, from, q) ==> q == at
  {}

  /** The line counter moves over a gap, a piece without its last character, and that character. */
  lemma LinesAcross(text: string, part: string, cursor: nat, at: nat)
    requires cursor <= at && part != "" && Occurs(text, part, at)
    ensures Newlines(text[..at]) == Newlines(text[..cursor]) + Newlines(text[cursor..at])
    ensures Newlines(text[..at + |part| - 1]) == Newlines(text[..at]) + Newlines(part[..|part|-1])
    ensures Newlines(text[..at + |part|])
      == Newlines(text[..at + |part| - 1]) + if part[|part|-1] == '\n' then 1 else 0
  {
    var last := |part| - 1;
    assert text[..at] == text[..cursor] + text[cursor..at];
    NewlinesConcat(text[..cursor], text[cursor..at]);
    assert text[at..at + |part|][..last] == text[at..at + last];
    assert text[..at + last] == text[..at] + part[..last];
    NewlinesConcat(text[..at], part[..last]);
    assert text[at + last] == text[at..at + |part|][last];
    assert text[..at + |part|][..at + last] == text[..at + last];
  }

  /** Everything `PlacedAt` asks beyond the text itself. */
  predicate Fits(text: string, p: Piece, index: nat, from: nat, start: nat, kind: ChunkerKind) {
    && from <= start && start + |p.text| <= |text|
    && p.ord == index && p.text != "" && AllWhite(text[from..start])
    && p.lineStart == 1 + Newlines(text[..start])
    && p.lineEnd == 1 + Newlines(text[..start + |p.text| - 1])
    && (kind.Markdown? ==> p.headingDepth <= MAX_HEADING_DEPTH)
  }

  /**
   The check keeps only a cursor and a line counter. It passes exactly the texts that the pieces tile,
   with the lines they claim, each at its first occurrence; when no piece is blank that is every tiling.
   */
  method CheckChunks(text: string, pieces: seq<Piece>, kind: ChunkerKind) returns (ok: bool, starts: seq<nat>)
    ensures ok ==> TilesFirst(text, pieces, starts, kind)
    ensures ok && kind.Markdown? ==> forall i :: 0 <= i < |pieces| ==> pieces[i].headingDepth <= 3
    ensures ok <==> exists s :: TilesFirst(text, pieces, s, kind)
    ensures NoneBlank(pieces) ==> (ok <==> exists s :: Tiles(text, pieces, s, kind))
  {
    UnblankTilesFirst(text, pieces, kind);
    var cursor, line := 0, 1;
    starts := [];
    assert text[..0] == "";
    for i := 0 to |pieces|
      invariant PlacedUpto(text, pieces, starts, i, kind) && cursor == EndOf(pieces, starts, i) <= |text|
      invariant line == 1 + Newlines(text[..cursor])
      invariant Agrees(text, pieces, starts, kind)
    {
      var at, after := CheckPiece(text, pieces[i], i, cursor, line, kind);
      AgreesWithNext(text, pieces, starts, i, kind, at);
      if at.None? {
        return false, starts;
      }
      PlacedOneMore(text, pieces, starts, i, at.value, kind);
      starts := starts + [at.value];
      cursor, line := at.value + |pieces[i].text|, after;
    }
    AgreesInTheEnd(text, pieces, starts, kind);
    ok := AllWhite(text[cursor..]);
    if ok {
      HeadingsShallow(text, pieces, starts, kind);
    }
  }

  lemma HeadingsShallow(text: string, pieces: seq<Piece>, starts: seq<nat>, kind: ChunkerKind)
    requires TilesFirst(text, pieces, starts, kind)
    ensures kind.Markdown? ==> forall i :: 0 <= i < |pieces| ==> pieces[i].headingDepth <= 3
  {
    forall i | 0 <= i < |pieces|
      ensures kind.Markdown? ==> pieces[i].headingDepth <= 3
    {
      assert PlacedFirst(text, pieces, starts, i, kind);
    }
  }

  /** A tiling by pieces that are not blank has every piece at its first occurrence. */
  lemma UnblankTilesFirst(text: string, pieces: seq<Piece>, kind: ChunkerKind)
    ensures forall s :: TilesFirst(text, pieces, s, kind) ==> Tiles(text, pieces, s, kind)
    ensures NoneBlank(pieces) ==> forall s :: Tiles(text, pieces, s, kind) ==> TilesFirst(text, pieces, s, kind)
  {
    if NoneBlank(pieces) {
      forall s, i | Tiles(text, pieces, s, kind) && 0 <= i < |pieces|
        ensures PlacedFirst(text, pieces, s, i, kind)
      {
        assert PlacedAt(text, pieces, s, i, kind);
        DarkAfterGap(text, pieces[i].text, EndOf(pieces, s, i), s[i]);
      }
    }
    forall s | TilesFirst(text, pieces, s, kind)
      ensures Tiles(text, pieces, s, kind)
    {
      forall i | 0 <= i < |pieces|
        ensures PlacedAt(text, pieces, s, i, kind)
      {
        assert PlacedFirst(text, pieces, s, i, kind);
      }
    }
  }

  predicate PlacedUpto(text: string, pieces: seq<Piece>, starts: seq<nat>, i: nat, kind: ChunkerKind) {
    |starts| == i <= |pieces| && forall n :: 0 <= n < i ==> PlacedFirst(text, pieces, starts, n, kind)
  }

  /** Every tiling at first occurrences begins with these starts. */
  ghost predicate Agrees(text: string, pieces: seq<Piece>, starts: seq<nat>, kind: ChunkerKind) {
    forall s :: TilesFirst(text, pieces, s, kind) ==> starts <= s
  }

  lemma PlacedOneMore(text: string, pieces: seq<Piece>, starts: seq<nat>, i: nat, at: nat, kind: ChunkerKind)
    requires PlacedUpto(text, pieces, starts, i, kind) && i < |pieces|
    requires FirstFrom(text, pieces[i].text, EndOf(pieces, starts, i), at)
    requires Fits(text, pieces[i], i, EndOf(pieces, starts, i), at, kind)
    ensures PlacedUpto(text, pieces, starts + [at], i + 1, kind)
  {
    var more := starts + [at];
    forall n | 0 <= n < i
      ensures PlacedFirst(text, pieces, more, n, kind)
    {
      PlacedPrefix(text, pieces, starts, more, n, kind);
    }
    assert EndOf(pieces, more, i) == EndOf(pieces, starts, i);
  }

  lemma AgreesWithNext(text: string, pieces: seq<Piece>, starts: seq<nat>, i: nat, kind: ChunkerKind, at: Option<nat>)
    requires |starts| == i < |pieces| && Agrees(text, pieces, starts, kind)
    requires at.Some? ==> FirstFrom(text, pieces[i].text, EndOf(pieces, starts, i), at.value)
    requires at.None? ==> forall q: nat :: FirstFrom(text, pieces[i].text, EndOf(pieces, starts, i), q) ==>
      !Fits(text, pieces[i], i, EndOf(pieces, starts, i), q, kind)
    ensures at.Some? ==> Agrees(text, pieces, starts + [at.value], kind)
    ensures at.None? ==> forall s :: !TilesFirst(text, pieces, s, kind)
  {
    forall s | TilesFirst(text, pieces, s, kind)
      ensures at.Some? && s[i] == at.value && starts <= s
    {
      TileContinues(text, pieces, s, starts, i, kind, at);
    }
  }

  /** A tiling that agrees so far must place the next piece where the check found it. */
  lemma TileContinues(text: string, pieces: seq<Piece>, s: seq<nat>, starts: seq<nat>, i: nat, kind: ChunkerKind,
                      at: Option<nat>)
    requires TilesFirst(text, pieces, s, kind) && |starts| == i < |pieces| && starts <= s
    requires at.Some? ==> FirstFrom(text, pieces[i].text, EndOf(pieces, starts, i), at.value)
    requires at.None? ==> forall q: nat :: FirstFrom(text, pieces[i].text, EndOf(pieces, starts, i), q) ==>
      !Fits(text, pieces[i], i, EndOf(pieces, starts, i), q, kind)
    ensures at.Some? && s[i] == at.value
  {
    assert PlacedFirst(text, pieces, s, i, kind);
    assert i > 0 ==> s[i-1] == starts[i-1];
    assert EndOf(pieces, s, i) == EndOf(pieces, starts, i);
    FirstIsUnique(text, pieces[i].text, EndOf(pieces, starts, i), s[i]);
  }

  lemma AgreesInTheEnd(text: string, pieces: seq<Piece>, starts: seq<nat>, kind: ChunkerKind)
    requires PlacedUpto(text, pieces, starts, |pieces|, kind) && EndOf(pieces, starts, |pieces|) <= |text|
    requires Agrees(text, pieces, starts, kind)
    ensures AllWhite(text[EndOf(pieces, starts, |pieces|)..]) <==> TilesFirst(text, pieces, starts, kind)
    ensures forall s :: TilesFirst(text, pieces, s, kind) ==> s == starts
  {}

  lemma {:induction false} FirstDark(s: string) returns (j: nat)
    requires Dark(s)
    ensures j < |s| && !IsWhite(s[j]) && AllWhite(s[..j])
  {
    j := 0;
    if IsWhite(s[0]) {
      var i :| 0 <= i < |s| && !IsWhite(s[i]);
      assert s[1..][i-1] == s[i];
      var k := FirstDark(s[1..]);
      j := k + 1;
      forall n | 0 <= n < j
        ensures IsWhite(s[..j][n])
      {
        assert n > 0 ==> s[n] == s[1..][..k][n-1];
      }
    }
  }

  lemma OccursChar(text: string, part: string, j: nat)
    requires j < |part|
    ensures forall z: nat :: Occurs(text, part, z) ==> text[z + j] == part[j]
  {
    forall z: nat | Occurs(text, part, z)
      ensures text[z + j] == part[j]
    {
      assert text[z + j] == text[z..z + |part|][j];
    }
  }

  /** Text that is not blank and stands after a white gap stands nowhere earlier in the gap. */
  lemma DarkAfterGap(text: string, part: string, from: nat, at: nat)
    requires from <= at && Occurs(text, part, at) && AllWhite(text[from..at]) && Dark(part)
    ensures FirstFrom(text, part, from, at)
  {
    var j := FirstDark(part);
    OccursChar(text, part, j);
    forall p | from <= p < at + j
      ensures IsWhite(text[p])
    {
      if p < at {
        assert text[p] == text[from..at][p - from];
      } else {
        OccursChar(text, part, p - at);
        assert text[p] == part[..j][p - at];
      }
    }
  }

  lemma PlacedPrefix(text: string, pieces: seq<Piece>, a: seq<nat>, b: seq<nat>, n: nat, kind: ChunkerKind)
    requires n < |pieces| && n < |a| <= |b| && a == b[..|a|] && PlacedFirst(text, pieces, a, n, kind)
    ensures PlacedFirst(text, pieces, b, n, kind)
  {
    assert a[n] == b[n] && (n > 0 ==> a[n-1] == b[n-1]);
  }

  /** Blank pieces matter: one that is a lone space on line two is looked for on line one, so a text
      that has a tiling has none at first occurrences. */
  lemma BlankPieceIsMisplaced()
    ensures var text, pieces := " \n x", [Piece(0, " ", 2, 2, 0), Piece(1, "x", 2, 2, 0)];
      && !NoneBlank(pieces) && Tiles(text, pieces, [2, 3], Rst)
      && forall s :: !TilesFirst(text, pieces, s, Rst)
  {
    var text, pieces := " \n x", [Piece(0, " ", 2, 2, 0), Piece(1, "x", 2, 2, 0)];
    assert !Dark(pieces[0].text);
    assert text[..2] == " \n" && text[..3] == " \n ";
    assert Newlines("") == 0 && Newlines(" ") == 0;
    assert " \n"[..1] == " " && Newlines(" \n") == 1;
    assert " \n "[..2] == " \n" && Newlines(" \n ") == 1;
    assert PlacedAt(text, pieces, [2, 3], 0, Rst) && PlacedAt(text, pieces, [2, 3], 1, Rst);
    assert FirstFrom(text, " ", 0, 0);
    HeadFits(text, pieces, 0, Rst);
    assert text[..0] == "" && !Fits(text, pieces[0], 0, 0, 0, Rst);
  }

  /** The first piece must fit where it first occurs. */
  lemma HeadFits(text: string, pieces: seq<Piece>, at: nat, kind: ChunkerKind)
    requires pieces != [] && FirstFrom(text, pieces[0].text, 0, at)
    ensures forall s :: TilesFirst(text, pieces, s, kind) ==> Fits(text, pieces[0], 0, 0, at, kind)
  {
    forall s | TilesFirst(text, pieces, s, kind)
      ensures Fits(text, pieces[0], 0, 0, at, kind)
    {
      assert PlacedFirst(text, pieces, s, 0, kind);
      FirstIsUnique(text, pieces[0].text, 0, at);
    }
  }

  // ----- is_single_insertion -----

  /** `edited` is `doc` with `block` inserted at `k`. */
  predicate InsertedAt(doc: Text, block: Text, edited: Text, k: nat) {
    k <= |doc| && edited == doc[..k] + block + doc[k..]
  }

  lemma InsertedShape(doc: Text, block: Text, edited: Text, k: nat)
    requires k <= |doc| && |edited| == |doc| + |block|
    ensures InsertedAt(doc, block, edited, k) <==>
      edited[..k] == doc[..k] && edited[k..k + |block|] == block && edited[k + |block|..] == doc[k..]
  {
    if edited[..k] == doc[..k] && edited[k..k + |block|] == block && edited[k + |block|..] == doc[k..] {
      assert edited == edited[..k] + edited[k..k + |block|] + edited[k + |block|..];
    }
  }

  method CommonPrefix(doc: Text, edited: Text) returns (prefix: nat)
    requires |doc| <= |edited|
    ensures prefix <= |doc| && doc[..prefix] == edited[..prefix]
    ensures prefix < |doc| ==> doc[prefix] != edited[prefix]
  {
    prefix := 0;
    while prefix < |doc|
      invariant prefix <= |doc| && doc[..prefix] == edited[..prefix]
    {
      if doc[prefix] != edited[prefix] {
        return;
      }
      prefix := prefix + 1;
    }
  }

  method CommonSuffix(doc: Text, edited: Text) returns (suffix: nat)
    requires |doc| <= |edited|
    ensures suffix <= |doc| && doc[|doc| - suffix..] == edited[|edited| - suffix..]
    ensures suffix < |doc| ==> doc[|doc| - suffix - 1] != edited[|edited| - suffix - 1]
  {
    suffix := 0;
    while suffix < |doc|
      invariant suffix <= |doc| && doc[|doc| - suffix..] == edited[|edited| - suffix..]
    {
      if doc[|doc| - suffix - 1] != edited[|edited| - suffix - 1] {
        return;
      }
      suffix := suffix + 1;
    }
  }

  /** Only offsets between the unmatched suffix and the matched prefix need to be tried. */
  method IsSingleInsertion(doc: Text, block: Text, edited: Text) returns (r: bool)
    ensures r <==> exists k: nat :: InsertedAt(doc, block, edited, k)
  {
    if |edited| != |doc| + |block| {
      return false;
    }
    var prefix := CommonPrefix(doc, edited);
    var suffix := CommonSuffix(doc, edited);
    InsertionsInWindow(doc, block, edited, prefix, suffix);
    var offset := |doc| - suffix;
    while offset <= prefix
      invariant |doc| - suffix <= offset
      invariant forall k: nat :: |doc| - suffix <= k < offset ==> !InsertedAt(doc, block, edited, k)
    {
      WindowDecides(doc, block, edited, offset, prefix, suffix);
      if edited[offset..offset + |block|] == block {
        return true;
      }
      offset := offset + 1;
    }
    return false;
  }

  lemma InsertionsInWindow(doc: Text, block: Text, edited: Text, prefix: nat, suffix: nat)
    requires |edited| == |doc| + |block|
    requires prefix <= |doc| && (prefix < |doc| ==> doc[prefix] != edited[prefix])
    requires suffix <= |doc| && (suffix < |doc| ==> doc[|doc| - suffix - 1] != edited[|edited| - suffix - 1])
    ensures forall k: nat :: InsertedAt(doc, block, edited, k) ==> |doc| - suffix <= k <= prefix
  {
    forall k: nat | InsertedAt(doc, block, edited, k)
      ensures |doc| - suffix <= k <= prefix
    {
      OffsetInWindow(doc, block, edited, k, prefix, suffix);
    }
  }

  /** Inside the window the prefix and the suffix match, so the block alone decides. */
  lemma WindowDecides(doc: Text, block: Text, edited: Text, k: nat, prefix: nat, suffix: nat)
    requires |edited| == |doc| + |block| && suffix <= |doc| && |doc| - suffix <= k <= prefix <= |doc|
    requires doc[..prefix] == edited[..prefix] && doc[|doc| - suffix..] == edited[|edited| - suffix..]
    ensures InsertedAt(doc, block, edited, k) <==> edited[k..k + |block|] == block
  {
    InsertedShape(doc, block, edited, k);
    assert edited[..k] == edited[..prefix][..k] == doc[..prefix][..k];
    SuffixAgrees(doc, block, edited, k, suffix);
  }

  lemma SuffixAgrees(doc: Text, block: Text, edited: Text, k: nat, suffix: nat)
    requires |edited| == |doc| + |block| && suffix <= |doc| && |doc| - suffix <= k <= |doc|
    requires doc[|doc| - suffix..] == edited[|edited| - suffix..]
    ensures edited[k + |block|..] == doc[k..]
  {
    var skip := k - (|doc| - suffix);
    assert doc[k..] == doc[|doc| - suffix..][skip..];
    assert edited[k + |block|..] == edited[|edited| - suffix..][skip..];
  }

  lemma OffsetInWindow(doc: Text, block: Text, edited: Text, k: nat, prefix: nat, suffix: nat)
    requires |edited| == |doc| + |block| && InsertedAt(doc, block, edited, k)
    requires prefix <= |doc| && (prefix < |doc| ==> doc[prefix] != edited[prefix])
    requires suffix <= |doc| && (suffix < |doc| ==> doc[|doc| - suffix - 1] != edited[|edited| - suffix - 1])
    ensures |doc| - suffix <= k <= prefix
  {
    InsertedShape(doc, block, edited, k);
    assert forall p :: 0 <= p < k ==> doc[p] == doc[..k][p] && edited[p] == edited[..k][p];
    assert forall p :: k <= p < |doc| ==>
      doc[p] == doc[k..][p - k] && edited[p + |block|] == edited[k + |block|..][p - k];
  }
}
