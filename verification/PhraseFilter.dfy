/** The phrase query's predicate: a cheap anchor test in front of the whitespace-folded match. */
module PhraseFilter {
  import opened TextBasics

  /** `regexp_replace(s, '\s+', ' ', 'g')`: each run of whitespace becomes one space. */
  function Fold(s: string): string
    decreases |s|
  {
    if s == "" then ""
    else if IsWhite(s[0]) then " " + Fold(SkipWhite(s))
    else [s[0]] + Fold(s[1..])
  }

  function SkipWhite(s: string): (r: string)
    ensures |r| <= |s| && (s != "" && IsWhite(s[0]) ==> |r| < |s|)
  {
    if s != "" && IsWhite(s[0]) then SkipWhite(s[1..]) else s
  }

  /** The pieces of `s` between spaces. */
  function Segments(s: string): (segments: seq<string>)
    ensures segments != []
  {
    if s == "" then [""]
    else if s[0] == ' ' then [""] + Segments(s[1..])
    else var rest := Segments(s[1..]); [[s[0]] + rest[0]] + rest[1..]
  }

  function Utf8Width(c: char): nat {
    var n := c as int;
    if n < 0x80 then 1 else if n < 0x800 then 2 else if n < 0x10000 then 3 else 4
  }

  function ByteLength(s: string): nat {
    if s == "" then 0 else Utf8Width(s[0]) + ByteLength(s[1..])
  }

  /** `anchor` is the first segment of the greatest length. */
  predicate FirstLongest(segments: seq<string>, anchor: string) {
    exists i :: 0 <= i < |segments| && IsFirstLongest(segments, anchor, i)
  }

  predicate IsFirstLongest(segments: seq<string>, anchor: string, i: nat)
    requires i < |segments|
  {
    && segments[i] == anchor && (forall j :: 0 <= j < i ==> ByteLength(segments[j]) < ByteLength(anchor))
    && forall j :: i < j < |segments| ==> ByteLength(segments[j]) <= ByteLength(anchor)
  }

  /** The first of the longest segments, in bytes. */
  method LongestSegment(needle: string) returns (anchor: string)
    ensures anchor in Segments(needle) && FirstLongest(Segments(needle), anchor)
  {
    anchor := "";
    var segments := Segments(needle);
    ghost var at := 0;
    for i := 0 to |segments|
      invariant anchor == "" || (at < i && segments[at] == anchor)
      invariant anchor == "" ==> at == 0 && forall j :: 0 <= j < i ==> ByteLength(segments[j]) == 0
      invariant forall j :: 0 <= j < at ==> ByteLength(segments[j]) < ByteLength(anchor)
      invariant forall j :: at <= j < i ==> ByteLength(segments[j]) <= ByteLength(anchor)
    {
      if ByteLength(segments[i]) > ByteLength(anchor) {
        anchor := segments[i];
        at := i;
      }
    }
    assert ByteLength(segments[0]) == 0 ==> segments[0] == "";
    assert IsFirstLongest(segments, anchor, at);
  }

  /** A segment stands in the phrase; the first one stands at its head. */
  lemma {:induction false} SegmentOccurs(s: string, n: nat)
    requires n < |Segments(s)|
    ensures ' ' !in Segments(s)[n] && Contains(s, Segments(s)[n])
    ensures n == 0 ==> Occurs(s, Segments(s)[0], 0)
  {
    if s == "" {
      assert Occurs(s, "", 0);
    } else if s[0] == ' ' {
      if n == 0 {
        assert Occurs(s, "", 0);
      } else {
        SegmentOccurs(s[1..], n - 1);
        ContainsShifted(s, 1, Segments(s)[n]);
      }
    } else {
      var rest := Segments(s[1..]);
      if n == 0 {
        SegmentOccurs(s[1..], 0);
        assert s[..1 + |rest[0]|] == [s[0]] + s[1..][..|rest[0]|];
        assert Occurs(s, Segments(s)[0], 0);
      } else {
        assert Segments(s)[n] == rest[n];
        SegmentOccurs(s[1..], n);
        ContainsShifted(s, 1, rest[n]);
      }
    }
  }

  /** The segments with a space between each two. */
  function Join(segments: seq<string>): string
    requires segments != []
  {
    if |segments| == 1 then segments[0] else segments[0] + " " + Join(segments[1..])
  }

  lemma JoinFront(c: char, segments: seq<string>)
    requires segments != []
    ensures Join([[c] + segments[0]] + segments[1..]) == [c] + Join(segments)
  {
    var more := [[c] + segments[0]] + segments[1..];
    assert more[1..] == segments[1..];
  }

  lemma JoinEmpty(segments: seq<string>)
    requires segments != []
    ensures Join([""] + segments) == " " + Join(segments)
  {
    assert ([""] + segments)[1..] == segments;
  }

  /** The segments are the phrase cut at its spaces and nowhere else. */
  lemma {:induction false} SegmentsJoin(s: string)
    ensures Join(Segments(s)) == s
  {
    if s != "" {
      SegmentsJoin(s[1..]);
      JoinFront(s[0], Segments(s[1..]));
      JoinEmpty(Segments(s[1..]));
      assert s == [s[0]] + s[1..];
    }
  }

  /** An offset in a suffix is an offset in the whole. */
  lemma OccursShifted(s: string, shift: nat, part: string, at: nat)
    requires shift <= |s|
    ensures Occurs(s[shift..], part, at) <==> Occurs(s, part, shift + at)
  {
    if at + |part| <= |s| - shift {
      assert s[shift..][at..at + |part|] == s[shift + at..shift + at + |part|];
    }
  }

  lemma ContainsShifted(s: string, shift: nat, part: string)
    requires shift <= |s| && Contains(s[shift..], part)
    ensures Contains(s, part)
  {
    var at: nat :| Occurs(s[shift..], part, at);
    OccursShifted(s, shift, part, at);
  }

  predicate NoWhite(s: string) {
    forall c :: c in s ==> !IsWhite(c)
  }

  /** Folding leaves no whitespace but spaces. */
  lemma {:induction false} FoldLeavesSpaces(s: string)
    ensures forall c :: c in Fold(s) && IsWhite(c) ==> c == ' '
    decreases |s|
  {
    if s != "" {
      FoldLeavesSpaces(if IsWhite(s[0]) then SkipWhite(s) else s[1..]);
    }
  }

  /** A prefix without whitespace is not touched by folding. */
  lemma {:induction false} FoldKeepsPrefix(s: string, part: string)
    requires NoWhite(part) && part <= Fold(s)
    ensures part <= s
    decreases |part|
  {
    if part != "" {
      assert part[0] == Fold(s)[0] && part[0] in part;
      assert IsWhite(' ') && !IsWhite(s[0]);
      assert part[1..] <= Fold(s)[1..] && Fold(s)[1..] == Fold(s[1..]);
      FoldKeepsPrefix(s[1..], part[1..]);
      assert part == [part[0]] + part[1..] && s == [s[0]] + s[1..];
    }
  }

  /** What is left to fold after the first character of the result. */
  function Unfolded(s: string): (next: string)
    requires s != ""
    ensures |next| < |s|
  {
    if IsWhite(s[0]) then SkipWhite(s) else s[1..]
  }

  lemma FoldTail(s: string)
    requires s != ""
    ensures Fold(s) != "" && Fold(s)[1..] == Fold(Unfolded(s))
  {}

  /** A text is its leading whitespace followed by what starts dark. */
  lemma {:induction false} SplitWhite(s: string) returns (gap: string, rest: string)
    ensures s == gap + rest && rest == SkipWhite(s) && AllWhite(gap) && (rest == "" || !IsWhite(rest[0]))
    ensures gap == "" <==> s == "" || !IsWhite(s[0])
  {
    gap, rest := "", s;
    if s != "" && IsWhite(s[0]) {
      var g, r := SplitWhite(s[1..]);
      gap, rest := [s[0]] + g, r;
      assert s == [s[0]] + s[1..];
    }
  }

  lemma UnfoldSplit(s: string) returns (front: string)
    requires s != ""
    ensures s == front + Unfolded(s)
  {
    var gap, rest := SplitWhite(s);
    front := if IsWhite(s[0]) then gap else [s[0]];
    assert s == [s[0]] + s[1..];
  }

  lemma ContainsBehind(front: string, rest: string, part: string)
    requires Contains(rest, part)
    ensures Contains(front + rest, part)
  {
    assert (front + rest)[|front|..] == rest;
    ContainsShifted(front + rest, |front|, part);
  }

  lemma FoldKeepsFirstWord(s: string, part: string)
    requires NoWhite(part) && Occurs(Fold(s), part, 0)
    ensures Contains(s, part)
  {
    assert part <= Fold(s);
    FoldKeepsPrefix(s, part);
    assert Occurs(s, part, 0);
  }

  /** Text without whitespace that stands in the folded string stands in the string. */
  lemma {:induction false} FoldKeepsWords(s: string, part: string, at: nat)
    requires NoWhite(part) && Occurs(Fold(s), part, at)
    ensures Contains(s, part)
    decreases |s|
  {
    if at == 0 || s == "" {
      FoldKeepsFirstWord(s, part);
    } else {
      var front := UnfoldSplit(s);
      FoldTail(s);
      OccursShifted(Fold(s), 1, part, at - 1);
      FoldKeepsWords(Unfolded(s), part, at - 1);
      ContainsBehind(front, Unfolded(s), part);
    }
  }

  lemma OccursInside(s: string, whole: string, at: nat, part: string, inner: nat)
    requires Occurs(s, whole, at) && Occurs(whole, part, inner)
    ensures Occurs(s, part, at + inner)
  {
    forall k | 0 <= k < |part|
      ensures s[at + inner + k] == part[k]
    {
      assert s[at + inner + k] == s[at..at + |whole|][inner + k];
      assert whole[inner + k] == whole[inner..inner + |part|][k];
    }
  }

  /** A word of the folded text stands in the text. */
  lemma FoldedWordOccurs(text: string, word: string, at: nat)
    requires Occurs(Fold(text), word, at) && ' ' !in word
    ensures Contains(text, word)
  {
    FoldedWordIsDark(text, word, at);
    FoldKeepsWords(text, word, at);
  }

  /** If the folded text holds the phrase, the text itself holds each of its segments. */
  lemma SegmentSurvivesFold(text: string, needle: string, anchor: string)
    requires Contains(Fold(text), needle) && anchor in Segments(needle)
    ensures Contains(text, anchor)
  {
    var inner := SegmentAt(needle, anchor);
    var at: nat :| Occurs(Fold(text), needle, at);
    OccursInside(Fold(text), needle, at, anchor, inner);
    FoldedWordOccurs(text, anchor, at + inner);
  }

  lemma SegmentAt(needle: string, segment: string) returns (inner: nat)
    requires segment in Segments(needle)
    ensures Occurs(needle, segment, inner) && ' ' !in segment
  {
    var n :| 0 <= n < |Segments(needle)| && Segments(needle)[n] == segment;
    SegmentOccurs(needle, n);
    inner :| Occurs(needle, segment, inner);
  }

  /** What stands in a folded text and holds no space holds no whitespace. */
  lemma FoldedWordIsDark(text: string, word: string, at: nat)
    requires Occurs(Fold(text), word, at) && ' ' !in word
    ensures NoWhite(word)
  {
    FoldLeavesSpaces(text);
    forall c | c in word
      ensures !IsWhite(c)
    {
      var i :| 0 <= i < |word| && word[i] == c;
      assert c == Fold(text)[at..at + |word|][i];
      assert c in Fold(text);
    }
  }

  // ----- what folding produces -----

  /** The characters that are not whitespace. */
  function Darks(s: string): string {
    if s == "" then "" else (if IsWhite(s[0]) then "" else [s[0]]) + Darks(s[1..])
  }

  /** Whitespace stands alone: no two neighbours are both white. */
  predicate WhiteAlone(s: string) {
    forall i :: 0 <= i < |s| - 1 ==> !IsWhite(s[i]) || !IsWhite(s[i+1])
  }

  lemma {:induction false} DarksBehindGap(gap: string, rest: string)
    requires AllWhite(gap)
    ensures Darks(gap + rest) == Darks(rest)
  {
    if gap == "" {
      assert gap + rest == rest;
    } else {
      assert (gap + rest)[0] == gap[0] && (gap + rest)[1..] == gap[1..] + rest;
      DarksBehindGap(gap[1..], rest);
    }
  }

  lemma {:induction false} SkipGap(gap: string, rest: string)
    requires AllWhite(gap) && (rest == "" || !IsWhite(rest[0]))
    ensures SkipWhite(gap + rest) == rest
  {
    if gap == "" {
      assert gap + rest == rest;
    } else {
      assert (gap + rest)[1..] == gap[1..] + rest;
      SkipGap(gap[1..], rest);
    }
  }

  /** A run of whitespace becomes one space. */
  lemma FoldAfterGap(gap: string, rest: string)
    requires gap != "" && AllWhite(gap) && (rest == "" || !IsWhite(rest[0]))
    ensures Fold(gap + rest) == " " + Fold(rest)
  {
    assert (gap + rest)[0] == gap[0];
    SkipGap(gap, rest);
  }

  /** A word stays as it is. */
  lemma {:induction false} FoldAfterWord(word: string, rest: string)
    requires NoWhite(word)
    ensures Fold(word + rest) == word + Fold(rest)
  {
    if word == "" {
      assert word + rest == rest;
    } else {
      assert (word + rest)[0] == word[0] && word[0] in word && (word + rest)[1..] == word[1..] + rest;
      FoldAfterWord(word[1..], rest);
      assert word == [word[0]] + word[1..];
    }
  }

  lemma SkippedDarks(s: string)
    ensures Darks(SkipWhite(s)) == Darks(s) && (SkipWhite(s) != "" ==> !IsWhite(SkipWhite(s)[0]))
  {
    var gap, rest := SplitWhite(s);
    DarksBehindGap(gap, rest);
  }

  lemma WhiteAloneCons(c: char, s: string)
    requires WhiteAlone(s) && (s != "" && IsWhite(c) ==> !IsWhite(s[0]))
    ensures WhiteAlone([c] + s)
  {}

  lemma DarksCons(c: char, s: string)
    ensures Darks([c] + s) == (if IsWhite(c) then "" else [c]) + Darks(s)
  {
    assert ([c] + s)[1..] == s;
  }

  /** Folding keeps every dark character in order, and leaves a single space where whitespace was. */
  lemma {:induction false} FoldShape(s: string)
    ensures Darks(Fold(s)) == Darks(s) && WhiteAlone(Fold(s))
    ensures (forall c :: c in Fold(s) && IsWhite(c) ==> c == ' ')
    ensures (Fold(s) == "" <==> s == "") && (s != "" ==> (IsWhite(Fold(s)[0]) <==> IsWhite(s[0])))
    decreases |s|
  {
    FoldLeavesSpaces(s);
    if s != "" {
      var head, rest := if IsWhite(s[0]) then ' ' else s[0], Fold(Unfolded(s));
      FoldShape(Unfolded(s));
      SkippedDarks(s);
      assert IsWhite(' ') && Fold(s) == [head] + rest;
      DarksCons(head, rest);
      WhiteAloneCons(head, rest);
    }
  }

  /** What is folded behind a text stands at the end of the folded whole. */
  lemma {:induction false} FoldSuffix(a: string, b: string) returns (front: string)
    ensures Fold(a + b) == front + Fold(b)
    decreases |a|
  {
    if a == "" {
      assert a + b == b;
      front := "";
    } else if !IsWhite(a[0]) {
      assert a + b == [a[0]] + (a[1..] + b);
      FoldAfterWord([a[0]], a[1..] + b);
      var rest := FoldSuffix(a[1..], b);
      front := [a[0]] + rest;
    } else {
      var gap, dark := SplitWhite(a);
      if dark == "" {
        front := FoldSuffixOfGap(a, b);
      } else {
        assert a + b == gap + (dark + b) && (dark + b)[0] == dark[0];
        FoldAfterGap(gap, dark + b);
        var rest := FoldSuffix(dark, b);
        front := " " + rest;
      }
    }
  }

  lemma FoldSuffixOfGap(gap: string, b: string) returns (front: string)
    requires gap != "" && AllWhite(gap)
    ensures Fold(gap + b) == front + Fold(b) && " " <= Fold(gap + b)
  {
    var run, rest := SplitWhite(b);
    assert gap + b == (gap + run) + rest;
    FoldAfterGap(gap + run, rest);
    if run == "" {
      assert b == rest;
      front := " ";
    } else {
      FoldAfterGap(run, rest);
      front := "";
    }
  }

  lemma PrefixCons(c: char, a: string, b: string)
    requires a <= b
    ensures [c] + a <= [c] + b
  {}

  /** What is folded in front stands at the head of the folded whole. */
  lemma {:induction false} FoldPrefix(a: string, b: string)
    ensures Fold(a) <= Fold(a + b)
    decreases |a|
  {
    if a == "" {
    } else if !IsWhite(a[0]) {
      assert a + b == [a[0]] + (a[1..] + b) && a == [a[0]] + a[1..];
      FoldAfterWord([a[0]], a[1..] + b);
      FoldPrefix(a[1..], b);
      PrefixCons(a[0], Fold(a[1..]), Fold(a[1..] + b));
    } else {
      var gap, dark := SplitWhite(a);
      FoldAfterGap(gap, dark);
      if dark == "" {
        assert Fold(a) == " ";
        var front := FoldSuffixOfGap(a, b);
      } else {
        assert a + b == gap + (dark + b) && (dark + b)[0] == dark[0];
        FoldAfterGap(gap, dark + b);
        FoldPrefix(dark, b);
        PrefixCons(' ', Fold(dark), Fold(dark + b));
      }
    }
  }

  lemma OccursMiddle(front: string, part: string, tail: string)
    ensures Occurs(front + (part + tail), part, |front|)
  {}

  lemma OccurrenceSplits(text: string, part: string, at: nat) returns (front: string, tail: string)
    requires Occurs(text, part, at)
    ensures text == front + (part + tail)
  {
    front, tail := text[..at], text[at + |part|..];
  }

  /** A part of the text folds to a part of the folded text. */
  lemma FoldPart(text: string, part: string)
    requires Contains(text, part)
    ensures Contains(Fold(text), Fold(part))
  {
    var at: nat :| Occurs(text, part, at);
    var front, tail := OccurrenceSplits(text, part, at);
    var folded := FoldSuffix(front, part + tail);
    FoldPrefix(part, tail);
    var rest := Fold(part + tail)[|Fold(part)|..];
    assert Fold(part + tail) == Fold(part) + rest;
    OccursMiddle(folded, Fold(part), rest);
  }

  /** A head of what is left to fold becomes a head of the text, one folded character longer. */
  lemma HeadGrows(text: string, h: string, t: string) returns (head: string)
    requires text != "" && Unfolded(text) == h + t
    ensures text == head + t && Fold(head) == [Fold(text)[0]] + Fold(h)
  {
    if IsWhite(text[0]) {
      var gap, rest := SplitWhite(text);
      assert h != "" ==> h[0] == rest[0];
      FoldAfterGap(gap, h);
      head := gap + h;
    } else {
      FoldAfterWord([text[0]], h);
      head := [text[0]] + h;
      assert text == [text[0]] + text[1..];
    }
  }

  /** What stands at the head of the folded text is the fold of some head of the text. */
  lemma {:induction false} HeadUnfolds(text: string, needle: string) returns (head: string, tail: string)
    requires needle <= Fold(text)
    ensures text == head + tail && Fold(head) == needle
    decreases |text|
  {
    head, tail := "", text;
    if needle != "" {
      FoldTail(text);
      var h, t := HeadUnfolds(Unfolded(text), needle[1..]);
      head := HeadGrows(text, h, t);
      tail := t;
      assert needle == [needle[0]] + needle[1..];
    }
  }

  /** What stands in the folded text is the fold of some part of the text. */
  lemma {:induction false} FoldedOccurs(text: string, needle: string, at: nat) returns (part: string)
    requires Occurs(Fold(text), needle, at)
    ensures Contains(text, part) && Fold(part) == needle
    decreases |text|
  {
    if at == 0 || text == "" {
      assert needle <= Fold(text);
      var head, tail := HeadUnfolds(text, needle);
      part := head;
      OccursMiddle("", head, tail);
      assert text == "" + (head + tail);
    } else {
      var front := UnfoldSplit(text);
      FoldTail(text);
      OccursShifted(Fold(text), 1, needle, at - 1);
      part := FoldedOccurs(Unfolded(text), needle, at - 1);
      ContainsBehind(front, Unfolded(text), part);
    }
  }

  // ----- phrases of words -----

  predicate IsWord(s: string) {
    s != "" && NoWhite(s)
  }

  predicate AllWords(words: seq<string>) {
    forall i :: 0 <= i < |words| ==> IsWord(words[i])
  }

  predicate AllGaps(gaps: seq<string>) {
    forall i :: 0 <= i < |gaps| ==> gaps[i] != "" && AllWhite(gaps[i])
  }

  /** The words with the gaps between them. */
  function Spread(words: seq<string>, gaps: seq<string>): string
    requires words != [] && |gaps| == |words| - 1
  {
    if |words| == 1 then words[0] else words[0] + (gaps[0] + Spread(words[1..], gaps[1..]))
  }

  /** The words stand in the text one after the other, with whitespace of any kind and length between. */
  ghost predicate HasWords(text: string, words: seq<string>)
    requires words != []
  {
    exists gaps :: |gaps| == |words| - 1 && AllGaps(gaps) && Contains(text, Spread(words, gaps))
  }

  lemma {:induction false} FoldSpread(words: seq<string>, gaps: seq<string>)
    requires words != [] && |gaps| == |words| - 1 && AllWords(words) && AllGaps(gaps)
    ensures Fold(Spread(words, gaps)) == Join(words)
  {
    assert IsWord(words[0]);
    if |words| == 1 {
      FoldAfterWord(words[0], "");
      assert words[0] + "" == words[0];
    } else {
      FoldSpread(words[1..], gaps[1..]);
      var rest := Spread(words[1..], gaps[1..]);
      SpreadStartsDark(words[1..], gaps[1..]);
      FoldAfterGap(gaps[0], rest);
      FoldAfterWord(words[0], gaps[0] + rest);
    }
  }

  lemma SpreadStartsDark(words: seq<string>, gaps: seq<string>)
    requires words != [] && |gaps| == |words| - 1 && AllWords(words)
    ensures Spread(words, gaps) != "" && !IsWhite(Spread(words, gaps)[0])
  {
    assert IsWord(words[0]) && words[0][0] in words[0];
    assert Spread(words, gaps)[0] == words[0][0];
  }

  lemma CancelFront(front: string, a: string, b: string)
    requires front + a == front + b
    ensures a == b
  {
    assert (front + a)[|front|..] == a && (front + b)[|front|..] == b;
  }

  /** What folds to a word and more starts with the word. */
  lemma AfterWord(part: string, word: string, more: string) returns (rest: string)
    requires NoWhite(word) && Fold(part) == word + more
    ensures part == word + rest && Fold(rest) == more
  {
    assert word <= Fold(part);
    FoldKeepsPrefix(part, word);
    rest := part[|word|..];
    assert part == word + rest;
    FoldAfterWord(word, rest);
    CancelFront(word, Fold(rest), more);
  }

  /** What folds to a space and more starts with whitespace. */
  lemma AfterGap(part: string, more: string) returns (gap: string, rest: string)
    requires Fold(part) == " " + more
    ensures part == gap + rest && gap != "" && AllWhite(gap) && Fold(rest) == more
  {
    FoldShape(part);
    assert Fold(part)[0] == ' ' && IsWhite(' ');
    gap, rest := SplitWhite(part);
    FoldAfterGap(gap, rest);
    CancelFront(" ", Fold(rest), more);
  }

  /** Only the words with gaps between them fold to the phrase. */
  lemma {:induction false} UnfoldSpread(part: string, words: seq<string>) returns (gaps: seq<string>)
    requires words != [] && AllWords(words) && Fold(part) == Join(words)
    ensures |gaps| == |words| - 1 && AllGaps(gaps) && part == Spread(words, gaps)
    decreases |words|
  {
    assert IsWord(words[0]);
    if |words| == 1 {
      assert Join(words) == words[0] + "";
      var rest := AfterWord(part, words[0], "");
      FoldShape(rest);
      gaps := [];
    } else {
      var tail := Join(words[1..]);
      assert Join(words) == words[0] + (" " + tail);
      var rest := AfterWord(part, words[0], " " + tail);
      var gap, next := AfterGap(rest, tail);
      var more := UnfoldSpread(next, words[1..]);
      gaps := [gap] + more;
      assert gaps[1..] == more;
    }
  }

  /** The folded text holds a phrase of words exactly when the text has the words, in order, with any
      whitespace between each two and nothing else. */
  lemma PhraseMeansWords(text: string, words: seq<string>)
    requires words != [] && AllWords(words)
    ensures Contains(Fold(text), Join(words)) <==> HasWords(text, words)
  {
    if Contains(Fold(text), Join(words)) {
      var at: nat :| Occurs(Fold(text), Join(words), at);
      var part := FoldedOccurs(text, Join(words), at);
      var gaps := UnfoldSpread(part, words);
    }
    if HasWords(text, words) {
      var gaps :| |gaps| == |words| - 1 && AllGaps(gaps) && Contains(text, Spread(words, gaps));
      FoldSpread(words, gaps);
      FoldPart(text, Spread(words, gaps));
    }
  }

  /** Any phrase at all, also one with leading, trailing or repeated spaces, stands in the folded text
      exactly when some part of the text folds to it. */
  lemma PhraseMeansPart(text: string, needle: string)
    ensures Contains(Fold(text), needle) <==> exists part :: Contains(text, part) && Fold(part) == needle
  {
    if Contains(Fold(text), needle) {
      var at: nat :| Occurs(Fold(text), needle, at);
      var part := FoldedOccurs(text, needle, at);
    }
    if exists part :: Contains(text, part) && Fold(part) == needle {
      var part :| Contains(text, part) && Fold(part) == needle;
      FoldPart(text, part);
    }
  }

  // ----- the predicate -----

  datatype Row = Row(searchText: string, text: string)

  /** The exact part of the predicate, for a phrase already in lower case. */
  ghost predicate Matches(row: Row, needle: string, lower: string -> string) {
    && Contains(Fold(lower(row.searchText)), needle)
    && (Contains(Fold(lower(row.text)), needle) || Contains(row.text, "[^"))
  }

  /** What the predicate selects for a phrase of words: rows whose search text has the words in order, and
      whose text has them too or holds a footnote mark. */
  lemma MatchesMeansWords(row: Row, words: seq<string>, lower: string -> string)
    requires words != [] && AllWords(words)
    ensures Matches(row, Join(words), lower) <==>
      && HasWords(lower(row.searchText), words)
      && (HasWords(lower(row.text), words) || Contains(row.text, "[^"))
  {
    PhraseMeansWords(lower(row.searchText), words);
    PhraseMeansWords(lower(row.text), words);
  }

  ghost predicate MatchesWithAnchor(row: Row, needle: string, anchor: string, lower: string -> string) {
    (anchor != "" ==> Contains(lower(row.searchText), anchor)) && Matches(row, needle, lower)
  }

  ghost function Select(rows: seq<Row>, keep: Row -> bool): seq<Row> {
    if rows == [] then [] else (if keep(rows[0]) then [rows[0]] else []) + Select(rows[1..], keep)
  }

  /** The prefilter never changes the result, for any table, any phrase and any of its segments. */
  lemma {:induction false} AnchorChangesNothing(rows: seq<Row>, needle: string, anchor: string, lower: string -> string)
    requires anchor == "" || anchor in Segments(needle)
    ensures Select(rows, r => MatchesWithAnchor(r, needle, anchor, lower))
      == Select(rows, r => Matches(r, needle, lower))
  {
    if rows != [] {
      AnchorChangesNothing(rows[1..], needle, anchor, lower);
      if anchor != "" && Matches(rows[0], needle, lower) {
        SegmentSurvivesFold(lower(rows[0].searchText), needle, anchor);
      }
    }
  }
}
