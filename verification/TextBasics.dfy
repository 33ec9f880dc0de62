/** Whitespace, line counts and substring search, shared by the text checks. */
module TextBasics {

  /** The characters with the Unicode `White_Space` property. */
  predicate IsWhite(c: char) {
    var n := c as int;
    0x9 <= n <= 0xD || n == 0x20 || n == 0x85 || n == 0xA0 || n == 0x1680 || 0x2000 <= n <= 0x200A
    || n == 0x2028 || n == 0x2029 || n == 0x202F || n == 0x205F || n == 0x3000
  }

  /** All of them: tab to carriage return, space, next line, no-break space, and the Unicode spaces. */
  lemma WhiteSpaceListed(c: char)
    ensures IsWhite(c) <==> c as int in {
      0x9, 0xA, 0xB, 0xC, 0xD, 0x20, 0x85, 0xA0, 0x1680, 0x2000, 0x2001, 0x2002, 0x2003, 0x2004, 0x2005, 0x2006,
      0x2007, 0x2008, 0x2009, 0x200A, 0x2028, 0x2029, 0x202F, 0x205F, 0x3000 }
  {}

  predicate AllWhite(s: string) {
    forall i :: 0 <= i < |s| ==> IsWhite(s[i])
  }

  function Newlines(s: string): nat {
    if s == "" then 0 else Newlines(s[..|s|-1]) + if s[|s|-1] == '\n' then 1 else 0
  }

  lemma {:induction false} NewlinesConcat(a: string, b: string)
    ensures Newlines(a + b) == Newlines(a) + Newlines(b)
  {
    if b == "" {
      assert a + b == a;
    } else {
      assert (a + b)[..|a + b|-1] == a + b[..|b|-1];
      NewlinesConcat(a, b[..|b|-1]);
    }
  }

  /** `part` stands at offset `at` of `text`. */
  predicate Occurs(text: string, part: string, at: nat) {
    at + |part| <= |text| && text[at..at + |part|] == part
  }

  ghost predicate Contains(text: string, part: string) {
    exists at: nat :: Occurs(text, part, at)
  }

  /** `at` is the first offset from `from` on where `part` stands. */
  predicate FirstFrom(text: string, part: string, from: nat, at: nat) {
    from <= at && Occurs(text, part, at) && forall z :: from <= z < at ==> !Occurs(text, part, z)
  }
}
