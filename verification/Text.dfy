/** The string operations of the source: Unicode white space, `strip` and `lower`. */
module Text {

  // The characters Python's str.isspace() accepts, which are also those its regex class \s accepts.
  predicate IsSpace(c: char) {
    || '\t' <= c <= '\r'
    || '\U{1C}' <= c <= ' '
    || c == '\U{85}' || c == '\U{A0}' || c == '\U{1680}'
    || '\U{2000}' <= c <= '\U{200A}'
    || c == '\U{2028}' || c == '\U{2029}' || c == '\U{202F}' || c == '\U{205F}' || c == '\U{3000}'
  }

  lemma SpaceCodes(c: char)
    ensures var n := c as int;
      IsSpace(c) <==>
        || 9 <= n <= 13 || 28 <= n <= 32 || n == 133 || n == 160 || n == 5760 || 8192 <= n <= 8202
        || n == 8232 || n == 8233 || n == 8239 || n == 8287 || n == 12288
  {
  }

  predicate Blank(s: string) {
    forall c | c in s :: IsSpace(c)
  }

  function StripLeft(s: string): (r: string)
    ensures r != [] ==> !IsSpace(r[0])
  {
    if s != [] && IsSpace(s[0]) then StripLeft(s[1..]) else s
  }

  function StripRight(s: string): (r: string)
    ensures r != [] ==> !IsSpace(r[|r| - 1])
  {
    if s != [] && IsSpace(s[|s| - 1]) then StripRight(s[..|s| - 1]) else s
  }

  function Strip(s: string): string {
    StripRight(StripLeft(s))
  }

  lemma {:induction false} StripLeftCuts(s: string) returns (lead: string)
    ensures s == lead + StripLeft(s) && Blank(lead)
  {
    lead := [];
    if s != [] && IsSpace(s[0]) {
      var rest := StripLeftCuts(s[1..]);
      lead := [s[0]] + rest;
    }
  }

  lemma {:induction false} StripRightCuts(s: string) returns (tail: string)
    ensures s == StripRight(s) + tail && Blank(tail)
  {
    tail := [];
    if s != [] && IsSpace(s[|s| - 1]) {
      var rest := StripRightCuts(s[..|s| - 1]);
      tail := rest + [s[|s| - 1]];
      assert s == s[..|s| - 1] + [s[|s| - 1]];
    }
  }

  // Strip cuts white space at both ends and nothing else.
  lemma StripCuts(s: string) returns (lead: string, tail: string)
    ensures s == lead + Strip(s) + tail && Blank(lead) && Blank(tail)
    ensures var r := Strip(s); r != [] ==> !IsSpace(r[0]) && !IsSpace(r[|r| - 1])
  {
    lead := StripLeftCuts(s);
    tail := StripRightCuts(StripLeft(s));
    var r := Strip(s);
    assert StripLeft(s) == r + tail;
    if r != [] {
      assert r[0] == StripLeft(s)[0];
    }
  }

  // Only the ASCII letters are folded.
  function Lower(s: string): (r: string)
    ensures |r| == |s|
  {
    seq(|s|, i requires 0 <= i < |s| => if 'A' <= s[i] <= 'Z' then s[i] + 32 as char else s[i])
  }

  // `x.strip().lower()`, the form in which identifiers are compared.
  function Norm(s: string): string {
    Lower(Strip(s))
  }

  // The characters of s that are not white space, in order.
  function Ink(s: string): string {
    if s == [] then [] else (if IsSpace(s[0]) then [] else [s[0]]) + Ink(s[1..])
  }

  lemma {:induction false} InkConcat(a: string, b: string)
    ensures Ink(a + b) == Ink(a) + Ink(b)
  {
    if a == [] {
      assert a + b == b;
    } else {
      assert (a + b)[1..] == a[1..] + b;
      InkConcat(a[1..], b);
    }
  }

  lemma {:induction false} InkBlank(s: string)
    ensures Ink(s) == [] <==> Blank(s)
  {
    if s != [] {
      InkBlank(s[1..]);
      assert s == [s[0]] + s[1..];
    }
  }

  lemma InkStrip(s: string)
    ensures Ink(Strip(s)) == Ink(s)
  {
    var lead, tail := StripCuts(s);
    InkAround([], lead, Strip(s) + tail);
    InkAround(Strip(s), tail, []);
    assert [] + lead + (Strip(s) + tail) == s && Strip(s) + tail + [] == Strip(s) + tail;
  }

  lemma InkAround(head: string, gap: string, rest: string)
    requires Blank(gap)
    ensures Ink(head + gap + rest) == Ink(head) + Ink(rest)
  {
    InkConcat(head + gap, rest);
    InkConcat(head, gap);
    InkBlank(gap);
  }
}
