/** Character classes and the few `str` methods the core relies on:
    `isspace`, `strip`, ASCII `upper`/`lower`, and substring test `in`. */
module Chars {

  /** Python's `str.isspace` (the same class that `re`'s `\s`, `str.split()`
      and `str.strip()` use on `str` values). */
  predicate IsSpace(c: char) {
    || ('\U{0009}' <= c <= '\U{000D}')
    || ('\U{001C}' <= c <= '\U{0020}')
    || c == '\U{0085}' || c == '\U{00A0}' || c == '\U{1680}'
    || ('\U{2000}' <= c <= '\U{200A}')
    || c == '\U{2028}' || c == '\U{2029}' || c == '\U{202F}' || c == '\U{205F}' || c == '\U{3000}'
  }

  predicate IsAsciiLetter(c: char) {
    ('a' <= c <= 'z') || ('A' <= c <= 'Z')
  }

  function UpperChar(c: char): (u: char)
    ensures 'a' <= c <= 'z' ==> 'A' <= u <= 'Z' && u as int == c as int - 32
    ensures !('a' <= c <= 'z') ==> u == c
  {
    if 'a' <= c <= 'z' then (c as int - 32) as char else c
  }

  function LowerChar(c: char): (l: char)
    ensures 'A' <= c <= 'Z' ==> 'a' <= l <= 'z' && l as int == c as int + 32
    ensures !('A' <= c <= 'Z') ==> l == c
  {
    if 'A' <= c <= 'Z' then (c as int + 32) as char else c
  }

  /** ASCII case mapping of a whole string, character by character. */
  function Upper(s: string): (r: string)
    ensures |r| == |s|
    ensures forall i :: 0 <= i < |s| ==> r[i] == UpperChar(s[i])
  {
    seq(|s|, i requires 0 <= i < |s| => UpperChar(s[i]))
  }

  function Lower(s: string): (r: string)
    ensures |r| == |s|
    ensures forall i :: 0 <= i < |s| ==> r[i] == LowerChar(s[i])
  {
    seq(|s|, i requires 0 <= i < |s| => LowerChar(s[i]))
  }

  predicate AllSpace(s: string) {
    forall i :: 0 <= i < |s| ==> IsSpace(s[i])
  }

  predicate NoSpace(s: string) {
    forall i :: 0 <= i < |s| ==> !IsSpace(s[i])
  }

  /** `s` is empty or does not begin with whitespace. */
  predicate NoLeadingSpace(s: string) {
    s == [] || !IsSpace(s[0])
  }

  /** `s` is empty or does not end with whitespace. */
  predicate NoTrailingSpace(s: string) {
    s == [] || !IsSpace(s[|s| - 1])
  }

  /** `str.lstrip()`: drop the leading whitespace. */
  function SkipSpace(s: string): (r: string)
    ensures |r| <= |s|
    ensures NoLeadingSpace(r)
    ensures |s| > 0 && IsSpace(s[0]) ==> |r| < |s|
    decreases |s|
  {
    if s == [] || !IsSpace(s[0]) then s else SkipSpace(s[1..])
  }

  /** What `SkipSpace` drops is whitespace and what it keeps is a suffix. */
  lemma {:induction false} SkipSpaceSplits(s: string)
    ensures s[|s| - |SkipSpace(s)|..] == SkipSpace(s)
    ensures AllSpace(s[..|s| - |SkipSpace(s)|])
    decreases |s|
  {
    if s != [] && IsSpace(s[0]) {
      var t := s[1..];
      SkipSpaceSplits(t);
      var k := |t| - |SkipSpace(t)|;
      assert SkipSpace(s) == SkipSpace(t);
      assert s[k + 1..] == t[k..];
      var p := s[..k + 1];
      forall i | 0 <= i < |p|
        ensures IsSpace(p[i])
      {
        if i > 0 {
          assert p[i] == t[..k][i - 1];
        }
      }
    }
  }

  /** `str.rstrip()`: drop the trailing whitespace. */
  function TrimEnd(s: string): (r: string)
    ensures |r| <= |s| && r == s[..|r|]
    ensures AllSpace(s[|r|..])
    ensures NoTrailingSpace(r)
  {
    if s == [] || !IsSpace(s[|s| - 1]) then s else TrimEnd(s[..|s| - 1])
  }

  /** `str.strip()`. */
  function Strip(s: string): (r: string)
    ensures NoLeadingSpace(r) && NoTrailingSpace(r)
    ensures |r| <= |s|
    ensures NoLeadingSpace(s) && NoTrailingSpace(s) ==> r == s
  {
    TrimEnd(SkipSpace(s))
  }

  lemma {:induction false} SkipSpaceAfterSpaces(p: string, x: string)
    requires AllSpace(p)
    ensures SkipSpace(p + x) == SkipSpace(x)
    decreases |p|
  {
    if p != [] {
      assert IsSpace(p[0]) && (p + x)[0] == p[0];
      assert (p + x)[1..] == p[1..] + x;
      assert SkipSpace(p + x) == SkipSpace(p[1..] + x);
      SkipSpaceAfterSpaces(p[1..], x);
    } else {
      assert p + x == x;
    }
  }

  lemma {:induction false} TrimEndBeforeSpaces(x: string, q: string)
    requires AllSpace(q)
    ensures TrimEnd(x + q) == TrimEnd(x)
    decreases |q|
  {
    if q != [] {
      var q' := q[..|q| - 1];
      assert IsSpace(q[|q| - 1]);
      assert (x + q)[|x + q| - 1] == q[|q| - 1];
      assert (x + q)[..|x + q| - 1] == x + q';
      assert TrimEnd(x + q) == TrimEnd(x + q');
      TrimEndBeforeSpaces(x, q');
    } else {
      assert x + q == x;
    }
  }

  /** Stripping whitespace padding around a string with no edge whitespace
      gives that string back. */
  lemma StripPadded(p: string, x: string, q: string)
    requires AllSpace(p) && AllSpace(q)
    requires NoLeadingSpace(x) && NoTrailingSpace(x)
    ensures Strip(p + x + q) == x
  {
    assert p + x + q == p + (x + q);
    SkipSpaceAfterSpaces(p, x + q);
    if x == [] {
      assert x + q == q;
      SkipSpaceAfterSpaces(q, []);
      assert q + [] == q;
    } else {
      assert SkipSpace(x + q) == x + q;
      TrimEndBeforeSpaces(x, q);
    }
  }

  lemma StripSuffix(x: string, q: string)
    requires AllSpace(q)
    requires NoLeadingSpace(x) && NoTrailingSpace(x)
    ensures Strip(x + q) == x
  {
    assert [] + x + q == x + q;
    StripPadded([], x, q);
  }

  // ---------------------------------------------------------------------------
  // Substring test, Python's `needle in hay`.

  /** True iff `needle` occurs at position `i` of `hay`. */
  predicate OccursAt(hay: string, needle: string, i: int) {
    0 <= i && i + |needle| <= |hay| && hay[i..i + |needle|] == needle
  }

  /** Python's `needle in hay`, scanning left to right. */
  function Contains(hay: string, needle: string): (r: bool)
    ensures needle == [] ==> r
    ensures r ==> |needle| <= |hay|
    ensures |needle| == |hay| ==> (r <==> hay == needle)
    decreases |hay|
  {
    if |needle| > |hay| then false
    else if hay[..|needle|] == needle then true
    else Contains(hay[1..], needle)
  }

  /** The scan agrees with the definition "there is a position where the
      needle occurs", in both directions. */
  lemma {:induction false} ContainsIffOccurs(hay: string, needle: string)
    ensures Contains(hay, needle) <==> exists i :: OccursAt(hay, needle, i)
    decreases |hay|
  {
    if |needle| > |hay| {
      assert forall i :: !OccursAt(hay, needle, i);
    } else if hay[..|needle|] == needle {
      assert OccursAt(hay, needle, 0);
    } else {
      ContainsIffOccurs(hay[1..], needle);
      if Contains(hay, needle) {
        var i :| OccursAt(hay[1..], needle, i);
        assert hay[1..][i..i + |needle|] == hay[i + 1..i + 1 + |needle|];
        assert OccursAt(hay, needle, i + 1);
      } else {
        forall i | OccursAt(hay, needle, i)
          ensures false
        {
          if i > 0 {
            assert hay[1..][i - 1..i - 1 + |needle|] == hay[i..i + |needle|];
            assert OccursAt(hay[1..], needle, i - 1);
          }
        }
      }
    }
  }

  /** A text that contains a longer needle contains every prefix of it. */
  lemma ContainsPrefix(hay: string, needle: string, more: string)
    ensures Contains(hay, needle + more) ==> Contains(hay, needle)
  {
    if Contains(hay, needle + more) {
      ContainsIffOccurs(hay, needle + more);
      ContainsIffOccurs(hay, needle);
      var i :| OccursAt(hay, needle + more, i);
      assert hay[i..i + |needle|] == hay[i..i + |needle + more|][..|needle|];
      assert OccursAt(hay, needle, i);
    }
  }
}
