/** Whitespace handling of `text_postprocess.py`: `clean_whitespace`, and the
    `str.split()` / `" ".join(...)` pair that `normalize_acronyms` tokenises with. */
module Whitespace {
  import opened Chars

  /** A token of `str.split()`: non-empty, no whitespace inside. */
  predicate IsWord(w: string) {
    |w| > 0 && NoSpace(w)
  }

  predicate AllWords(ws: seq<string>) {
    forall i :: 0 <= i < |ws| ==> IsWord(ws[i])
  }

  /** The shape `clean_whitespace` promises: no whitespace at either end, and
      every whitespace character is a single ' ' followed by a non-space. */
  predicate Normalized(s: string) {
    && NoLeadingSpace(s)
    && NoTrailingSpace(s)
    && (forall i :: 0 <= i < |s| && IsSpace(s[i]) ==> s[i] == ' ')
    && NoDoubleSpace(s)
  }

  /** No two adjacent whitespace characters. */
  predicate NoDoubleSpace(s: string) {
    forall i, j :: 0 <= i < |s| && 0 <= j < |s| && j == i + 1 ==> !IsSpace(s[i]) || !IsSpace(s[j])
  }

  /** Length of the leading run of non-whitespace characters. */
  function WordLength(s: string): (n: nat)
    ensures n <= |s|
    ensures n < |s| ==> IsSpace(s[n])
    ensures forall i :: 0 <= i < n ==> !IsSpace(s[i])
    ensures NoLeadingSpace(s) && s != [] ==> n > 0
    decreases |s|
  {
    if s == [] || IsSpace(s[0]) then 0 else 1 + WordLength(s[1..])
  }

  /** Python's `str.split()` with no argument. */
  function Words(s: string): (ws: seq<string>)
    ensures AllWords(ws)
    ensures |ws| <= |s|
    decreases |s|
  {
    var t := SkipSpace(s);
    if t == [] then []
    else
      var n := WordLength(t);
      assert IsWord(t[..n]);
      [t[..n]] + Words(t[n..])
  }

  /** `" ".join(ws)`. */
  function Join(ws: seq<string>): string
  {
    if ws == [] then []
    else if |ws| == 1 then ws[0]
    else ws[0] + " " + Join(ws[1..])
  }

  /** `re.sub(r"\s+", " ", s)`: every maximal whitespace run becomes one ' '. */
  function Collapse(s: string): (r: string)
    ensures |r| <= |s|
    ensures r == [] <==> s == []
    decreases |s|
  {
    if s == [] then []
    else if IsSpace(s[0]) then " " + Collapse(SkipSpace(s))
    else [s[0]] + Collapse(s[1..])
  }

  /** The collapsed text starts with ' ' exactly when the text starts with
      whitespace, and otherwise with the text's first character. */
  lemma CollapseFirst(s: string)
    requires s != []
    ensures Collapse(s)[0] == ' ' <==> IsSpace(s[0])
    ensures !IsSpace(s[0]) ==> Collapse(s)[0] == s[0]
  {
  }

  /** `clean_whitespace`: collapse whitespace runs, then strip both ends. */
  function CleanWhitespace(s: string): (r: string)
    ensures Normalized(r)
    ensures r == Join(Words(s))
  {
    CleanIsJoinOfWords(s);
    JoinNormalized(Words(s));
    Strip(Collapse(s))
  }

  // ---------------------------------------------------------------------------
  // Join of words.

  lemma JoinNonEmpty(ws: seq<string>)
    requires AllWords(ws) && ws != []
    ensures |Join(ws)| > 0
    ensures Join(ws)[0] == ws[0][0]
  {
    if |ws| > 1 {
      assert Join(ws) == ws[0] + (" " + Join(ws[1..]));
    }
  }

  /** Joining words gives a normalized string. */
  lemma {:induction false} JoinNormalized(ws: seq<string>)
    requires AllWords(ws)
    ensures Normalized(Join(ws))
    decreases |ws|
  {
    if |ws| > 1 {
      var w, rest := ws[0], Join(ws[1..]);
      JoinNormalized(ws[1..]);
      JoinNonEmpty(ws[1..]);
      var s := w + " " + rest;
      assert Join(ws) == s;
      forall i | 0 <= i < |s| && IsSpace(s[i])
        ensures s[i] == ' ' && i + 1 < |s| && !IsSpace(s[i + 1])
      {
        if i > |w| {
          assert s[i] == rest[i - |w| - 1];
          if i + 1 < |s| {
            assert s[i + 1] == rest[i - |w|];
          }
        } else if i == |w| {
          assert s[i + 1] == rest[0];
        }
      }
      assert s[|s| - 1] == rest[|rest| - 1];
    }
  }

  // ---------------------------------------------------------------------------
  // Splitting what was joined.

  lemma WordsSkipsSpace(s: string)
    ensures Words(s) == Words(SkipSpace(s))
  {
    assert SkipSpace(SkipSpace(s)) == SkipSpace(s);
  }

  lemma {:induction false} WordLengthOfWord(w: string, rest: string)
    requires NoSpace(w)
    requires rest == [] || IsSpace(rest[0])
    ensures WordLength(w + rest) == |w|
    decreases |w|
  {
    if w == [] {
      assert w + rest == rest;
    } else {
      assert (w + rest)[1..] == w[1..] + rest;
      WordLengthOfWord(w[1..], rest);
    }
  }

  /** A word followed by whitespace or nothing splits off as the first token. */
  lemma WordsOfWordThen(w: string, rest: string)
    requires IsWord(w)
    requires rest == [] || IsSpace(rest[0])
    ensures Words(w + rest) == [w] + Words(rest)
  {
    var s := w + rest;
    assert SkipSpace(s) == s;
    WordLengthOfWord(w, rest);
    assert s[..|w|] == w;
    assert s[|w|..] == rest;
  }

  /** `str.split()` recovers the words that `" ".join` joined. */
  lemma {:induction false} WordsOfJoin(ws: seq<string>)
    requires AllWords(ws)
    ensures Words(Join(ws)) == ws
    decreases |ws|
  {
    if ws == [] {
    } else if |ws| == 1 {
      WordsOfWordThen(ws[0], []);
      assert ws[0] + [] == ws[0];
    } else {
      var rest := Join(ws[1..]);
      assert Join(ws) == ws[0] + (" " + rest);
      WordsOfWordThen(ws[0], " " + rest);
      JoinNonEmpty(ws[1..]);
      assert SkipSpace(" " + rest) == SkipSpace(rest) == rest;
      WordsSkipsSpace(" " + rest);
      WordsOfJoin(ws[1..]);
    }
  }

  // ---------------------------------------------------------------------------
  // Collapse followed by strip is split followed by join.

  lemma {:induction false} CollapseWordPrefix(s: string, k: nat)
    requires k <= WordLength(s)
    ensures Collapse(s) == s[..k] + Collapse(s[k..])
    decreases k
  {
    if k > 0 {
      var t := s[1..];
      assert !IsSpace(s[0]) && WordLength(s) == 1 + WordLength(t);
      CollapseWordPrefix(t, k - 1);
      assert Collapse(s) == [s[0]] + Collapse(t);
      assert t[k - 1..] == s[k..];
      assert s[..k] == [s[0]] + t[..k - 1];
    }
  }

  /** A one-space suffix when `s` ends in whitespace. */
  function Tail(s: string): string {
    if s != [] && IsSpace(s[|s| - 1]) then " " else ""
  }

  /** The first token of a string that does not start with whitespace. */
  lemma WordsFirst(s: string)
    requires NoLeadingSpace(s) && s != []
    ensures Words(s) == [s[..WordLength(s)]] + Words(s[WordLength(s)..])
  {
    assert SkipSpace(s) == s;
  }

  lemma CollapseSpaceRun(s: string)
    requires s != [] && IsSpace(s[0])
    ensures Collapse(s) == " " + Collapse(SkipSpace(s))
  {
  }

  /** A string all of whose non-word part is whitespace ends in whitespace. */
  lemma EndsInSpace(s: string, n: nat)
    requires n < |s| && AllSpace(s[n..])
    ensures Tail(s) == " "
  {
    assert s[|s| - 1] == s[n..][|s| - 1 - n];
  }

  /** Shape of the collapsed text of a string that does not start with
      whitespace: its words joined by single spaces, plus one trailing space
      when the input ends in whitespace. */
  lemma {:induction false} CollapseShape(s: string)
    requires NoLeadingSpace(s)
    ensures Collapse(s) == Join(Words(s)) + Tail(s)
    decreases |s|
  {
    if s != [] {
      var n := WordLength(s);
      if n == |s| {
        WordsFirst(s);
        CollapseWordPrefix(s, n);
        assert s == s[..n];
      } else {
        CollapseShape(SkipSpace(s[n..]));
        CollapseShapeStep(s, n);
      }
    }
  }

  /** The step of `CollapseShape` past the first word, given the shape of
      what follows the whitespace after it. */
  lemma CollapseShapeStep(s: string, n: nat)
    requires NoLeadingSpace(s) && s != []
    requires n == WordLength(s) && n < |s|
    requires var t := SkipSpace(s[n..]); Collapse(t) == Join(Words(t)) + Tail(t)
    ensures Collapse(s) == Join(Words(s)) + Tail(s)
  {
    var w, t := s[..n], SkipSpace(s[n..]);
    CollapseAfterWord(s, n);
    if t == [] {
      CollapseShapeLast(s, n);
      AssembleLast(Collapse(s), w, Collapse(t), Words(s), Words(t), Tail(s));
    } else {
      CollapseShapeMore(s, n);
      AssembleMore(Collapse(s), w, Collapse(t), Words(s), Words(t), Tail(s));
    }
  }

  lemma AssembleLast(c: string, w: string, ct: string, ws: seq<string>, wt: seq<string>, tl: string)
    requires c == w + (" " + ct) && ws == [w] + wt
    requires ct == [] && wt == [] && tl == " "
    ensures c == Join(ws) + tl
  {
    assert ws == [w];
  }

  lemma AssembleMore(c: string, w: string, ct: string, ws: seq<string>, wt: seq<string>, tl: string)
    requires c == w + (" " + ct) && ws == [w] + wt
    requires wt != [] && ct == Join(wt) + tl
    ensures c == Join(ws) + tl
  {
    CollapseShapeJoin(w, wt, tl);
  }

  /** Collapsing and splitting past the first word. */
  lemma CollapseAfterWord(s: string, n: nat)
    requires NoLeadingSpace(s) && s != []
    requires n == WordLength(s) && n < |s|
    ensures var t := SkipSpace(s[n..]);
      && Collapse(s) == s[..n] + (" " + Collapse(t))
      && Words(s) == [s[..n]] + Words(t)
  {
    CollapseWordPrefix(s, n);
    CollapseSpaceRun(s[n..]);
    WordsFirst(s);
    WordsSkipsSpace(s[n..]);
  }

  /** When more words follow, the trailing space is theirs. */
  lemma CollapseShapeMore(s: string, n: nat)
    requires n < |s| && SkipSpace(s[n..]) != []
    ensures var t := SkipSpace(s[n..]); Tail(s) == Tail(t) && Words(t) != []
  {
    TailAfterSpaceRun(s, n);
    WordsOfNonBlank(SkipSpace(s[n..]));
  }

  lemma TailAfterSpaceRun(s: string, n: nat)
    requires n < |s| && SkipSpace(s[n..]) != []
    ensures Tail(s) == Tail(SkipSpace(s[n..]))
  {
    var rest := s[n..];
    var t := SkipSpace(rest);
    SkipSpaceSplits(rest);
    assert s[|s| - 1] == rest[|rest| - 1];
    assert rest[|rest| - 1] == t[|t| - 1];
  }

  lemma WordsOfNonBlank(t: string)
    requires t != [] && NoLeadingSpace(t)
    ensures Words(t) != []
  {
    assert SkipSpace(t) == t;
  }

  /** The last word of a string that ends in whitespace. */
  lemma CollapseShapeLast(s: string, n: nat)
    requires n < |s| && SkipSpace(s[n..]) == []
    ensures Tail(s) == " "
  {
    SkipSpaceSplits(s[n..]);
    assert s[n..][..|s[n..]|] == s[n..];
    EndsInSpace(s, n);
  }

  lemma CollapseShapeJoin(w: string, ws: seq<string>, tl: string)
    requires ws != []
    ensures w + (" " + (Join(ws) + tl)) == Join([w] + ws) + tl
  {
    JoinCons(w, ws);
  }

  lemma JoinCons(w: string, ws: seq<string>)
    requires ws != []
    ensures Join([w] + ws) == w + " " + Join(ws)
  {
    assert ([w] + ws)[1..] == ws;
  }

  lemma CleanIsJoinOfWords(s: string)
    ensures Strip(Collapse(s)) == Join(Words(s))
  {
    var t := SkipSpace(s);
    WordsSkipsSpace(s);
    CollapseShape(t);
    JoinNormalized(Words(s));
    if s != [] && IsSpace(s[0]) {
      CollapseSpaceRun(s);
      StripSpacedShape(Join(Words(s)), Tail(t));
    } else {
      StripSuffix(Join(Words(s)), Tail(t));
    }
  }

  /** Stripping a normalized text padded by one space in front and an
      optional space behind gives the text back. */
  lemma StripSpacedShape(j: string, tl: string)
    requires Normalized(j)
    requires tl == " " || tl == ""
    ensures Strip(" " + (j + tl)) == j
  {
    assert " " + (j + tl) == " " + j + tl;
    StripPadded(" ", j, tl);
  }

  // ---------------------------------------------------------------------------
  // Properties of `clean_whitespace`.

  /** A suffix of a normalized string that starts with a non-space is normalized. */
  lemma NormalizedSuffix(s: string, k: nat)
    requires Normalized(s) && k <= |s|
    requires NoLeadingSpace(s[k..])
    ensures Normalized(s[k..])
  {
    var r := s[k..];
    forall i, j | 0 <= i < |r| && 0 <= j < |r| && j == i + 1
      ensures !IsSpace(r[i]) || !IsSpace(r[j])
    {
      assert r[i] == s[k + i] && r[j] == s[k + j];
    }
    if r != [] {
      assert r[|r| - 1] == s[|s| - 1];
    }
  }

  /** A normalized string is its own words joined back together. */
  lemma {:induction false} NormalizedIsJoinOfWords(s: string)
    requires Normalized(s)
    ensures Join(Words(s)) == s
    decreases |s|
  {
    if s != [] {
      var n := WordLength(s);
      var w := s[..n];
      WordsFirst(s);
      if n == |s| {
        assert s[n..] == [] && w == s;
      } else {
        NormalizedRest(s, n);
      }
    }
  }

  /** The inductive step of `NormalizedIsJoinOfWords`: after the first word
      comes exactly one ' ' and then a shorter normalized string. */
  lemma {:induction false} NormalizedRest(s: string, n: nat)
    requires Normalized(s) && s != []
    requires n == WordLength(s) && n < |s|
    ensures Join(Words(s)) == s
    decreases |s|, 0
  {
    var w := s[..n];
    var rest := s[n + 1..];
    assert s[n] == ' ';
    assert !IsSpace(s[n + 1]);
    assert s[n..] == " " + rest;
    assert SkipSpace(s[n..]) == rest;
    WordsFirst(s);
    WordsSkipsSpace(s[n..]);
    NormalizedSuffix(s, n + 1);
    NormalizedIsJoinOfWords(rest);
    var ws := Words(rest);
    assert ws != [];
    JoinCons(w, ws);
    assert Words(s) == [w] + ws;
    Reassemble(s, n);
  }

  lemma Reassemble(s: string, n: nat)
    requires n < |s| && s[n] == ' '
    ensures s == s[..n] + " " + s[n + 1..]
  {
  }

  /** `clean_whitespace` leaves exactly the normalized strings unchanged. */
  lemma CleanWhitespaceFixpoints(s: string)
    ensures CleanWhitespace(s) == s <==> Normalized(s)
  {
    if Normalized(s) {
      NormalizedIsJoinOfWords(s);
    }
  }

  /** Applying `clean_whitespace` twice is applying it once. */
  lemma CleanWhitespaceIdempotent(s: string)
    ensures CleanWhitespace(CleanWhitespace(s)) == CleanWhitespace(s)
  {
    CleanWhitespaceFixpoints(CleanWhitespace(s));
  }

  /** `clean_whitespace` keeps the words: the same tokens, in order. */
  lemma CleanWhitespaceKeepsWords(s: string)
    ensures Words(CleanWhitespace(s)) == Words(s)
  {
    WordsOfJoin(Words(s));
  }
}
