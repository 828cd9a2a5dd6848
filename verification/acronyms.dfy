/** `normalize_acronyms`: runs of at least two single-letter tokens are merged
    into one upper-case token ("f b i" becomes "FBI"). */
module Acronyms {
  import opened Chars
  import opened Whitespace
  import opened Basics

  /** `re.fullmatch(r"[A-Za-z]", token)`. */
  predicate IsLetterToken(t: string) {
    |t| == 1 && IsAsciiLetter(t[0])
  }

  /** No two neighbouring tokens are both single letters. */
  predicate NoAdjacentLetters(ws: seq<string>) {
    forall i, j :: 0 <= i < |ws| && 0 <= j < |ws| && j == i + 1 ==> !IsLetterToken(ws[i]) || !IsLetterToken(ws[j])
  }

  /** The number of single-letter tokens at the front of `ws`. */
  function RunLength(ws: seq<string>): (n: nat)
    ensures n <= |ws|
    ensures forall k :: 0 <= k < n ==> IsLetterToken(ws[k])
    ensures n < |ws| ==> !IsLetterToken(ws[n])
  {
    if ws != [] && IsLetterToken(ws[0]) then 1 + RunLength(ws[1..]) else 0
  }

  /** `"".join(ts)`. */
  function Concat(ts: seq<string>): string {
    if ts == [] then [] else ts[0] + Concat(ts[1..])
  }

  /** `[t.upper() for t in ts]`. */
  function UpperEach(ts: seq<string>): (us: seq<string>)
    ensures |us| == |ts|
  {
    seq(|ts|, k requires 0 <= k < |ts| => Upper(ts[k]))
  }

  /** The token a run of single letters is merged into. */
  function Acronym(run: seq<string>): string {
    Concat(UpperEach(run))
  }

  /** How many tokens the scan consumes at the front of `ws`: the whole
      letter run when it has two or more tokens, otherwise one token. */
  function Step(ws: seq<string>): (m: nat)
    requires ws != []
    ensures 1 <= m <= |ws|
  {
    if RunLength(ws) >= 2 then RunLength(ws) else 1
  }

  /** The token the scan emits for the front of `ws`. */
  function HeadToken(ws: seq<string>): string
    requires ws != []
  {
    var n := RunLength(ws);
    if n >= 2 then Acronym(ws[..n]) else ws[0]
  }

  /** The merge `normalize_acronyms` performs on the token list: a run of two
      or more single-letter tokens becomes their acronym, every other token is
      kept as it is. */
  function MergeRuns(ws: seq<string>): (r: seq<string>)
    ensures |r| <= |ws|
    ensures |r| == 0 <==> |ws| == 0
    decreases |ws|
  {
    if ws == [] then [] else [HeadToken(ws)] + MergeRuns(ws[Step(ws)..])
  }

  lemma MergeRunsUnfold(ws: seq<string>)
    requires ws != []
    ensures MergeRuns(ws) == [HeadToken(ws)] + MergeRuns(ws[Step(ws)..])
  {
  }

  /** `normalize_acronyms`: split on whitespace, merge letter runs, join with
      single spaces. */
  function NormalizeAcronyms(text: string): (r: string)
    ensures Normalized(r)
    ensures Words(r) == MergeRuns(Words(text))
  {
    MergeRunsKeepsWords(Words(text));
    JoinNormalized(MergeRuns(Words(text)));
    WordsOfJoin(MergeRuns(Words(text)));
    Join(MergeRuns(Words(text)))
  }

  // ---------------------------------------------------------------------------
  // The acronym of a run.

  /** The acronym of a run of single letters spells those letters in upper
      case, one character per token. */
  lemma {:induction false} AcronymSpelling(run: seq<string>)
    requires forall k :: 0 <= k < |run| ==> IsLetterToken(run[k])
    ensures |Acronym(run)| == |run|
    ensures forall k :: 0 <= k < |run| ==> [Acronym(run)[k]] == Upper(run[k])
    ensures |run| >= 2 ==> IsWord(Acronym(run)) && !IsLetterToken(Acronym(run))
    decreases |run|
  {
    if run != [] {
      AcronymSpelling(run[1..]);
      assert UpperEach(run)[1..] == UpperEach(run[1..]);
      assert Acronym(run) == Upper(run[0]) + Acronym(run[1..]);
    }
  }

  // ---------------------------------------------------------------------------
  // Letter runs are maximal.

  lemma {:induction false} RunLengthExact(ws: seq<string>, m: nat)
    requires m <= |ws|
    requires forall k :: 0 <= k < m ==> IsLetterToken(ws[k])
    requires m == |ws| || !IsLetterToken(ws[m])
    ensures RunLength(ws) == m
    decreases m
  {
    if m > 0 {
      RunLengthExact(ws[1..], m - 1);
    }
  }

  /** True when the boundary between `a` and `b` does not fall inside a run. */
  predicate RunBoundary(a: seq<string>, b: seq<string>) {
    a == [] || b == [] || !IsLetterToken(a[|a| - 1]) || !IsLetterToken(b[0])
  }

  lemma RunLengthConcat(a: seq<string>, b: seq<string>)
    requires a != [] && RunBoundary(a, b)
    ensures RunLength(a + b) == RunLength(a)
  {
    var n := RunLength(a);
    if b == [] {
      assert a + b == a;
    } else {
      if n == |a| {
        assert (a + b)[n] == b[0];
      } else {
        assert (a + b)[n] == a[n];
      }
      RunLengthExact(a + b, n);
    }
  }

  /** The scan makes the same first move on `a + b` as on `a`. */
  lemma FrontConcat(a: seq<string>, b: seq<string>)
    requires a != [] && RunBoundary(a, b)
    ensures Step(a + b) == Step(a)
    ensures HeadToken(a + b) == HeadToken(a)
  {
    RunLengthConcat(a, b);
    var n := RunLength(a);
    assert (a + b)[..n] == a[..n];
  }

  /** Merging distributes over a concatenation whose seam is not inside a run. */
  lemma {:induction false} MergeRunsSplit(a: seq<string>, b: seq<string>)
    requires RunBoundary(a, b)
    ensures MergeRuns(a + b) == MergeRuns(a) + MergeRuns(b)
    decreases |a|
  {
    if a == [] {
      assert a + b == b;
    } else {
      FrontConcat(a, b);
      var m := Step(a);
      var a' := a[m..];
      assert (a + b)[m..] == a' + b;
      assert RunBoundary(a', b) by {
        if a' != [] {
          assert a'[|a'| - 1] == a[|a| - 1];
        }
      }
      MergeRunsSplit(a', b);
      MergeRunsUnfold(a + b);
      MergeRunsUnfold(a);
      ConcatAssoc([HeadToken(a)], MergeRuns(a'), MergeRuns(b));
    }
  }

  /** A run of two or more single letters merges into its acronym alone. */
  lemma MergeWholeRun(run: seq<string>)
    requires |run| >= 2 && forall k :: 0 <= k < |run| ==> IsLetterToken(run[k])
    ensures MergeRuns(run) == [Acronym(run)]
  {
    RunLengthExact(run, |run|);
    MergeRunsUnfold(run);
    assert Step(run) == |run|;
    assert run[..|run|] == run;
    assert HeadToken(run) == Acronym(run);
    assert run[|run|..] == [];
  }

  /** A maximal run of two or more single letters becomes its acronym. */
  lemma MergeMaximalRun(pre: seq<string>, run: seq<string>, post: seq<string>)
    requires |run| >= 2 && forall k :: 0 <= k < |run| ==> IsLetterToken(run[k])
    requires pre == [] || !IsLetterToken(pre[|pre| - 1])
    requires post == [] || !IsLetterToken(post[0])
    ensures MergeRuns(pre + (run + post)) == MergeRuns(pre) + ([Acronym(run)] + MergeRuns(post))
  {
    MergeRunsSplit(run, post);
    MergeWholeRun(run);
    MergeRunsSplit(pre, run + post);
  }

  /** A single-letter token with no single-letter neighbour is kept as it is,
      in its original case. */
  lemma MergeLoneLetter(pre: seq<string>, x: string, post: seq<string>)
    requires IsLetterToken(x)
    requires pre == [] || !IsLetterToken(pre[|pre| - 1])
    requires post == [] || !IsLetterToken(post[0])
    ensures MergeRuns(pre + ([x] + post)) == MergeRuns(pre) + ([x] + MergeRuns(post))
  {
    MergeRunsSplit([x], post);
    assert MergeRuns([x]) == [x] + MergeRuns([]);
    MergeRunsSplit(pre, [x] + post);
  }

  // ---------------------------------------------------------------------------
  // Merging is idempotent.

  /** Merged tokens of split words are still words: an acronym of two or
      more letters has no whitespace. */
  lemma {:induction false} MergeRunsKeepsWords(ws: seq<string>)
    requires AllWords(ws)
    ensures AllWords(MergeRuns(ws))
    decreases |ws|
  {
    if ws != [] {
      var n := RunLength(ws);
      if n >= 2 {
        AcronymSpelling(ws[..n]);
      }
      MergeRunsKeepsWords(ws[Step(ws)..]);
    }
  }

  /** The first merged token is a single letter only when the input starts
      with a lone single letter. */
  lemma HeadTokenLetter(ws: seq<string>)
    requires ws != []
    ensures IsLetterToken(HeadToken(ws)) ==> IsLetterToken(ws[0]) && RunLength(ws) == 1
  {
    if RunLength(ws) >= 2 {
      AcronymSpelling(ws[..RunLength(ws)]);
    }
  }

  /** After merging, no two neighbouring tokens are single letters. */
  lemma {:induction false} MergeRunsSeparatesLetters(ws: seq<string>)
    ensures NoAdjacentLetters(MergeRuns(ws))
    decreases |ws|
  {
    if ws != [] {
      var m := Step(ws);
      var head := HeadToken(ws);
      var tail := MergeRuns(ws[m..]);
      MergeRunsSeparatesLetters(ws[m..]);
      HeadTokenLetter(ws);
      if tail != [] {
        HeadTokenLetter(ws[m..]);
        assert tail[0] == HeadToken(ws[m..]);
      }
      var r := MergeRuns(ws);
      assert r == [head] + tail;
      forall i, j | 0 <= i < |r| && 0 <= j < |r| && j == i + 1
        ensures !IsLetterToken(r[i]) || !IsLetterToken(r[j])
      {
        if i > 0 {
          assert r[i] == tail[i - 1] && r[j] == tail[j - 1];
        } else {
          assert r[j] == tail[0];
        }
      }
    }
  }

  /** Token lists with no adjacent single letters are left unchanged. */
  lemma {:induction false} MergeRunsFixpoint(ws: seq<string>)
    requires NoAdjacentLetters(ws)
    ensures MergeRuns(ws) == ws
    decreases |ws|
  {
    if ws != [] {
      assert RunLength(ws) < 2 by {
        if |ws| >= 2 && IsLetterToken(ws[0]) {
          assert !IsLetterToken(ws[1]);
        }
      }
      var rest := ws[1..];
      assert NoAdjacentLetters(rest) by {
        forall i, j | 0 <= i < |rest| && 0 <= j < |rest| && j == i + 1
          ensures !IsLetterToken(rest[i]) || !IsLetterToken(rest[j])
        {
          assert rest[i] == ws[i + 1] && rest[j] == ws[j + 1];
        }
      }
      MergeRunsFixpoint(rest);
    }
  }

  lemma MergeRunsIdempotent(ws: seq<string>)
    ensures MergeRuns(MergeRuns(ws)) == MergeRuns(ws)
  {
    MergeRunsSeparatesLetters(ws);
    MergeRunsFixpoint(MergeRuns(ws));
  }

  /** `normalize_acronyms` applied twice is `normalize_acronyms` applied once. */
  lemma NormalizeAcronymsIdempotent(text: string)
    ensures NormalizeAcronyms(NormalizeAcronyms(text)) == NormalizeAcronyms(text)
  {
    MergeRunsIdempotent(Words(text));
  }

  /** The output never has more tokens than the input. */
  lemma NormalizeAcronymsTokenCount(text: string)
    ensures |Words(NormalizeAcronyms(text))| <= |Words(text)|
  {
  }

  // ---------------------------------------------------------------------------
  // The scanning loop of `normalize_acronyms`.

  /** One round of the outer loop: the window gathered from position `i` up
      to `j` decides the token emitted and where the scan resumes. */
  lemma ScanRound(tokens: seq<string>, i: nat, j: nat)
    requires i < j <= |tokens| || (i == j < |tokens|)
    requires forall k :: i <= k < j ==> IsLetterToken(tokens[k])
    requires j == |tokens| || !IsLetterToken(tokens[j])
    ensures j - i >= 2 ==> MergeRuns(tokens[i..]) == [Concat(UpperEach(tokens[i..j]))] + MergeRuns(tokens[j..])
    ensures j - i < 2 ==> MergeRuns(tokens[i..]) == [tokens[i]] + MergeRuns(tokens[i + 1..])
  {
    var rest := tokens[i..];
    RunLengthExact(rest, j - i);
    MergeRunsUnfold(rest);
    if j - i >= 2 {
      assert rest[..j - i] == tokens[i..j];
      assert rest[j - i..] == tokens[j..];
    } else {
      assert rest[1..] == tokens[i + 1..];
    }
  }

  lemma UpperEachSnoc(ts: seq<string>, t: string)
    ensures UpperEach(ts + [t]) == UpperEach(ts) + [Upper(t)]
  {
  }

  /** The inner `while` loop of `normalize_acronyms`: from position `i`,
      gather the upper-cased single-letter tokens until the first token that
      is not a single letter. */
  method LetterWindow(tokens: seq<string>, i: nat) returns (window: seq<string>, j: nat)
    requires i <= |tokens|
    ensures i <= j <= |tokens|
    ensures forall k :: i <= k < j ==> IsLetterToken(tokens[k])
    ensures j == |tokens| || !IsLetterToken(tokens[j])
    ensures window == UpperEach(tokens[i..j])
  {
    window := [];
    j := i;
    while j < |tokens| && IsLetterToken(tokens[j])
      invariant i <= j <= |tokens|
      invariant window == UpperEach(tokens[i..j])
      invariant forall k :: i <= k < j ==> IsLetterToken(tokens[k])
    {
      assert tokens[i..j + 1] == tokens[i..j] + [tokens[j]];
      UpperEachSnoc(tokens[i..j], tokens[j]);
      window := window + [Upper(tokens[j])];
      j := j + 1;
    }
  }

  /** The outer `while` loop of `normalize_acronyms`, over an already split
      token list: a window of two or more letters is emitted joined and the
      scan resumes after it; otherwise the token at the position is emitted
      and the scan moves on by one. */
  method MergeRunsLoop(tokens: seq<string>) returns (result: seq<string>)
    ensures result == MergeRuns(tokens)
  {
    result := [];
    var i := 0;
    while i < |tokens|
      invariant 0 <= i <= |tokens|
      invariant result + MergeRuns(tokens[i..]) == MergeRuns(tokens)
    {
      var window, j := LetterWindow(tokens, i);
      var emitted, next;
      if |window| >= 2 {
        emitted, next := Concat(window), j;
      } else {
        emitted, next := tokens[i], i + 1;
      }
      ScanRound(tokens, i, j);
      var later := MergeRuns(tokens[next..]);
      assert MergeRuns(tokens[i..]) == [emitted] + later;
      ConcatAssoc(result, [emitted], later);
      assert i < next <= |tokens|;
      result := result + [emitted];
      i := next;
    }
    assert tokens[i..] == [];
  }
}
