/** `ensure_sentence_final_punctuation`, the toggle-gated `postprocess_text`
    and the generic `apply_pipeline` of `text_postprocess.py`. */
module Postprocess {
  import opened Basics
  import opened Chars
  import opened Whitespace
  import opened Acronyms
  import opened NumberWords

  /** A character `ensure_sentence_final_punctuation` accepts as an ending. */
  predicate IsTerminal(c: char) {
    c == '.' || c == '!' || c == '?'
  }

  predicate EndsTerminal(s: string) {
    s != [] && IsTerminal(s[|s| - 1])
  }

  /** `ensure_sentence_final_punctuation`. */
  function EnsureSentenceFinalPunctuation(text: string): (r: string)
    ensures text == [] ==> r == text
    ensures EndsTerminal(text) ==> r == text
    ensures text != [] && !EndsTerminal(text) ==> r == text + "."
    ensures r == [] <==> text == []
    ensures r != [] ==> EndsTerminal(r)
  {
    if text == [] then text
    else if IsTerminal(text[|text| - 1]) then text
    else text + "."
  }

  lemma EnsurePunctuationIdempotent(text: string)
    ensures EnsureSentenceFinalPunctuation(EnsureSentenceFinalPunctuation(text)) == EnsureSentenceFinalPunctuation(text)
  {
  }

  /** The keyword arguments of `postprocess_text`. */
  datatype Options = Options(
    normalizeNumbers: bool,
    normalizeAcronyms: bool,
    ensurePunctuation: bool,
    appendSpace: bool)

  /** The defaults of `postprocess_text`. */
  const DefaultOptions := Options(true, true, true, false)

  /** `postprocess_text`: whitespace cleanup always, then the number,
      acronym and punctuation stages in that order when enabled, then the
      optional trailing space. */
  function PostprocessText(text: string, opts: Options, scan: Scanner, convert: Converter): (r: string)
    ensures opts.appendSpace ==> r != [] && r[|r| - 1] == ' '
    ensures opts.ensurePunctuation && !opts.appendSpace ==> r == [] || EndsTerminal(r)
    ensures !opts.normalizeNumbers && !opts.normalizeAcronyms && !opts.ensurePunctuation && !opts.appendSpace ==>
      r == CleanWhitespace(text)
  {
    var cleaned := CleanWhitespace(text);
    var numbered := if opts.normalizeNumbers then NormalizeNumbers(cleaned, scan, convert) else cleaned;
    var merged := if opts.normalizeAcronyms then NormalizeAcronyms(numbered) else numbered;
    var punctuated := if opts.ensurePunctuation then EnsureSentenceFinalPunctuation(merged) else merged;
    if opts.appendSpace then punctuated + " " else punctuated
  }

  // ---------------------------------------------------------------------------
  // `apply_pipeline`.

  type Transform = string -> string

  /** `apply_pipeline`: the text after the loop has applied every transform,
      first to last. */
  function ApplyPipeline(text: string, transforms: seq<Transform>): (r: string)
    ensures transforms == [] ==> r == text
    ensures |transforms| == 1 ==> r == transforms[0](text)
    decreases |transforms|
  {
    if transforms == [] then text
    else
      var last := |transforms| - 1;
      transforms[last](ApplyPipeline(text, transforms[..last]))
  }

  /** The pipeline is a left fold: the first transform sees the input text,
      and the rest of the pipeline sees its result. */
  lemma {:induction false} ApplyPipelineFirst(text: string, f: Transform, rest: seq<Transform>)
    ensures ApplyPipeline(text, [f] + rest) == ApplyPipeline(f(text), rest)
    decreases |rest|
  {
    if rest == [] {
      assert ([f] + rest)[..0] == [];
    } else {
      var last := |rest| - 1;
      assert ([f] + rest)[..|rest|] == [f] + rest[..last];
      ApplyPipelineFirst(text, f, rest[..last]);
    }
  }

  /** Running two pipelines one after the other is running their
      concatenation. */
  lemma {:induction false} ApplyPipelineAppend(text: string, fs: seq<Transform>, gs: seq<Transform>)
    ensures ApplyPipeline(text, fs + gs) == ApplyPipeline(ApplyPipeline(text, fs), gs)
    decreases |gs|
  {
    if gs == [] {
      assert fs + gs == fs;
    } else {
      var last := |gs| - 1;
      assert (fs + gs)[..|fs + gs| - 1] == fs + gs[..last];
      ApplyPipelineAppend(text, fs, gs[..last]);
    }
  }

  /** The loop of `apply_pipeline`. */
  method ApplyPipelineLoop(text: string, transforms: seq<Transform>) returns (result: string)
    ensures result == ApplyPipeline(text, transforms)
    ensures transforms == [] ==> result == text
  {
    result := text;
    var i := 0;
    while i < |transforms|
      invariant 0 <= i <= |transforms|
      invariant result == ApplyPipeline(text, transforms[..i])
    {
      assert transforms[..i + 1][..i] == transforms[..i];
      result := transforms[i](result);
      i := i + 1;
    }
    assert transforms[..i] == transforms;
  }

  /** The transforms `postprocess_text` runs for the given options, in order. */
  function Stages(opts: Options, scan: Scanner, convert: Converter): seq<Transform> {
    [(t: string) => CleanWhitespace(t)]
    + (if opts.normalizeNumbers then [(t: string) => NormalizeNumbers(t, scan, convert)] else [])
    + (if opts.normalizeAcronyms then [(t: string) => NormalizeAcronyms(t)] else [])
    + (if opts.ensurePunctuation then [(t: string) => EnsureSentenceFinalPunctuation(t)] else [])
    + (if opts.appendSpace then [(t: string) => t + " "] else [])
  }

  lemma ApplyOptional(text: string, on: bool, f: Transform)
    ensures ApplyPipeline(text, if on then [f] else []) == if on then f(text) else text
  {
    if on {
      assert [f][..0] == [];
    }
  }

  /** `postprocess_text` is `apply_pipeline` over its enabled stages, in the
      fixed order whitespace, numbers, acronyms, punctuation, trailing space. */
  lemma PostprocessIsPipeline(text: string, opts: Options, scan: Scanner, convert: Converter)
    ensures PostprocessText(text, opts, scan, convert) == ApplyPipeline(text, Stages(opts, scan, convert))
  {
    var s0: seq<Transform> := [(t: string) => CleanWhitespace(t)];
    var s1: seq<Transform> := if opts.normalizeNumbers then [(t: string) => NormalizeNumbers(t, scan, convert)] else [];
    var s2: seq<Transform> := if opts.normalizeAcronyms then [(t: string) => NormalizeAcronyms(t)] else [];
    var s3: seq<Transform> := if opts.ensurePunctuation then [(t: string) => EnsureSentenceFinalPunctuation(t)] else [];
    var s4: seq<Transform> := if opts.appendSpace then [(t: string) => t + " "] else [];
    assert Stages(opts, scan, convert) == s0 + s1 + s2 + s3 + s4;
    ApplyPipelineAppend(text, s0 + s1 + s2 + s3, s4);
    ApplyPipelineAppend(text, s0 + s1 + s2, s3);
    ApplyPipelineAppend(text, s0 + s1, s2);
    ApplyPipelineAppend(text, s0, s1);
    ApplyOptional(text, true, (t: string) => CleanWhitespace(t));
    var c := CleanWhitespace(text);
    ApplyOptional(c, opts.normalizeNumbers, (t: string) => NormalizeNumbers(t, scan, convert));
    var n := if opts.normalizeNumbers then NormalizeNumbers(c, scan, convert) else c;
    ApplyOptional(n, opts.normalizeAcronyms, (t: string) => NormalizeAcronyms(t));
    var a := if opts.normalizeAcronyms then NormalizeAcronyms(n) else n;
    ApplyOptional(a, opts.ensurePunctuation, (t: string) => EnsureSentenceFinalPunctuation(t));
    var p := if opts.ensurePunctuation then EnsureSentenceFinalPunctuation(a) else a;
    ApplyOptional(p, opts.appendSpace, (t: string) => t + " ");
  }

  // ---------------------------------------------------------------------------
  // Properties of `postprocess_text`.

  /** With its default options and a converter that rejects everything,
      `postprocess_text` cleans whitespace, merges acronyms and ends the
      sentence. */
  lemma PostprocessDefaults(text: string, scan: Scanner)
    requires ValidScanner(scan)
    ensures PostprocessText(text, DefaultOptions, scan, _ => None)
      == EnsureSentenceFinalPunctuation(NormalizeAcronyms(CleanWhitespace(text)))
  {
    RejectingConverterIsIdentity(CleanWhitespace(text), scan);
  }

  /** `append_space` adds exactly one ' ' to what the other stages produce,
      whatever that is. */
  lemma PostprocessAppendSpace(text: string, opts: Options, scan: Scanner, convert: Converter)
    requires opts.appendSpace
    ensures PostprocessText(text, opts, scan, convert) == PostprocessText(text, opts.(appendSpace := false), scan, convert) + " "
  {
  }

  /** Empty or all-whitespace input produces the empty text, or a single
      space when `append_space` is on. */
  lemma PostprocessBlank(text: string, opts: Options, scan: Scanner, convert: Converter)
    requires AllSpace(text)
    requires ValidScan([], scan([]))
    ensures PostprocessText(text, opts, scan, convert) == if opts.appendSpace then " " else ""
  {
    BlankHasNoWords(text);
    NormalizeNumbersEmpty(scan, convert);
  }

  lemma BlankHasNoWords(text: string)
    requires AllSpace(text)
    ensures Words(text) == []
  {
    SkipSpaceSplits(text);
  }

  /** Without the number stage (whose converter output is arbitrary) and
      without the trailing space, the result keeps the normalized shape of
      `clean_whitespace`. */
  lemma PostprocessNormalized(text: string, opts: Options, scan: Scanner, convert: Converter)
    requires !opts.normalizeNumbers && !opts.appendSpace
    ensures Normalized(PostprocessText(text, opts, scan, convert))
  {
    var a := if opts.normalizeAcronyms then NormalizeAcronyms(CleanWhitespace(text)) else CleanWhitespace(text);
    if opts.ensurePunctuation {
      PunctuationKeepsNormalized(a);
    }
  }

  lemma PunctuationKeepsNormalized(s: string)
    requires Normalized(s)
    ensures Normalized(EnsureSentenceFinalPunctuation(s))
  {
    var r := EnsureSentenceFinalPunctuation(s);
    if r != s {
      assert r == s + ".";
      forall i, j | 0 <= i < |r| && 0 <= j < |r| && j == i + 1
        ensures !IsSpace(r[i]) || !IsSpace(r[j])
      {
        if j < |s| {
          assert r[i] == s[i] && r[j] == s[j];
        }
      }
      forall i | 0 <= i < |r| && IsSpace(r[i])
        ensures r[i] == ' '
      {
        assert i < |s|;
        assert r[i] == s[i];
      }
    }
  }
}
