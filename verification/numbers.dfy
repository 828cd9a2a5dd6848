/** The number-word stage of `text_postprocess.py`: every run of number words
    found by the pattern is handed to the word-to-number converter, and a run
    the converter rejects is kept verbatim.

    The pattern's scan and the converter are parameters: `Scanner` stands for
    `re.sub`'s split of the text into matched runs and the text between them,
    `Converter` for `w2n.word_to_num` followed by `str` (None where the
    library raises `ValueError`). */
module NumberWords {
  import opened Basics
  import opened Chars

  /** A piece of scanned text: text between matches, or a matched run of
      number words (the pattern's `body` group). The `prefix` and `suffix`
      groups match only at word boundaries and are always empty, so they are
      not represented. */
  datatype Segment = Gap(text: string) | NumberRun(body: string)

  type Scanner = string -> seq<Segment>
  type Converter = string -> Option<string>

  /** The original text of a sequence of segments. */
  function Flatten(segs: seq<Segment>): string {
    if segs == [] then []
    else
      (match segs[0] case Gap(t) => t case NumberRun(b) => b) + Flatten(segs[1..])
  }

  /** What `re.sub` relies on: the segments put back together are the text,
      and a match is never empty (the pattern needs at least one word). */
  predicate ValidScan(text: string, segs: seq<Segment>) {
    && Flatten(segs) == text
    && forall k :: 0 <= k < |segs| && segs[k].NumberRun? ==> segs[k].body != []
  }

  ghost predicate ValidScanner(scan: Scanner) {
    forall t :: ValidScan(t, scan(t))
  }

  /** `fragment.replace("-", " ").lower()`: hyphens become spaces and ASCII
      letters are lower-cased, position by position. */
  function ConverterInput(fragment: string): (r: string)
    ensures |r| == |fragment|
    ensures forall i :: 0 <= i < |r| ==> r[i] != '-' && r[i] == (if fragment[i] == '-' then ' ' else LowerChar(fragment[i]))
  {
    seq(|fragment|, i requires 0 <= i < |fragment| => if fragment[i] == '-' then ' ' else LowerChar(fragment[i]))
  }

  /** `_word_to_number`: the converted value when the converter accepts the
      normalized run, the run itself when it rejects it. */
  function WordToNumber(fragment: string, convert: Converter): (r: string)
    ensures convert(ConverterInput(fragment)).None? ==> r == fragment
    ensures convert(ConverterInput(fragment)).Some? ==> r == convert(ConverterInput(fragment)).value
  {
    match convert(ConverterInput(fragment))
    case None => fragment
    case Some(v) => v
  }

  /** The text `re.sub` builds: gaps are copied, each run is replaced. */
  function Render(segs: seq<Segment>, convert: Converter): string {
    if segs == [] then []
    else
      (match segs[0]
       case Gap(t) => t
       case NumberRun(b) => WordToNumber(b, convert)) + Render(segs[1..], convert)
  }

  /** `normalize_numbers`. Fail-soft: when the converter rejects every run
      the pattern finds, the text comes back unchanged. */
  function NormalizeNumbers(text: string, scan: Scanner, convert: Converter): (r: string)
    ensures ValidScan(text, scan(text)) && AllRejected(scan(text), convert) ==> r == text
  {
    var segs := scan(text);
    if AllRejected(segs, convert) then
      RenderRejected(segs, convert);
      Render(segs, convert)
    else
      Render(segs, convert)
  }

  /** True when the converter rejects every run of `segs`. */
  predicate AllRejected(segs: seq<Segment>, convert: Converter) {
    forall k :: 0 <= k < |segs| && segs[k].NumberRun? ==> convert(ConverterInput(segs[k].body)).None?
  }

  /** Segments whose runs are all rejected render as their own text. */
  lemma {:induction false} RenderRejected(segs: seq<Segment>, convert: Converter)
    requires AllRejected(segs, convert)
    ensures Render(segs, convert) == Flatten(segs)
    decreases |segs|
  {
    if segs != [] {
      assert AllRejected(segs[1..], convert) by {
        forall k | 0 <= k < |segs[1..]| && segs[1..][k].NumberRun?
          ensures convert(ConverterInput(segs[1..][k].body)).None?
        {
          assert segs[1..][k] == segs[k + 1];
        }
      }
      RenderRejected(segs[1..], convert);
    }
  }

  /** With a converter that always raises, the stage is the identity. */
  lemma RejectingConverterIsIdentity(text: string, scan: Scanner)
    requires ValidScanner(scan)
    ensures NormalizeNumbers(text, scan, _ => None) == text
  {
    assert ValidScan(text, scan(text));
    assert AllRejected(scan(text), _ => None);
  }

  /** Rendering works segment by segment. */
  lemma {:induction false} RenderConcat(a: seq<Segment>, b: seq<Segment>, convert: Converter)
    ensures Render(a + b, convert) == Render(a, convert) + Render(b, convert)
    decreases |a|
  {
    if a == [] {
      assert a + b == b;
    } else {
      assert (a + b)[1..] == a[1..] + b;
      RenderConcat(a[1..], b, convert);
      ConcatAssoc(Render([a[0]], convert), Render(a[1..], convert), Render(b, convert));
    }
  }

  /** The empty text has no runs, so the stage maps it to itself whatever the
      converter does. */
  lemma {:induction false} NormalizeNumbersEmpty(scan: Scanner, convert: Converter)
    requires ValidScan([], scan([]))
    ensures NormalizeNumbers([], scan, convert) == []
  {
    var segs := scan([]);
    EmptyFlattenHasNoRuns(segs);
    RenderRejected(segs, convert);
  }

  lemma {:induction false} EmptyFlattenHasNoRuns(segs: seq<Segment>)
    requires ValidScan([], segs)
    ensures forall k :: 0 <= k < |segs| ==> segs[k].Gap?
    decreases |segs|
  {
    if segs != [] {
      assert Flatten(segs[1..]) == [];
      EmptyFlattenHasNoRuns(segs[1..]);
      forall k | 0 < k < |segs|
        ensures segs[k].Gap?
      {
        assert segs[k] == segs[1..][k - 1];
      }
    }
  }
}
