/** The capture statistics of `recorder.py`: the per-block accumulation of
    `_accumulate_stats`, the snapshot of `_finalize_stats`, the derived
    `RecorderStats.speech_ratio` and the gain stage `_prepare_block`.
    A block is reduced to its frame count and its RMS level, which is taken
    as given rather than computed from samples. */
module CaptureStats {
  import opened Basics

  /** One queued audio block: its number of frames and its RMS level. */
  datatype Block = Block(frames: nat, rms: real)

  /** The recorder settings the statistics depend on. */
  datatype Config = Config(sampleRate: int, rmsThreshold: real)

  predicate ValidConfig(cfg: Config) {
    cfg.sampleRate > 0
  }

  /** The running accumulators a capture session keeps. */
  datatype Accumulators = Accumulators(
    speechMs: real,
    silenceMs: real,
    totalMs: real,
    maxRms: real,
    silenceRmsSum: real,
    silenceBlocks: nat,
    speechBlocks: nat,
    totalBlocks: nat,
    maxStreakMs: real,
    curStreakMs: real)

  /** The accumulators as `_reset_stats` leaves them. */
  const Reset: Accumulators := Accumulators(0.0, 0.0, 0.0, 0.0, 0.0, 0, 0, 0, 0.0, 0.0)

  /** Duration of a block in milliseconds. */
  function BlockMs(cfg: Config, frames: nat): (ms: real)
    requires ValidConfig(cfg)
    ensures frames > 0 <==> ms > 0.0
    ensures ms >= 0.0
  {
    (frames as real / cfg.sampleRate as real) * 1000.0
  }

  /** A non-empty block is speech exactly when its level is strictly above
      the threshold; a block at the threshold is silence. */
  predicate IsSpeech(cfg: Config, b: Block) {
    b.frames > 0 && b.rms > cfg.rmsThreshold
  }

  predicate IsSilence(cfg: Config, b: Block) {
    b.frames > 0 && b.rms <= cfg.rmsThreshold
  }

  /** A silence block that contributes to the silence-level average. */
  predicate IsAudibleSilence(cfg: Config, b: Block) {
    IsSilence(cfg, b) && b.rms > 0.0
  }

  /** `_accumulate_stats` for one block. */
  function Accumulate(cfg: Config, acc: Accumulators, b: Block): (r: Accumulators)
    requires ValidConfig(cfg)
    ensures b.frames == 0 ==> r == acc
    ensures b.frames > 0 ==> r.totalBlocks == acc.totalBlocks + 1 && r.totalMs > acc.totalMs
    ensures b.frames > 0 ==> r.maxRms >= b.rms && r.maxRms >= acc.maxRms
    ensures r.speechBlocks == acc.speechBlocks + 1 <==> IsSpeech(cfg, b)
    ensures IsSilence(cfg, b) ==> r.curStreakMs == 0.0 && r.speechMs == acc.speechMs
    ensures IsSpeech(cfg, b) ==> r.curStreakMs > acc.curStreakMs && r.silenceMs == acc.silenceMs
  {
    if b.frames == 0 then acc
    else
      var ms := BlockMs(cfg, b.frames);
      var acc := acc.(totalMs := acc.totalMs + ms,
                      totalBlocks := acc.totalBlocks + 1,
                      maxRms := Max(acc.maxRms, b.rms));
      if b.rms > cfg.rmsThreshold then
        var cur := acc.curStreakMs + ms;
        acc.(speechMs := acc.speechMs + ms,
             speechBlocks := acc.speechBlocks + 1,
             curStreakMs := cur,
             maxStreakMs := if cur > acc.maxStreakMs then cur else acc.maxStreakMs)
      else
        var acc := acc.(silenceMs := acc.silenceMs + ms, curStreakMs := 0.0);
        if b.rms > 0.0 then
          acc.(silenceRmsSum := acc.silenceRmsSum + b.rms, silenceBlocks := acc.silenceBlocks + 1)
        else acc
  }

  /** The relations between the accumulators that every capture keeps. */
  predicate AccInv(acc: Accumulators) {
    && acc.speechMs >= 0.0
    && acc.silenceMs >= 0.0
    && acc.speechMs + acc.silenceMs == acc.totalMs
    && (acc.totalMs > 0.0 <==> acc.totalBlocks > 0)
    && 0.0 <= acc.curStreakMs <= acc.maxStreakMs <= acc.speechMs
    && acc.speechBlocks + acc.silenceBlocks <= acc.totalBlocks
    && acc.maxRms >= 0.0
    && (acc.silenceBlocks == 0 <==> acc.silenceRmsSum == 0.0)
    && acc.silenceRmsSum >= 0.0
  }

  lemma ResetInv()
    ensures AccInv(Reset)
  {
  }

  /** `_accumulate_stats` keeps the invariant. */
  lemma AccumulatePreservesInv(cfg: Config, acc: Accumulators, b: Block)
    requires ValidConfig(cfg) && AccInv(acc)
    ensures AccInv(Accumulate(cfg, acc, b))
  {
  }

  // ---------------------------------------------------------------------------
  // The fold over a session's blocks, and independent definitions of what it
  // computes.

  /** The accumulators after `_accumulate_stats` has seen `blocks` in order. */
  function Run(cfg: Config, acc: Accumulators, blocks: seq<Block>): Accumulators
    requires ValidConfig(cfg)
    decreases |blocks|
  {
    if blocks == [] then acc
    else Accumulate(cfg, Run(cfg, acc, blocks[..|blocks| - 1]), blocks[|blocks| - 1])
  }

  function Count(blocks: seq<Block>, p: Block -> bool): nat
    decreases |blocks|
  {
    if blocks == [] then 0
    else Count(blocks[..|blocks| - 1], p) + (if p(blocks[|blocks| - 1]) then 1 else 0)
  }

  /** Total duration of the blocks that satisfy `p`. */
  function Duration(cfg: Config, blocks: seq<Block>, p: Block -> bool): real
    requires ValidConfig(cfg)
    decreases |blocks|
  {
    if blocks == [] then 0.0
    else
      var b := blocks[|blocks| - 1];
      Duration(cfg, blocks[..|blocks| - 1], p) + (if p(b) then BlockMs(cfg, b.frames) else 0.0)
  }

  /** Sum of the levels of the audible silence blocks. */
  function RmsSum(cfg: Config, blocks: seq<Block>): real
    requires ValidConfig(cfg)
    decreases |blocks|
  {
    if blocks == [] then 0.0
    else
      var b := blocks[|blocks| - 1];
      RmsSum(cfg, blocks[..|blocks| - 1]) + (if IsAudibleSilence(cfg, b) then b.rms else 0.0)
  }

  /** Duration of the speech run the blocks end with; empty blocks neither
      extend nor break a run. */
  function TrailingStreak(cfg: Config, blocks: seq<Block>): real
    requires ValidConfig(cfg)
    decreases |blocks|
  {
    if blocks == [] then 0.0
    else
      var b := blocks[|blocks| - 1];
      var before := TrailingStreak(cfg, blocks[..|blocks| - 1]);
      if IsSpeech(cfg, b) then before + BlockMs(cfg, b.frames)
      else if IsSilence(cfg, b) then 0.0
      else before
  }

  /** The longest speech run over every prefix of the blocks. */
  function LongestStreak(cfg: Config, blocks: seq<Block>): real
    requires ValidConfig(cfg)
    decreases |blocks|
  {
    if blocks == [] then 0.0
    else Max(LongestStreak(cfg, blocks[..|blocks| - 1]), TrailingStreak(cfg, blocks))
  }

  /** After any sequence of blocks from a reset, the counters are the counts
      and durations of speech, silence and non-empty blocks. */
  lemma {:induction false} RunCounts(cfg: Config, blocks: seq<Block>)
    requires ValidConfig(cfg)
    ensures var acc := Run(cfg, Reset, blocks);
      && acc.totalBlocks == Count(blocks, (b: Block) => b.frames > 0)
      && acc.speechBlocks == Count(blocks, b => IsSpeech(cfg, b))
      && acc.silenceBlocks == Count(blocks, b => IsAudibleSilence(cfg, b))
      && acc.speechMs == Duration(cfg, blocks, b => IsSpeech(cfg, b))
      && acc.silenceMs == Duration(cfg, blocks, b => IsSilence(cfg, b))
      && acc.totalMs == Duration(cfg, blocks, (b: Block) => b.frames > 0)
      && acc.silenceRmsSum == RmsSum(cfg, blocks)
    decreases |blocks|
  {
    if blocks != [] {
      RunCounts(cfg, blocks[..|blocks| - 1]);
    }
  }

  /** After any sequence of blocks from a reset, the current streak is the
      speech run the blocks end with and the maximum streak is the longest
      speech run. */
  lemma {:induction false} RunStreaks(cfg: Config, blocks: seq<Block>)
    requires ValidConfig(cfg)
    ensures Run(cfg, Reset, blocks).curStreakMs == TrailingStreak(cfg, blocks)
    ensures Run(cfg, Reset, blocks).maxStreakMs == LongestStreak(cfg, blocks)
    decreases |blocks|
  {
    if blocks != [] {
      var front := blocks[..|blocks| - 1];
      RunStreaks(cfg, front);
      RunInv(cfg, front);
    }
  }

  /** The invariant holds after any sequence of blocks from a reset. */
  lemma {:induction false} RunInv(cfg: Config, blocks: seq<Block>)
    requires ValidConfig(cfg)
    ensures AccInv(Run(cfg, Reset, blocks))
    decreases |blocks|
  {
    if blocks != [] {
      RunInv(cfg, blocks[..|blocks| - 1]);
      AccumulatePreservesInv(cfg, Run(cfg, Reset, blocks[..|blocks| - 1]), blocks[|blocks| - 1]);
    }
  }

  /** The maximum level is at least the level of every non-empty block and
      the starting maximum, and it is one of them. */
  lemma {:induction false} RunMaxRms(cfg: Config, acc: Accumulators, blocks: seq<Block>)
    requires ValidConfig(cfg)
    ensures forall i :: 0 <= i < |blocks| && blocks[i].frames > 0 ==> Run(cfg, acc, blocks).maxRms >= blocks[i].rms
    ensures Run(cfg, acc, blocks).maxRms >= acc.maxRms
    ensures || Run(cfg, acc, blocks).maxRms == acc.maxRms
            || exists i :: 0 <= i < |blocks| && blocks[i].frames > 0 && Run(cfg, acc, blocks).maxRms == blocks[i].rms
    decreases |blocks|
  {
    if blocks != [] {
      var front := blocks[..|blocks| - 1];
      var last := |blocks| - 1;
      RunMaxRms(cfg, acc, front);
      forall i | 0 <= i < |blocks| && blocks[i].frames > 0
        ensures Run(cfg, acc, blocks).maxRms >= blocks[i].rms
      {
        if i < |front| {
          assert blocks[i] == front[i];
        }
      }
      var m := Run(cfg, acc, blocks).maxRms;
      if m != acc.maxRms && !(blocks[last].frames > 0 && m == blocks[last].rms) {
        assert m == Run(cfg, acc, front).maxRms;
        var j :| 0 <= j < |front| && front[j].frames > 0 && Run(cfg, acc, front).maxRms == front[j].rms;
        assert blocks[j] == front[j];
      }
    }
  }

  /** `_drain_queue` without its thread: every block is accumulated in
      arrival order. */
  method Drain(cfg: Config, blocks: seq<Block>) returns (acc: Accumulators)
    requires ValidConfig(cfg)
    ensures acc == Run(cfg, Reset, blocks)
    ensures AccInv(acc)
  {
    acc := Reset;
    var i := 0;
    while i < |blocks|
      invariant 0 <= i <= |blocks|
      invariant acc == Run(cfg, Reset, blocks[..i])
    {
      assert blocks[..i + 1][..i] == blocks[..i];
      acc := Accumulate(cfg, acc, blocks[i]);
      i := i + 1;
    }
    assert blocks[..i] == blocks;
    RunInv(cfg, blocks);
  }

  // ---------------------------------------------------------------------------
  // `RecorderStats`.

  datatype Stats = Stats(
    totalMs: real,
    speechMs: real,
    silenceMs: real,
    maxRms: real,
    avgSilenceRms: Option<real>,
    speechBlocks: nat,
    silenceBlocks: nat,
    totalBlocks: nat,
    maxStreakMs: real)

  /** `_finalize_stats`: a snapshot of the accumulators with the average
      level of the audible silence blocks. */
  function Finalize(acc: Accumulators): (st: Stats)
    ensures st.avgSilenceRms == None <==> acc.silenceBlocks == 0
    ensures st.avgSilenceRms.Some? ==> st.avgSilenceRms.value * acc.silenceBlocks as real == acc.silenceRmsSum
    ensures st.totalMs == acc.totalMs && st.speechMs == acc.speechMs && st.silenceMs == acc.silenceMs
    ensures st.maxRms == acc.maxRms && st.maxStreakMs == acc.maxStreakMs
    ensures st.speechBlocks == acc.speechBlocks && st.silenceBlocks == acc.silenceBlocks && st.totalBlocks == acc.totalBlocks
  {
    var avg := if acc.silenceBlocks > 0 then Some(acc.silenceRmsSum / acc.silenceBlocks as real) else None;
    Stats(acc.totalMs, acc.speechMs, acc.silenceMs, acc.maxRms, avg,
          acc.speechBlocks, acc.silenceBlocks, acc.totalBlocks, acc.maxStreakMs)
  }

  /** `RecorderStats.speech_ratio`. */
  function SpeechRatio(st: Stats): (r: Option<real>)
    ensures r == None <==> st.totalMs <= 0.0
    ensures r.Some? ==> r.value * st.totalMs == st.speechMs
  {
    if st.totalMs <= 0.0 then None else Some(st.speechMs / st.totalMs)
  }

  /** For the snapshot of any capture, the ratio is absent exactly when no
      non-empty block arrived, and otherwise lies in [0, 1]; the average
      silence level, when present, is positive. */
  lemma {:induction false} SessionStats(cfg: Config, blocks: seq<Block>)
    requires ValidConfig(cfg)
    ensures var st := Finalize(Run(cfg, Reset, blocks));
      && (SpeechRatio(st) == None <==> Count(blocks, (b: Block) => b.frames > 0) == 0)
      && (SpeechRatio(st).Some? ==> 0.0 <= SpeechRatio(st).value <= 1.0)
      && (st.avgSilenceRms.Some? ==> st.avgSilenceRms.value > 0.0)
  {
    RunInv(cfg, blocks);
    RunCounts(cfg, blocks);
    var acc := Run(cfg, Reset, blocks);
    var st := Finalize(acc);
    if st.totalMs > 0.0 {
      RatioBounds(st.speechMs, st.silenceMs);
    }
  }

  lemma RatioBounds(speech: real, silence: real)
    requires speech >= 0.0 && silence >= 0.0 && speech + silence > 0.0
    ensures 0.0 <= speech / (speech + silence) <= 1.0
  {
  }

  // ---------------------------------------------------------------------------
  // `_prepare_block`.

  /** `np.clip` to [-1, 1]. */
  function Clip(x: real): (y: real)
    ensures -1.0 <= y <= 1.0
    ensures -1.0 <= x <= 1.0 ==> y == x
    ensures x > 1.0 ==> y == 1.0
    ensures x < -1.0 ==> y == -1.0
  {
    if x < -1.0 then -1.0 else if x > 1.0 then 1.0 else x
  }

  function Amplify(x: real, gain: real): real {
    x * gain
  }

  /** `_prepare_block`: unchanged at unit gain; otherwise every sample is
      amplified, kept when the product lies in [-1, 1] and saturated to the
      nearer bound when it does not. */
  function PrepareBlock(samples: seq<real>, preamp: real): (r: seq<real>)
    ensures |r| == |samples|
    ensures preamp == 1.0 ==> r == samples
    ensures preamp != 1.0 ==> forall i :: 0 <= i < |r| ==> -1.0 <= r[i] <= 1.0
    ensures forall i :: 0 <= i < |r| && -1.0 <= Amplify(samples[i], preamp) <= 1.0 ==> r[i] == Amplify(samples[i], preamp)
    ensures preamp != 1.0 ==> forall i :: 0 <= i < |r| ==>
      && (Amplify(samples[i], preamp) > 1.0 ==> r[i] == 1.0)
      && (Amplify(samples[i], preamp) < -1.0 ==> r[i] == -1.0)
  {
    if preamp == 1.0 then samples
    else
      seq(|samples|, i requires 0 <= i < |samples| => Clip(Amplify(samples[i], preamp)))
  }
}
