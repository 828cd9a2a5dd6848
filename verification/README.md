# wa_whisper core, modelled in Dafny

wa_whisper is a push-to-talk dictation tool: holding Right-Alt records the
microphone into a temporary WAV file, releasing it hands the capture to a
speech recogniser, and the transcript is cleaned up before it is typed.
This project models three sequential pieces of that program and proves
properties of them:

- **Text post-processing** (`src/wa_whisper/text_postprocess.py`):
  whitespace cleanup, the number-word stage with its fail-soft converter,
  acronym merging, sentence-final punctuation, the toggle-gated
  `postprocess_text` and the generic `apply_pipeline`. Modules `Chars`
  (Python's whitespace set, case mapping, `strip`, substring search),
  `Whitespace`, `NumberWords`, `Acronyms` and `Postprocess`.
- **Recorder** (`src/wa_whisper/recorder.py`): the block statistics fold
  and its snapshot (module `CaptureStats`), and the capture state machine
  with its start-retry loop, `stop` and temporary-file bookkeeping (module
  `Capture`). The result of opening the input stream on each attempt is an
  input sequence of outcomes; the temporary directory is the set of file
  names the recorder created and has not removed; `mkstemp` hands out names
  above every name already used.
- **Audio muting and push-to-talk** (`src/wa_whisper/hotkeys.py`): the
  `wpctl`/`pactl` status parsers, the mute/restore state machine of both
  strategies, the self-disabling `AudioMuteController` (module `Mute`) and
  the key handlers of `PushToTalkHotkey` (module `PushToTalk`). Every
  subprocess call becomes an outcome given as input: the text a status
  query printed, or `None` when it failed, whether a set-mute command
  succeeded, and whether the `pactl` default-sink query at construction
  succeeded.

`Basics` holds `Option`, `Max` on reals and sequence associativity.

Where the program's own text promises more than its code does, the model
follows the code:

- Three tests in `tests/test_text_postprocess.py` expect stages that
  `postprocess_text` (`text_postprocess.py` lines 82-101) does not have:
  banned-phrase removal (lines 6-8 and 36-38) and lowercasing a short
  single sentence while dropping its period (lines 11-13). The code runs
  only the whitespace, number, acronym, punctuation and trailing-space
  stages, and that is what is modelled.
- The docstring of `last_capture_stats` (`recorder.py` line 196) speaks of
  the most recent capture. A successful `start` calls `_reset_stats`
  (line 152), which clears the snapshot (line 212), so it is `None` from a
  successful start until the next `stop` (`Capture.Start`).
- A block with zero frames returns before it is classified (`recorder.py`
  lines 231-233), so it neither extends nor breaks a speech streak; only a
  non-empty block at or below the threshold resets the streak (line 251,
  `CaptureStats.TrailingStreak`).

## Model

| member | source | states |
|---|---|---|
| `Chars.Strip` | src/wa_whisper/text_postprocess.py:70 | `str.strip()` leaves no whitespace at either end, never lengthens, and returns a text without surrounding whitespace unchanged |
| `Chars.Contains` | src/wa_whisper/hotkeys.py:104 | Python's `in`: the empty needle always occurs, a needle longer than the text never does, and one as long as the text occurs exactly when they are equal |
| `Chars.ContainsIffOccurs` | src/wa_whisper/hotkeys.py:104 | the left-to-right scan finds the needle exactly when it occurs at some position |
| `Chars.ContainsPrefix` | src/wa_whisper/hotkeys.py:104-105 | a text containing "muted: yes" also contains "muted:": containing a needle implies containing each prefix of it |
| `Whitespace.Collapse` | src/wa_whisper/text_postprocess.py:70 | `re.sub(r"\s+", " ", s)` never lengthens the text and empties only the empty text |
| `Whitespace.CollapseFirst` | src/wa_whisper/text_postprocess.py:70 | the collapsed text starts with `' '` exactly when the text starts with whitespace, and otherwise with the text's own first character |
| `Whitespace.CollapseShape` | src/wa_whisper/text_postprocess.py:70 | for a text without leading whitespace, collapsing gives its words joined by single spaces plus one `' '` exactly when it ends in whitespace |
| `Whitespace.Words` | src/wa_whisper/text_postprocess.py:50 | `str.split()` yields non-empty tokens without whitespace, no more of them than the text has characters |
| `Whitespace.CleanWhitespace` | src/wa_whisper/text_postprocess.py:68-70 | the result has no leading or trailing whitespace, its only whitespace is single `' '` separators, and it is the text's words joined by one space |
| `Whitespace.CleanWhitespaceFixpoints` | src/wa_whisper/text_postprocess.py:68-70 | `clean_whitespace` leaves a text unchanged exactly when it already has that normalized shape |
| `Whitespace.CleanWhitespaceIdempotent` | src/wa_whisper/text_postprocess.py:68-70 | applying `clean_whitespace` twice equals applying it once |
| `Whitespace.CleanWhitespaceKeepsWords` | src/wa_whisper/text_postprocess.py:68-70 | cleanup keeps the sequence of words: splitting the result gives the input's words |
| `Whitespace.WordsOfJoin` | src/wa_whisper/text_postprocess.py:50-65 | splitting the space-join of whitespace-free tokens gives the tokens back |
| `Whitespace.JoinNormalized` | src/wa_whisper/text_postprocess.py:65 | joining words with single spaces produces normalized text |
| `Acronyms.MergeRuns` | src/wa_whisper/text_postprocess.py:51-64 | the merged token list is never longer than the input and is empty only for empty input |
| `Acronyms.NormalizeAcronyms` | src/wa_whisper/text_postprocess.py:48-65 | the output is its tokens joined by single spaces, and those tokens are the merge of the input's tokens |
| `Acronyms.AcronymSpelling` | src/wa_whisper/text_postprocess.py:57-60 | an acronym is the run's letters uppercased in order, one character per token, and for two or more letters it is one word that is not itself a single letter |
| `Acronyms.MergeMaximalRun` | src/wa_whisper/text_postprocess.py:53-61 | a maximal run of at least two single-ASCII-letter tokens becomes one uppercased token, and the tokens around it are merged independently |
| `Acronyms.MergeLoneLetter` | src/wa_whisper/text_postprocess.py:59-64 | a single-letter token with no letter token beside it is emitted unchanged, case kept |
| `Acronyms.MergeRunsSeparatesLetters` | src/wa_whisper/text_postprocess.py:53-64 | after merging, no two adjacent tokens are both single letters |
| `Acronyms.MergeRunsIdempotent` | src/wa_whisper/text_postprocess.py:51-64 | merging merged tokens changes nothing |
| `Acronyms.NormalizeAcronymsIdempotent` | src/wa_whisper/text_postprocess.py:48-65 | `normalize_acronyms` applied twice equals applied once |
| `Acronyms.NormalizeAcronymsTokenCount` | src/wa_whisper/text_postprocess.py:48-65 | the output never has more tokens than the input |
| `Acronyms.LetterWindow` | src/wa_whisper/text_postprocess.py:54-58 | the inner loop collects the uppercased maximal run of letter tokens starting at `i` and stops at its end |
| `Acronyms.MergeRunsLoop` | src/wa_whisper/text_postprocess.py:50-64 | the nested `while` loops compute the same tokens as the recursive definition |
| `NumberWords.ConverterInput` | src/wa_whisper/text_postprocess.py:27 | the converter sees the run with every hyphen turned into a space and letters lowercased, position by position |
| `NumberWords.WordToNumber` | src/wa_whisper/text_postprocess.py:26-32 | a run the converter rejects is returned verbatim; an accepted one becomes the converter's value |
| `NumberWords.RenderConcat` | src/wa_whisper/text_postprocess.py:38-45 | substitution works match by match: rendering a concatenation renders each part |
| `NumberWords.NormalizeNumbers` | src/wa_whisper/text_postprocess.py:35-45 | fail-soft: when the converter rejects every run the pattern finds, `normalize_numbers` returns its input unchanged |
| `NumberWords.RejectingConverterIsIdentity` | src/wa_whisper/text_postprocess.py:26-45 | with a converter that always raises, the number stage is the identity on every text |
| `NumberWords.NormalizeNumbersEmpty` | src/wa_whisper/text_postprocess.py:35-45 | the empty text is mapped to itself whatever the converter does |
| `Postprocess.EnsureSentenceFinalPunctuation` | src/wa_whisper/text_postprocess.py:73-79 | empty text and text ending in `.`, `!` or `?` are returned unchanged; otherwise exactly one `.` is appended; any non-empty result ends in one of the three |
| `Postprocess.EnsurePunctuationIdempotent` | src/wa_whisper/text_postprocess.py:73-79 | the punctuation stage applied twice equals applied once |
| `Postprocess.PostprocessText` | src/wa_whisper/text_postprocess.py:82-101 | with `append_space` the result ends in one `' '`; with punctuation on and no trailing space a non-empty result ends in `.`, `!` or `?`; with every toggle off it is `clean_whitespace(text)` |
| `Postprocess.PostprocessDefaults` | src/wa_whisper/text_postprocess.py:82-101 | under the default toggles and a converter that rejects everything, the result is cleanup, then acronym merging, then punctuation |
| `Postprocess.PostprocessIsPipeline` | src/wa_whisper/text_postprocess.py:82-101 | `postprocess_text` is `apply_pipeline` over whitespace cleanup, then the enabled number, acronym, punctuation and trailing-space stages in that order |
| `Postprocess.PostprocessAppendSpace` | src/wa_whisper/text_postprocess.py:99-100 | `append_space` appends exactly one space to what the other stages produce |
| `Postprocess.PostprocessBlank` | src/wa_whisper/text_postprocess.py:91-101 | empty or all-whitespace input gives `""`, or `" "` with `append_space` |
| `Postprocess.PostprocessNormalized` | src/wa_whisper/text_postprocess.py:91-98 | without the number stage and the trailing space, the result keeps the normalized whitespace shape |
| `Postprocess.ApplyPipeline` | src/wa_whisper/text_postprocess.py:104-109 | no transforms return the text; one transform is applied to the text itself |
| `Postprocess.ApplyPipelineFirst` | src/wa_whisper/text_postprocess.py:104-109 | the pipeline is a left fold: the first transform sees the input, the rest see its result |
| `Postprocess.ApplyPipelineAppend` | src/wa_whisper/text_postprocess.py:104-109 | running two transform lists one after the other equals running their concatenation |
| `Postprocess.ApplyPipelineLoop` | src/wa_whisper/text_postprocess.py:106-109 | the `for` loop computes the fold, and an empty transform list is the identity |
| `CaptureStats.BlockMs` | src/wa_whisper/recorder.py:234 | a block's duration is positive exactly when it has frames |
| `CaptureStats.Accumulate` | src/wa_whisper/recorder.py:230-254 | a zero-frame block changes nothing; a block counts as speech exactly when its RMS is strictly above the threshold; silence resets the current streak; the maximum RMS covers the block |
| `CaptureStats.AccumulatePreservesInv` | src/wa_whisper/recorder.py:238-254 | one block keeps speech + silence = total, current streak ≤ max streak ≤ speech time, speech + counted-silence blocks ≤ total blocks, and total time positive exactly when a block was counted |
| `CaptureStats.RunInv` | src/wa_whisper/recorder.py:201-254 | those relations hold after any sequence of blocks from a reset |
| `CaptureStats.RunCounts` | src/wa_whisper/recorder.py:230-254 | after any blocks the counters equal the number and total duration of non-empty, speech and silence blocks, and the silence level sum equals the sum of the levels of the audible silence blocks, all counted independently |
| `CaptureStats.RunStreaks` | src/wa_whisper/recorder.py:246-251 | the current streak is the speech run the blocks end with and the maximum streak is the longest speech run seen |
| `CaptureStats.RunMaxRms` | src/wa_whisper/recorder.py:239 | the maximum RMS is at least the starting maximum and the RMS of every non-empty block, and equals one of them |
| `CaptureStats.Drain` | src/wa_whisper/recorder.py:214-223 | draining the blocks in order accumulates all of them and keeps the invariant |
| `CaptureStats.Finalize` | src/wa_whisper/recorder.py:256-270 | the average silence level is absent exactly when no silence block had positive RMS, and otherwise times that count is the silence RMS sum |
| `CaptureStats.SpeechRatio` | src/wa_whisper/recorder.py:45-50 | the ratio is absent exactly when total time is at most zero; otherwise ratio × total = speech time |
| `CaptureStats.SessionStats` | src/wa_whisper/recorder.py:256-259 | for any capture the ratio is absent exactly when no non-empty block arrived and otherwise lies in [0, 1]; a present silence average is positive |
| `CaptureStats.Clip` | src/wa_whisper/recorder.py:227 | clipping lands in [-1, 1] and keeps values already inside it |
| `CaptureStats.PrepareBlock` | src/wa_whisper/recorder.py:225-228 | at gain 1.0 the block is unchanged; otherwise each amplified sample is kept when it lies in [-1, 1], becomes 1.0 when above and -1.0 when below, so every sample lies in [-1, 1] |
| `Capture.NewRecorder` | src/wa_whisper/recorder.py:70-109 | the attempt count is `max(1, start_retry_attempts)` and the delay `max(0.0, start_retry_delay)`; a new recorder is idle with no file and no statistics |
| `Capture.CloseWriter` | src/wa_whisper/recorder.py:311-319 | the writer is closed; with removal the current file is deleted and forgotten, without it file and disk are kept; nothing else changes |
| `Capture.PrepareWriter` | src/wa_whisper/recorder.py:274-287 | any previous file is deleted, a fresh file not on disk before is created and held, and a writer is open on it |
| `Capture.TeardownStream` | src/wa_whisper/recorder.py:302-309 | the stream is closed and nothing else changes |
| `Capture.HandleFailedStart` | src/wa_whisper/recorder.py:289-298 | a failed attempt leaves the recorder stopped, stream and writer closed, and its file deleted |
| `Capture.ResetStats` | src/wa_whisper/recorder.py:201-212 | the accumulators are zeroed and the last snapshot cleared, nothing else changes |
| `Capture.FailuresBefore` | src/wa_whisper/recorder.py:124-146 | the number of failed attempts before the first stream that opens, or the attempt count when none does |
| `Capture.FirstOpenWins` | tests/test_recorder.py:59-76 | when the first k opens fail and the next succeeds with k below the attempt count, start succeeds on attempt k + 1; when every open fails, all attempts are used |
| `Capture.Start` | src/wa_whisper/recorder.py:111-166 | configuration (sample rate, threshold, preamp, attempts, delay) is never changed; a running session's path is returned with nothing changed; otherwise start succeeds iff some attempt opens, after exactly the failed attempts plus one streams, with a fresh file on disk, running, zeroed statistics and no snapshot; after exhausting the attempts it reports the attempt count, stopped, stream closed, no file, every file it created removed, and statistics and snapshot untouched |
| `Capture.Stop` | src/wa_whisper/recorder.py:168-193 | the configuration is kept; without a session it returns nothing and changes nothing; otherwise it returns the session's file, kept on disk, leaves the recorder stopped with stream and writer closed and no file, and stores the finalized snapshot |
| `Capture.Feed` | src/wa_whisper/recorder.py:220-223 | a block is accumulated only while a session runs; nothing else changes |
| `Capture.FeedAllRuns` | src/wa_whisper/recorder.py:214-223 | feeding a session's blocks accumulates them in order |
| `Capture.CaptureSession` | src/wa_whisper/recorder.py:111-197 | `start`, the session's blocks, then `stop`: the recorder stays valid with its configuration kept; when start succeeds (iff some attempt opens), `stop` returns that start's path, a file new to the disk that stays there with every earlier file, and `last_capture_stats` is the snapshot of exactly those blocks; when it fails, no block is counted, `stop` returns nothing, and disk and previous snapshot are unchanged |
| `Capture.StopTwice` | src/wa_whisper/recorder.py:170-172 | a second `stop` returns nothing and changes nothing |
| `Mute.WpctlMeaning` | src/wa_whisper/hotkeys.py:97-107 | on the stripped, lowercased output the `wpctl` reading is true exactly when "muted: yes" occurs, or "[muted]" occurs and "muted:" does not; it is never absent |
| `Mute.ParseWpctl` | src/wa_whisper/hotkeys.py:97-107 | "muted: yes" anywhere reads as muted; "muted: no" without "muted: yes" reads as not muted; without any "muted:" the reading is whether "[muted]" occurs |
| `Mute.ReadMuted` | src/wa_whisper/hotkeys.py:97-107 | the `wpctl` reading is always known; a reading is unknown only for `pactl` output containing neither "yes" nor "no" (lines 148-158) |
| `Mute.DetectBackend` | src/wa_whisper/hotkeys.py:28-34 | `wpctl` is chosen whenever it is installed, `pactl` only when `wpctl` is not, and none when neither is |
| `Mute.NewController` | src/wa_whisper/hotkeys.py:24-34 | construction raises exactly when `pactl` is chosen and its default-sink query fails (lines 110-113, 141-145); otherwise the controller has a strategy exactly when a backend was found, for that backend, inactive and with nothing recorded (lines 56-59) |
| `Mute.ParsePactl` | src/wa_whisper/hotkeys.py:148-158 | on the stripped, lowercased output the `pactl` reading is true exactly when "yes" occurs, false exactly when "no" occurs without "yes", and absent exactly when neither occurs |
| `Mute.ParsersIgnorePadding` | src/wa_whisper/hotkeys.py:102 | whitespace around the command output does not change either reading |
| `Mute.StrategyMute` | src/wa_whisper/hotkeys.py:71-80 | a no-op when already active; it fails exactly when the status query or the mute command fails, and then stays inactive; on success it records the prior state and becomes active (identical for `pactl`, lines 115-124) |
| `Mute.StrategyRestore` | src/wa_whisper/hotkeys.py:82-95 | a no-op when inactive; it unmutes only when the recorded state is exactly "not muted", fails only when that unmute fails, and always ends inactive with nothing recorded (identical for `pactl`, lines 126-139) |
| `Mute.MuteRestoreRoundTrip` | src/wa_whisper/hotkeys.py:71-95 | when the status query reports the sink's state and the commands succeed, mute then restore leaves the sink as it was and the strategy as new |
| `Mute.UnknownStatusLeavesMuted` | src/wa_whisper/hotkeys.py:126-139 | when `pactl` prints neither yes nor no, a capture leaves the sink muted afterwards |
| `Mute.ControllerMute` | src/wa_whisper/hotkeys.py:36-43 | without a strategy nothing happens; the strategy's `mute` runs on the controller's own strategy: its commands are issued, a failure disables the controller, and on success the controller keeps exactly the strategy that `mute` produced |
| `Mute.ControllerRestore` | src/wa_whisper/hotkeys.py:45-52 | without a strategy nothing happens; the strategy's `restore` runs on the controller's own strategy: its commands are issued, a failure disables the controller, and otherwise the controller keeps exactly the strategy that `restore` produced |
| `Mute.DisabledStaysDisabled` | src/wa_whisper/hotkeys.py:36-52 | once disabled, the controller stays disabled and sends no command whatever is asked of it |
| `PushToTalk.NewHotkey` | src/wa_whisper/hotkeys.py:164-185 | construction raises exactly when muting is enabled and the controller's construction raises; otherwise the hotkey has no listener, no capture and holds no audio muted, a controller exactly when muting is enabled, with a fresh strategy exactly when a backend was found |
| `PushToTalk.MuteAudio` | src/wa_whisper/hotkeys.py:254-256 | without a controller nothing happens; otherwise the controller and the issued commands are those of the controller's `mute`, and nothing else of the hotkey changes |
| `PushToTalk.RestoreAudio` | src/wa_whisper/hotkeys.py:258-260 | without a controller nothing happens; otherwise the controller and the issued commands are those of the controller's `restore`, audio is no longer held muted, and the only command is an unmute |
| `PushToTalk.Start` | src/wa_whisper/hotkeys.py:187-197 | a listener is created only when none exists |
| `PushToTalk.StartIdempotent` | src/wa_whisper/hotkeys.py:187-190 | a second start creates no new listener |
| `PushToTalk.Stop` | src/wa_whisper/hotkeys.py:199-206 | the listener is dropped first, then the controller's `restore` runs with its commands; audio is released, and a capture in progress is neither ended nor started |
| `PushToTalk.Press` | src/wa_whisper/hotkeys.py:210-236 | Right-Alt while capturing is ignored; otherwise the controller's `mute` runs first, then the recorder starts, and a failed start is followed by the controller's `restore`; with an idle strategy and a status answer, the first effects are the status query, the mute command and the start; capture stays active exactly when start succeeded; Esc with exit enabled is `stop` followed by the exit hook when there is one; other keys do nothing |
| `PushToTalk.Release` | src/wa_whisper/hotkeys.py:238-245 | only releasing Right-Alt during a capture ends it, scheduling exactly one finalization |
| `PushToTalk.FinalizeCapture` | src/wa_whisper/hotkeys.py:247-252 | the recorder is stopped, then the controller's `restore` runs; the press state and the listener are untouched and audio is released |
| `PushToTalk.FailedStartLeavesSink` | src/wa_whisper/hotkeys.py:210-224 | on a fresh hotkey, a Right-Alt press whose recorder start fails returns the sink to its state before the press and the hotkey to its initial state, provided the status query reported that state and the commands succeeded |
| `PushToTalk.CaptureRestoresSink` | src/wa_whisper/hotkeys.py:210-252 | on a fresh hotkey, press mutes the sink and starts a capture, release schedules exactly one finalization, and the finalization returns sink and hotkey to their state before the press, provided the status query reported that state and the commands succeeded |
| `PushToTalk.StopFreshIsQuiet` | src/wa_whisper/hotkeys.py:199-206 | stopping a hotkey that never listened or muted sends nothing to the sound server and changes nothing |
| `PushToTalk.FinalizeWhileHeld` | src/wa_whisper/hotkeys.py:210-252 | a Right-Alt press after a release but before that release's finalization sends no mute command, and the pending finalization then unmutes the sink while the hotkey is active again |
| `PushToTalk.HandleBalance` | src/wa_whisper/hotkeys.py:210-252 | every event, including a finalization, keeps the balance of captures started against captures finalized |
| `PushToTalk.ReplayBalance` | src/wa_whisper/hotkeys.py:210-245 | over any run of events, successful recorder start requests balance scheduled finalizations, except for a press still held |

## Left out

- The number-word regular expression (`text_postprocess.py` lines 11-23) is not re-derived: `NumberWords.Scanner` stands for `re.sub`'s split of the text into runs and gaps, constrained only by `ValidScan` (the pieces rebuild the text and a run is never empty). Its `prefix` and `suffix` groups match only at word boundaries, so they are always empty and are not represented.
- The arithmetic of `w2n.word_to_num` and `str(value)` are a foreign library: `NumberWords.Converter` is an arbitrary partial function, `None` where the library raises `ValueError`.
- NumberWords.WordToNumber: `_word_to_number` (`text_postprocess.py` line 30) catches only `ValueError`; any other exception raised by `w2n.word_to_num` propagates out of `normalize_numbers` and `postprocess_text` (and `main.py` then drops the transcript). The converter of the model cannot raise, so that path is not modelled.
- Chars.Lower: `str.lower`/`str.upper` are modelled for ASCII letters only; other characters are left unchanged, whereas Python also maps non-ASCII letters. This affects the converter input and the mute-status parsers only for non-ASCII output.
- Durations, RMS levels and samples are exact reals. Floating-point rounding (`float32` samples, `float64` sums, so `speech_ms + silence_ms == total_ms` only up to rounding in the program) and NaN levels are not modelled.
- The RMS of a block is an input rather than computed from samples (`np.sqrt`/`np.mean`), and the dB views `speech_max_db`/`silence_avg_db` (`recorder.py` lines 52-64) use `math.log10`; both are floating-point numerics.
- CaptureStats.Accumulate: requires a positive sample rate. With zero, Python raises `ZeroDivisionError` on the first non-empty block, and a negative one would give negative durations; neither case is modelled.
- Threads, the block queue, the audio callback, the locks and the `_drain_queue` polling loop are not modelled: the blocks of a session are fed in arrival order while it runs (`Capture.Feed`). `stop` joins the drain thread before finalizing, which the model reflects by finalizing after every fed block.
- Wall-clock time: the silence deadline wait in `stop`, `_last_audio_time`, and the retry delay sleep in `_handle_failed_start` only delay and do not change the modelled state.
- Sound devices and files: stream construction and `stream.start()` failures are folded into one outcome per attempt. Writing samples to the WAV file, the sample format, and the `mkdir` of the temporary directory are not modelled. Only the existence of the recorder's own temporary files is tracked.
- Capture.PrepareWriter: `tempfile.mkstemp` and `sf.SoundFile` (`recorder.py` lines 278-287) are called from `start` outside the `try` of lines 131-146, so an exception from either escapes `start` without a retry or `RecorderStartError` and can leave the new temporary file behind; the model treats both as always succeeding.
- Capture.Start: requires the recorder invariant `Valid`, which `NewRecorder` establishes and every operation keeps. The error message text of `RecorderStartError` and all log messages are not modelled.
- `Recorder.last_capture_stats` is the `lastStats` field (`Capture.LastCaptureStats`); its behaviour is stated through `Capture.Start`, `Capture.Stop` and `Capture.CaptureSession`.
- Whether `wpctl` or `pactl` is installed (`shutil.which`) is an input of `Mute.DetectBackend`. The outcome of `_PactlStrategy._detect_sink` is an input of `Mute.NewController` and `PushToTalk.NewHotkey`; the sink name it returns is not modelled. Only `CalledProcessError` failures are modelled, as failed outcomes; other exceptions from `subprocess` (a missing executable, say) are not.
- PushToTalk.ReplayBalance: counts successful start requests against scheduled finalizations; it does not promise that each recorder session is finalized exactly once. A Right-Alt press after a release but before `_finalize_capture` has stopped the recorder (which waits out the silence deadline while `_running` is still true, `recorder.py` lines 170-176) gets the running session's file back from `start` (lines 113-115) rather than a new capture, and the pending finalization then stops that session and unmutes while the key is held (`PushToTalk.FinalizeWhileHeld`); the second finalization gets `None`. The model's recorder outcomes are inputs, so it does not link the two.
- `PushToTalkHotkey._finalize_capture` runs on its own thread; the model runs it as the separate event `Finalized`, at any point after the release, and reduces the recorder's `stop` and `last_capture_stats` to the `StopRecorder` effect (both are modelled in `Capture`). The `on_capture_finished` callback and the listener thread are external. Both exception handlers of `_handle_press` behave alike and are modelled by one failed-start outcome.
- `main.py`, the recogniser wrapper, logging and voice isolation are outside this model.
