/** The `Recorder` of `recorder.py` as a state machine: the start-retry loop,
    `stop`, the statistics snapshot and the temporary-file bookkeeping.
    Device streams and sound files are reduced to open/closed flags, the
    result of opening the input stream on each attempt is an input, and the
    temporary directory is the set of file names this recorder has created
    and not removed. */
module Capture {
  import opened Basics
  import opened CaptureStats

  /** A temporary WAV file name, as handed out by `mkstemp`. */
  type Path = nat

  datatype Recorder = Recorder(
    cfg: Config,
    preamp: real,
    attempts: nat,           // `_start_retry_attempts`
    retryDelay: real,        // `_start_retry_delay`
    running: bool,
    streamOpen: bool,
    writerOpen: bool,
    file: Option<Path>,
    acc: Accumulators,
    lastStats: Option<Stats>,
    disk: set<Path>,         // temporary files created and not yet removed
    nextName: Path,          // `mkstemp` hands out names from here on
    streamsOpened: nat)      // stream-open attempts so far

  /** The outcome of `start`: the recording path, or `RecorderStartError`
      carrying the number of attempts made. */
  datatype StartResult = Started(path: Path) | StartError(attempts: nat)

  /** What every reachable recorder satisfies. */
  predicate Valid(r: Recorder) {
    && r.attempts >= 1
    && r.retryDelay >= 0.0
    && (forall p :: p in r.disk ==> p < r.nextName)
    && (r.file.Some? ==> r.file.value in r.disk)
    && r.streamOpen == r.running
    && r.writerOpen == r.running
    && r.file.Some? == r.running
  }

  /** `Recorder.__init__`: at least one start attempt and a non-negative
      retry delay. */
  function NewRecorder(sampleRate: int, rmsThreshold: real, preamp: real,
                       startRetryAttempts: int, startRetryDelay: real): (r: Recorder)
    ensures Valid(r)
    ensures r.attempts == if startRetryAttempts < 1 then 1 else startRetryAttempts
    ensures r.retryDelay == if startRetryDelay < 0.0 then 0.0 else startRetryDelay
    ensures !r.running && r.file == None && r.lastStats == None && r.disk == {}
  {
    Recorder(Config(sampleRate, rmsThreshold), preamp,
             if startRetryAttempts < 1 then 1 else startRetryAttempts,
             Max(0.0, startRetryDelay),
             false, false, false, None, Reset, None, {}, 0, 0)
  }

  /** The file this recorder currently holds, as a set. */
  function Held(r: Recorder): set<Path> {
    if r.file.Some? then {r.file.value} else {}
  }

  /** `_close_writer`: closes the writer and, when asked to, deletes the
      current file and forgets it. */
  function CloseWriter(r: Recorder, removeFile: bool): (r': Recorder)
    ensures !r'.writerOpen
    ensures removeFile ==> r'.file == None && r'.disk == r.disk - Held(r)
    ensures !removeFile ==> r'.file == r.file && r'.disk == r.disk
    ensures r'.(writerOpen := r.writerOpen, file := r.file, disk := r.disk) == r
  {
    var r := r.(writerOpen := false);
    if removeFile && r.file.Some? then r.(disk := r.disk - {r.file.value}, file := None)
    else r
  }

  /** `_prepare_writer`: discards any previous file, then creates a fresh
      one and opens a writer on it. */
  function PrepareWriter(r: Recorder): (r': Recorder)
    requires forall p :: p in r.disk ==> p < r.nextName
    ensures r'.file.Some? && r'.file.value !in r.disk
    ensures r'.disk == (r.disk - Held(r)) + {r'.file.value}
    ensures r'.writerOpen
    ensures forall p :: p in r'.disk ==> p < r'.nextName
    ensures r'.(writerOpen := r.writerOpen, file := r.file, disk := r.disk, nextName := r.nextName) == r
  {
    var closed := CloseWriter(r, true);
    closed.(file := Some(closed.nextName), disk := closed.disk + {closed.nextName},
            writerOpen := true, nextName := closed.nextName + 1)
  }

  /** `_teardown_stream`. */
  function TeardownStream(r: Recorder): (r': Recorder)
    ensures !r'.streamOpen
    ensures r'.(streamOpen := r.streamOpen) == r
  {
    r.(streamOpen := false)
  }

  /** `_handle_failed_start`: stops, tears down the stream and deletes the
      attempt's file. */
  function HandleFailedStart(r: Recorder): (r': Recorder)
    ensures !r'.running && !r'.streamOpen && !r'.writerOpen
    ensures r'.file == None && r'.disk == r.disk - Held(r)
    ensures r'.(running := r.running, streamOpen := r.streamOpen, writerOpen := r.writerOpen,
                file := r.file, disk := r.disk) == r
  {
    CloseWriter(TeardownStream(r.(running := false)), true)
  }

  /** `_reset_stats`. */
  function ResetStats(r: Recorder): (r': Recorder)
    ensures r'.acc == Reset && r'.lastStats == None
    ensures r'.(acc := r.acc, lastStats := r.lastStats) == r
  {
    r.(acc := Reset, lastStats := None)
  }

  /** Whether the input stream opens on attempt `k` (from 0); attempts past
      the end of `opens` fail. */
  predicate Opens(opens: seq<bool>, k: nat) {
    k < |opens| && opens[k]
  }

  /** The number of failed attempts before the first one that opens, or `n`
      when none of the first `n` does. */
  function FailuresBefore(opens: seq<bool>, n: nat): (k: nat)
    ensures k <= n
    ensures forall j :: 0 <= j < k ==> !Opens(opens, j)
    ensures k < n ==> Opens(opens, k)
    decreases n
  {
    if n == 0 then 0
    else
      var k := FailuresBefore(opens, n - 1);
      if k < n - 1 || Opens(opens, n - 1) then k else n
  }

  /** When the first `k` opens fail and the next succeeds, within the
      attempt count, start succeeds on attempt `k + 1`; when every attempt
      fails, all `n` are used. */
  lemma {:induction false} FirstOpenWins(k: nat, n: nat)
    requires k < n
    ensures FailuresBefore(seq(k, _ => false) + [true], n) == k
    ensures FailuresBefore(seq(n, _ => false), n) == n
  {
    var opens := seq(k, _ => false) + [true];
    assert Opens(opens, k);
    assert forall j :: 0 <= j < k ==> !Opens(opens, j);
    var none := seq(n, (_: int) => false);
    assert forall j :: 0 <= j < n ==> !Opens(none, j);
  }

  /** `Recorder.start`. A running session is returned as is. Otherwise each
      attempt creates a fresh file and constructs a stream; a failure deletes
      that file and tries again, and after the last failure the error carries
      the attempt count. */
  method Start(r: Recorder, opens: seq<bool>) returns (r': Recorder, res: StartResult)
    requires Valid(r)
    ensures Valid(r')
    ensures r'.cfg == r.cfg && r'.preamp == r.preamp && r'.attempts == r.attempts && r'.retryDelay == r.retryDelay
    ensures r.running && r.file.Some? ==> r' == r && res == Started(r.file.value)
    ensures !r.running ==> (res.Started? <==> FailuresBefore(opens, r.attempts) < r.attempts)
    ensures !r.running ==> r'.streamsOpened == r.streamsOpened + (if res.Started? then FailuresBefore(opens, r.attempts) + 1 else r.attempts)
    ensures !r.running && res.Started? ==>
      && r'.running && r'.file == Some(res.path)
      && res.path !in r.disk && r'.disk == r.disk + {res.path}
      && r'.acc == Reset && r'.lastStats == None
    ensures !r.running && res.StartError? ==>
      && res.attempts == r.attempts
      && !r'.running && !r'.streamOpen && r'.file == None
      && r'.disk == r.disk && r'.lastStats == r.lastStats && r'.acc == r.acc
  {
    if r.running && r.file.Some? {
      return r, Started(r.file.value);
    }
    var cur := r;
    var attempt := 0;
    while attempt < r.attempts
      invariant 0 <= attempt <= r.attempts
      invariant forall j :: 0 <= j < attempt ==> !Opens(opens, j)
      invariant cur == r.(streamsOpened := r.streamsOpened + attempt, nextName := r.nextName + attempt)
    {
      cur := PrepareWriter(cur);
      cur := cur.(streamsOpened := cur.streamsOpened + 1);
      if Opens(opens, attempt) {
        cur := ResetStats(cur.(streamOpen := true, running := true));
        return cur, Started(cur.file.value);
      }
      cur := HandleFailedStart(cur);
      attempt := attempt + 1;
    }
    return cur, StartError(r.attempts);
  }

  /** `Recorder.stop`: without a running session nothing happens; otherwise
      the stream and writer are closed, the statistics are snapshotted and
      the recording's path is handed back, its file kept on disk. The wait
      for trailing silence is timing only and leaves the state alone. */
  function Stop(r: Recorder): (out: (Recorder, Option<Path>))
    requires Valid(r)
    ensures Valid(out.0)
    ensures out.0.cfg == r.cfg && out.0.preamp == r.preamp && out.0.attempts == r.attempts && out.0.retryDelay == r.retryDelay
    ensures !r.running ==> out == (r, None)
    ensures r.running ==>
      && out.1 == r.file && !out.0.running && !out.0.streamOpen && !out.0.writerOpen
      && out.0.file == None && out.0.disk == r.disk
      && out.0.lastStats == Some(Finalize(r.acc))
  {
    if !r.running then (r, None)
    else
      var r1 := TeardownStream(r.(running := false));
      var r2 := CloseWriter(r1, false);
      var r3 := r2.(lastStats := Some(Finalize(r2.acc)));
      (r3.(file := None), r3.file)
  }

  /** `Recorder.last_capture_stats`. */
  function LastCaptureStats(r: Recorder): Option<Stats> {
    r.lastStats
  }

  /** One block arriving from the input stream: while a session runs it is
      accumulated; with no session there is no stream to deliver it. */
  function Feed(r: Recorder, b: Block): (r': Recorder)
    requires ValidConfig(r.cfg)
    ensures r.running ==> r'.acc == Accumulate(r.cfg, r.acc, b)
    ensures !r.running ==> r' == r
    ensures r'.(acc := r.acc) == r
  {
    if r.running then r.(acc := Accumulate(r.cfg, r.acc, b)) else r
  }

  function FeedAll(r: Recorder, blocks: seq<Block>): (r': Recorder)
    requires ValidConfig(r.cfg)
    ensures r'.(acc := r.acc) == r
    ensures !r.running ==> r' == r
    decreases |blocks|
  {
    if blocks == [] then r else Feed(FeedAll(r, blocks[..|blocks| - 1]), blocks[|blocks| - 1])
  }

  lemma {:induction false} FeedAllRuns(r: Recorder, blocks: seq<Block>)
    requires ValidConfig(r.cfg) && r.running
    ensures FeedAll(r, blocks).acc == Run(r.cfg, r.acc, blocks)
    decreases |blocks|
  {
    if blocks != [] {
      FeedAllRuns(r, blocks[..|blocks| - 1]);
    }
  }

  /** A whole capture: `start`, the session's blocks, then `stop`. When
      start succeeds, `stop` returns the path `start` returned, a file that
      did not exist before and stays on disk next to every earlier one, and
      `last_capture_stats` is the snapshot of exactly those blocks. When
      start fails, no block reaches the statistics, `stop` reports no session
      and the disk and the previous snapshot are as before. Either way the
      configuration is kept. */
  method CaptureSession(r: Recorder, opens: seq<bool>, blocks: seq<Block>)
      returns (res: StartResult, target: Option<Path>, done: Recorder)
    requires Valid(r) && ValidConfig(r.cfg) && !r.running
    ensures Valid(done)
    ensures done.cfg == r.cfg && done.preamp == r.preamp && done.attempts == r.attempts && done.retryDelay == r.retryDelay
    ensures res.Started? <==> FailuresBefore(opens, r.attempts) < r.attempts
    ensures res.Started? ==>
      && target == Some(res.path) && res.path !in r.disk && res.path in done.disk
      && r.disk <= done.disk && !done.running
      && LastCaptureStats(done) == Some(Finalize(Run(r.cfg, Reset, blocks)))
    ensures res.StartError? ==>
      && target == None && !done.running && done.disk == r.disk
      && LastCaptureStats(done) == r.lastStats
  {
    var started;
    started, res := Start(r, opens);
    var fed := FeedAll(started, blocks);
    if res.Started? {
      FeedAllRuns(started, blocks);
    }
    var out := Stop(fed);
    done, target := out.0, out.1;
  }

  /** A stopped recorder that is stopped again reports no session and keeps
      its snapshot. */
  lemma StopTwice(r: Recorder)
    requires Valid(r)
    ensures var (once, _) := Stop(r); Stop(once) == (once, None)
  {
  }
}
