/** `PushToTalkHotkey` of `hotkeys.py`: holding Right-Alt records, releasing
    it schedules the capture's finalization, and Esc can end the listener.
    The keyboard listener is reduced to a present/absent flag, the recorder
    to whether its `start` succeeded, and the mute controller to the model of
    the `Mute` module driven by the outcomes of its commands. */
module PushToTalk {
  import opened Basics
  import opened Mute

  datatype Key = RightAlt | Escape | OtherKey

  /** What the handlers do outside their own state, in order. */
  datatype Effect =
    | ListenerStarted
    | ListenerStopped
    | Audio(command: Command)
    | StartRecorder(ok: bool)
    | FinalizeScheduled
    | StopRecorder
    | Exited

  datatype Hotkey = Hotkey(
    listening: bool,          // `_listener` is set
    active: bool,             // `_active`
    muter: Option<Controller>,  // `None` when audio muting is disabled
    exitOnEsc: bool,
    hasExitHook: bool)        // `on_exit` was given

  /** The outcomes of the external calls one key press can make: the mute
      status query and set-mute command, the recorder's start, and the
      unmute command. */
  datatype Outcomes = Outcomes(status: Option<string>, muteOk: bool, startOk: bool, restoreOk: bool)

  /** Audio is not held muted by this hotkey's controller. */
  predicate AudioReleased(h: Hotkey) {
    h.muter.Some? && h.muter.value.strategy.Some? ==> !h.muter.value.strategy.value.active
  }

  /** `PushToTalkHotkey.__init__`: idle, without a listener, and with a
      controller for the detected backend when audio muting is enabled;
      `None` when building that controller raises (see `NewController`). */
  function NewHotkey(enableAudioMute: bool, backend: Option<Backend>, sinkOk: bool, exitOnEsc: bool, hasExitHook: bool): (r: Option<Hotkey>)
    ensures r == None <==> enableAudioMute && backend == Some(Pactl) && !sinkOk
    ensures r.Some? ==> var h := r.value;
      && !h.listening && !h.active && AudioReleased(h)
      && h.exitOnEsc == exitOnEsc && h.hasExitHook == hasExitHook
      && (h.muter.Some? <==> enableAudioMute)
      && (h.muter.Some? ==> (h.muter.value.strategy.Some? <==> backend.Some?))
      && (h.muter.Some? && h.muter.value.strategy.Some? ==>
            h.muter.value.strategy.value == FreshStrategy(backend.value))
  {
    if !enableAudioMute then Some(Hotkey(false, false, None, exitOnEsc, hasExitHook))
    else
      match NewController(backend, sinkOk)
      case None => None
      case Some(c) => Some(Hotkey(false, false, Some(c), exitOnEsc, hasExitHook))
  }

  function AudioEffects(cmds: seq<Command>): (es: seq<Effect>)
    ensures |es| == |cmds|
    ensures forall i :: 0 <= i < |es| ==> es[i] == Audio(cmds[i])
  {
    seq(|cmds|, i requires 0 <= i < |cmds| => Audio(cmds[i]))
  }

  /** `_mute_audio`: the controller's `mute`, when muting is enabled. */
  function MuteAudio(h: Hotkey, o: Outcomes): (out: (Hotkey, seq<Effect>))
    ensures out.0.(muter := h.muter) == h
    ensures h.muter == None ==> out == (h, [])
    ensures h.muter.Some? ==>
      var (c', cmds) := ControllerMute(h.muter.value, o.status, o.muteOk);
      out.0.muter == Some(c') && out.1 == AudioEffects(cmds)
    ensures forall e :: e in out.1 ==> e.Audio?
  {
    match h.muter
    case None => (h, [])
    case Some(c) =>
      var (c', cmds) := ControllerMute(c, o.status, o.muteOk);
      (h.(muter := Some(c')), AudioEffects(cmds))
  }

  /** `_restore_audio`: the controller's `restore`, when muting is enabled. */
  function RestoreAudio(h: Hotkey, ok: bool): (out: (Hotkey, seq<Effect>))
    ensures out.0.(muter := h.muter) == h
    ensures AudioReleased(out.0)
    ensures h.muter == None ==> out == (h, [])
    ensures h.muter.Some? ==>
      var (c', cmds) := ControllerRestore(h.muter.value, ok);
      out.0.muter == Some(c') && out.1 == AudioEffects(cmds)
    ensures forall e :: e in out.1 ==> e == Audio(SetMute(false))
  {
    match h.muter
    case None => (h, [])
    case Some(c) =>
      var (c', cmds) := ControllerRestore(c, ok);
      (h.(muter := Some(c')), AudioEffects(cmds))
  }

  /** `PushToTalkHotkey.start`: creates a listener unless one exists. */
  function Start(h: Hotkey): (out: (Hotkey, seq<Effect>))
    ensures out.0.listening
    ensures h.listening ==> out == (h, [])
    ensures !h.listening ==> out.1 == [ListenerStarted] && out.0 == h.(listening := true)
  {
    if h.listening then (h, []) else (h.(listening := true), [ListenerStarted])
  }

  /** `PushToTalkHotkey.stop`: drops the listener, then restores audio; a
      capture in progress is left alone. */
  function Stop(h: Hotkey, restoreOk: bool): (out: (Hotkey, seq<Effect>))
    ensures !out.0.listening && out.0.active == h.active
    ensures AudioReleased(out.0)
    ensures var (h', audio) := RestoreAudio(h, restoreOk);
      && out.0 == h'.(listening := false)
      && out.1 == (if h.listening then [ListenerStopped] else []) + audio
    ensures StartRecorder(true) !in out.1 && FinalizeScheduled !in out.1
  {
    var (h1, stopped) := if h.listening then (h.(listening := false), [ListenerStopped]) else (h, []);
    var (h2, audio) := RestoreAudio(h1, restoreOk);
    (h2, stopped + audio)
  }

  /** Muting is enabled and a strategy is available and idle. */
  predicate ReadyToMute(h: Hotkey) {
    h.muter.Some? && h.muter.value.strategy.Some? && !h.muter.value.strategy.value.active
  }

  /** `_handle_press`. On Right-Alt with no capture in progress: audio is
      muted first, then the recorder is started, and a failed start is
      undone by restoring audio. On Esc, when enabled: `stop`, then the
      exit hook. */
  function Press(h: Hotkey, key: Key, o: Outcomes): (out: (Hotkey, seq<Effect>))
    ensures key == RightAlt && h.active ==> out == (h, [])
    ensures key == RightAlt && !h.active ==>
      var (h1, muted) := MuteAudio(h, o);
      && (o.startOk ==> out == (h1.(active := true), muted + [StartRecorder(true)]))
      && (!o.startOk ==>
            var (h2, restored) := RestoreAudio(h1, o.restoreOk);
            out == (h2, muted + [StartRecorder(false)] + restored))
    ensures key == RightAlt && !h.active ==>
      && (out.0.active <==> o.startOk)
      && (!o.startOk ==> AudioReleased(out.0))
    ensures key == RightAlt && !h.active && ReadyToMute(h) && o.status.Some? ==>
      |out.1| >= 3 && out.1[..3] == [Audio(QueryMute), Audio(SetMute(true)), StartRecorder(o.startOk)]
    ensures key == Escape && h.exitOnEsc ==>
      var (h1, stopped) := Stop(h, o.restoreOk);
      out == (h1, stopped + if h.hasExitHook then [Exited] else [])
    ensures key == Escape && h.exitOnEsc ==> !out.0.listening && AudioReleased(out.0) && (Exited in out.1 <==> h.hasExitHook)
    ensures key == OtherKey || (key == Escape && !h.exitOnEsc) ==> out == (h, [])
    ensures out.0.exitOnEsc == h.exitOnEsc && out.0.hasExitHook == h.hasExitHook
    ensures key != RightAlt ==> out.0.active == h.active
  {
    match key
    case RightAlt =>
      if h.active then (h, [])
      else
        var (h1, muted) := MuteAudio(h.(active := true), o);
        if o.startOk then (h1, muted + [StartRecorder(true)])
        else
          var (h2, restored) := RestoreAudio(h1.(active := false), o.restoreOk);
          (h2, muted + [StartRecorder(false)] + restored)
    case Escape =>
      if !h.exitOnEsc then (h, [])
      else
        var (h1, stopped) := Stop(h, o.restoreOk);
        (h1, stopped + if h.hasExitHook then [Exited] else [])
    case OtherKey => (h, [])
  }

  /** `_handle_release`: only releasing Right-Alt during a capture ends it,
      and then exactly one finalization is scheduled. */
  function Release(h: Hotkey, key: Key): (out: (Hotkey, seq<Effect>))
    ensures key != RightAlt || !h.active ==> out == (h, [])
    ensures key == RightAlt && h.active ==> out == (h.(active := false), [FinalizeScheduled])
  {
    if key != RightAlt || !h.active then (h, []) else (h.(active := false), [FinalizeScheduled])
  }

  /** `_finalize_capture`, run after a release: the recorder is stopped,
      then audio is restored; the press state is not touched. */
  function FinalizeCapture(h: Hotkey, restoreOk: bool): (out: (Hotkey, seq<Effect>))
    ensures out.0.active == h.active && out.0.listening == h.listening
    ensures AudioReleased(out.0)
    ensures var (h', audio) := RestoreAudio(h, restoreOk);
      out == (h', [StopRecorder] + audio)
  {
    var (h1, audio) := RestoreAudio(h, restoreOk);
    (h1, [StopRecorder] + audio)
  }

  // ---------------------------------------------------------------------------
  // The sound server's view of the effects.

  /** The sink's mute state after the effects, every command succeeding. */
  function SinkAfter(muted: bool, es: seq<Effect>): bool
    decreases |es|
  {
    if es == [] then muted
    else
      match es[|es| - 1]
      case Audio(SetMute(on)) => on
      case _ => SinkAfter(muted, es[..|es| - 1])
  }

  lemma {:induction false} SinkAfterAppend(muted: bool, a: seq<Effect>, b: seq<Effect>)
    ensures SinkAfter(muted, a + b) == SinkAfter(SinkAfter(muted, a), b)
    decreases |b|
  {
    if b != [] {
      assert (a + b)[..|a + b| - 1] == a + b[..|b| - 1];
      SinkAfterAppend(muted, a, b[..|b| - 1]);
    } else {
      assert a + b == a;
    }
  }

  /** A Right-Alt press on a fresh hotkey whose recorder fails to start
      leaves the sink as it was and the hotkey as it was, provided the
      status query reported the sink's state and the commands succeeded. */
  lemma FailedStartLeavesSink(backend: Backend, muted: bool, status: string, exitOnEsc: bool, hasExitHook: bool)
    requires ReadMuted(backend, status) == Some(muted)
    ensures var h := NewHotkey(true, Some(backend), true, exitOnEsc, hasExitHook).value;
      var (h', es) := Press(h, RightAlt, Outcomes(Some(status), true, false, true));
      && h' == h
      && StartRecorder(false) in es
      && SinkAfter(muted, es) == muted
  {
  }

  /** A whole capture on a fresh hotkey: the press mutes the sink and starts
      the recorder, the release schedules the finalization, and the
      finalization returns the sink and the hotkey to their state before
      the press, provided the status query reported the sink's state and
      the commands succeeded. */
  lemma CaptureRestoresSink(backend: Backend, muted: bool, status: string, exitOnEsc: bool, hasExitHook: bool)
    requires ReadMuted(backend, status) == Some(muted)
    ensures var h := NewHotkey(true, Some(backend), true, exitOnEsc, hasExitHook).value;
      var (h1, es1) := Press(h, RightAlt, Outcomes(Some(status), true, true, true));
      var (h2, es2) := Release(h1, RightAlt);
      var (h3, es3) := FinalizeCapture(h2, true);
      && h1.active && SinkAfter(muted, es1)
      && es2 == [FinalizeScheduled]
      && h3 == h && SinkAfter(muted, es1 + es2 + es3) == muted
  {
    var h := NewHotkey(true, Some(backend), true, exitOnEsc, hasExitHook).value;
    var o := Outcomes(Some(status), true, true, true);
    var (h1, es1) := Press(h, RightAlt, o);
    assert es1 == [Audio(QueryMute), Audio(SetMute(true)), StartRecorder(true)];
    var (h2, es2) := Release(h1, RightAlt);
    var (h3, es3) := FinalizeCapture(h2, true);
    var (h4, r) := RestoreAudio(h2, true);
    if muted {
      assert r == [];
    } else {
      assert r == [Audio(SetMute(false))];
    }
    SinkAfterAppend(muted, es1 + es2, es3);
  }

  /** Stopping a fresh hotkey sends nothing to the sound server. */
  lemma StopFreshIsQuiet(enableAudioMute: bool, backend: Option<Backend>, sinkOk: bool, exitOnEsc: bool, hasExitHook: bool, ok: bool)
    ensures var r := NewHotkey(enableAudioMute, backend, sinkOk, exitOnEsc, hasExitHook);
      r.Some? ==> Stop(r.value, ok) == (r.value, [])
  {
  }

  /** A press that comes after a release but before that capture's
      finalization has run finds the strategy still active, so it sends no
      command; the pending finalization then restores audio while the key
      is held and the hotkey is active again. */
  lemma FinalizeWhileHeld(backend: Backend, status: string, exitOnEsc: bool, hasExitHook: bool)
    requires ReadMuted(backend, status) == Some(false)
    ensures var h := NewHotkey(true, Some(backend), true, exitOnEsc, hasExitHook).value;
      var o := Outcomes(Some(status), true, true, true);
      var (h1, es1) := Press(h, RightAlt, o);
      var (h2, es2) := Release(h1, RightAlt);
      var (h3, es3) := Press(h2, RightAlt, o);
      var (h4, es4) := FinalizeCapture(h3, true);
      && es3 == [StartRecorder(true)]
      && h4.active && AudioReleased(h4)
      && es4 == [StopRecorder, Audio(SetMute(false))]
  {
  }

  // ---------------------------------------------------------------------------
  // Sessions of keyboard events.

  datatype Event =
    | StartListening
    | StopListening(restoreOk: bool)
    | KeyDown(key: Key, outcomes: Outcomes)
    | KeyUp(key: Key)
    | Finalized(restoreOk: bool)

  function Handle(h: Hotkey, e: Event): (Hotkey, seq<Effect>) {
    match e
    case StartListening => Start(h)
    case StopListening(ok) => Stop(h, ok)
    case KeyDown(key, o) => Press(h, key, o)
    case KeyUp(key) => Release(h, key)
    case Finalized(ok) => FinalizeCapture(h, ok)
  }

  function Replay(h: Hotkey, events: seq<Event>): (Hotkey, seq<Effect>)
    decreases |events|
  {
    if events == [] then (h, [])
    else
      var (h1, es1) := Replay(h, events[..|events| - 1]);
      var (h2, es2) := Handle(h1, events[|events| - 1]);
      (h2, es1 + es2)
  }

  function Occurrences(es: seq<Effect>, e: Effect): nat
    decreases |es|
  {
    if es == [] then 0
    else Occurrences(es[..|es| - 1], e) + (if es[|es| - 1] == e then 1 else 0)
  }

  lemma {:induction false} OccurrencesAppend(a: seq<Effect>, b: seq<Effect>, e: Effect)
    ensures Occurrences(a + b, e) == Occurrences(a, e) + Occurrences(b, e)
    decreases |b|
  {
    if b == [] {
      assert a + b == a;
    } else {
      assert (a + b)[..|a + b| - 1] == a + b[..|b| - 1];
      OccurrencesAppend(a, b[..|b| - 1], e);
    }
  }

  lemma {:induction false} OccurrencesAbsent(es: seq<Effect>, e: Effect)
    requires e !in es
    ensures Occurrences(es, e) == 0
    decreases |es|
  {
    if es != [] {
      OccurrencesAbsent(es[..|es| - 1], e);
    }
  }

  function Flag(b: bool): nat {
    if b then 1 else 0
  }

  /** One event keeps the balance between captures started and captures
      finalized. */
  lemma HandleBalance(h: Hotkey, e: Event)
    ensures var (h', es) := Handle(h, e);
      Flag(h.active) + Occurrences(es, StartRecorder(true)) == Occurrences(es, FinalizeScheduled) + Flag(h'.active)
  {
    var (h', es) := Handle(h, e);
    match e
    case StartListening =>
      OccurrencesAbsent(es, StartRecorder(true));
      OccurrencesAbsent(es, FinalizeScheduled);
    case StopListening(ok) =>
      OccurrencesAbsent(es, StartRecorder(true));
      OccurrencesAbsent(es, FinalizeScheduled);
    case Finalized(ok) =>
      OccurrencesAbsent(es, StartRecorder(true));
      OccurrencesAbsent(es, FinalizeScheduled);
    case KeyUp(key) =>
      if key == RightAlt && h.active {
        assert es == [FinalizeScheduled];
        assert es[..0] == [];
      } else {
        assert es == [];
      }
    case KeyDown(key, o) =>
      if key == RightAlt && !h.active {
        var (h1, muted) := MuteAudio(h.(active := true), o);
        OccurrencesAbsent(muted, StartRecorder(true));
        OccurrencesAbsent(muted, FinalizeScheduled);
        var one := [StartRecorder(o.startOk)];
        assert one[..0] == [];
        OccurrencesAppend(muted, one, StartRecorder(true));
        OccurrencesAppend(muted, one, FinalizeScheduled);
        if !o.startOk {
          var (h2, restored) := RestoreAudio(h1.(active := false), o.restoreOk);
          OccurrencesAbsent(restored, StartRecorder(true));
          OccurrencesAbsent(restored, FinalizeScheduled);
          OccurrencesAppend(muted + one, restored, StartRecorder(true));
          OccurrencesAppend(muted + one, restored, FinalizeScheduled);
        }
      } else {
        OccurrencesAbsent(es, StartRecorder(true));
        OccurrencesAbsent(es, FinalizeScheduled);
      }
  }

  /** Over any run of events, the successful start requests balance the
      scheduled finalizations, except for a press still held. This is a
      count: it does not say which recorder session a finalization stops
      (see `FinalizeWhileHeld`). */
  lemma {:induction false} ReplayBalance(h: Hotkey, events: seq<Event>)
    ensures var (h', es) := Replay(h, events);
      Flag(h.active) + Occurrences(es, StartRecorder(true)) == Occurrences(es, FinalizeScheduled) + Flag(h'.active)
    decreases |events|
  {
    if events != [] {
      var (h1, es1) := Replay(h, events[..|events| - 1]);
      ReplayBalance(h, events[..|events| - 1]);
      var (h2, es2) := Handle(h1, events[|events| - 1]);
      HandleBalance(h1, events[|events| - 1]);
      OccurrencesAppend(es1, es2, StartRecorder(true));
      OccurrencesAppend(es1, es2, FinalizeScheduled);
    }
  }

  /** Starting the listener twice creates one listener. */
  lemma StartIdempotent(h: Hotkey)
    ensures Start(Start(h).0) == (Start(h).0, [])
  {
  }
}
