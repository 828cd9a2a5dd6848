/** Desktop-audio muting from `hotkeys.py`: the parsers of the `wpctl` and
    `pactl` mute-status output, the per-strategy mute/restore state machine
    and the `AudioMuteController` that disables itself after an error.
    Every subprocess call is reduced to its outcome: the text a status query
    printed (or `None` when the command failed) and whether a set-mute
    command succeeded. */
module Mute {
  import opened Basics
  import opened Chars

  // ---------------------------------------------------------------------------
  // Parsing the mute status.

  /** The status output after `strip().lower()`. */
  function Normalize(output: string): string {
    Lower(Strip(output))
  }

  /** `_WpctlStrategy._read_muted` on the text `wpctl get-volume` printed. */
  function ParseWpctl(output: string): (r: bool)
    ensures Contains(Normalize(output), "muted: yes") ==> r
    ensures Contains(Normalize(output), "muted: no") && !Contains(Normalize(output), "muted: yes") ==> !r
    ensures !Contains(Normalize(output), "muted:") ==> (r <==> Contains(Normalize(output), "[muted]"))
  {
    var n := Normalize(output);
    assert "muted: yes" == "muted:" + " yes" && "muted: no" == "muted:" + " no";
    ContainsPrefix(n, "muted:", " yes");
    ContainsPrefix(n, "muted:", " no");
    if Contains(n, "muted:") then Contains(n, "muted: yes")
    else Contains(n, "[muted]")
  }

  /** `_PactlStrategy._read_muted` on the text `pactl get-sink-mute`
      printed; `None` when the answer is neither yes nor no. */
  function ParsePactl(output: string): (r: Option<bool>)
    ensures var n := Normalize(output);
      && (r == Some(true) <==> exists i :: OccursAt(n, "yes", i))
      && (r == Some(false) <==> (exists i :: OccursAt(n, "no", i)) && !(exists i :: OccursAt(n, "yes", i)))
      && (r == None <==> !(exists i :: OccursAt(n, "no", i)) && !(exists i :: OccursAt(n, "yes", i)))
  {
    var n := Normalize(output);
    ContainsIffOccurs(n, "yes");
    ContainsIffOccurs(n, "no");
    if Contains(n, "yes") then Some(true)
    else if Contains(n, "no") then Some(false)
    else None
  }

  /** The `wpctl` parser in terms of where the markers occur: the result is
      true exactly when "muted: yes" occurs, or "[muted]" occurs and no
      "muted:" does. */
  lemma WpctlMeaning(output: string)
    ensures var n := Normalize(output);
      ParseWpctl(output) <==>
        (exists i :: OccursAt(n, "muted: yes", i))
        || ((exists i :: OccursAt(n, "[muted]", i)) && !(exists i :: OccursAt(n, "muted:", i)))
  {
    var n := Normalize(output);
    ContainsIffOccurs(n, "muted: yes");
    ContainsIffOccurs(n, "[muted]");
    ContainsIffOccurs(n, "muted:");
    if exists i :: OccursAt(n, "muted: yes", i) {
      var i :| OccursAt(n, "muted: yes", i);
      assert n[i..i + 6] == "muted:" by {
        assert n[i..i + 6] == n[i..i + 10][..6];
      }
      assert OccursAt(n, "muted:", i);
    }
  }

  /** Surrounding whitespace does not change either parser's answer. */
  lemma ParsersIgnorePadding(p: string, output: string, q: string)
    requires AllSpace(p) && AllSpace(q)
    ensures ParseWpctl(p + Strip(output) + q) == ParseWpctl(output)
    ensures ParsePactl(p + Strip(output) + q) == ParsePactl(output)
  {
    StripPadded(p, Strip(output), q);
    assert Normalize(p + Strip(output) + q) == Normalize(output);
  }

  // ---------------------------------------------------------------------------
  // The mute strategies.

  /** Which command-line tool a strategy drives. */
  datatype Backend = Wpctl | Pactl

  /** The state `_MuteStrategy` keeps: `_active` and `_previously_muted`. */
  datatype Strategy = Strategy(backend: Backend, active: bool, previouslyMuted: Option<bool>)

  /** The commands a strategy sends to the sound server. */
  datatype Command = QueryMute | SetMute(on: bool)

  /** The strategy after an operation, the commands it issued and whether
      it raised `AudioMuteError`. */
  datatype Step = Step(strategy: Strategy, commands: seq<Command>, failed: bool)

  function FreshStrategy(backend: Backend): Strategy {
    Strategy(backend, false, None)
  }

  /** `_detect_strategy`: `wpctl` is preferred to `pactl`; with neither on
      the search path auto-mute is disabled. */
  function DetectBackend(hasWpctl: bool, hasPactl: bool): (b: Option<Backend>)
    ensures b == None <==> !hasWpctl && !hasPactl
    ensures b == Some(Wpctl) <==> hasWpctl
    ensures b == Some(Pactl) <==> !hasWpctl && hasPactl
  {
    if hasWpctl then Some(Wpctl) else if hasPactl then Some(Pactl) else None
  }

  /** `_read_muted` of the strategy's backend. */
  function ReadMuted(backend: Backend, output: string): (r: Option<bool>)
    ensures backend == Wpctl ==> r.Some?
    ensures r == None <==> backend == Pactl && !Contains(Normalize(output), "yes") && !Contains(Normalize(output), "no")
  {
    match backend
    case Wpctl => Some(ParseWpctl(output))
    case Pactl => ParsePactl(output)
  }

  /** `mute` of either strategy. `status` is what the status query printed,
      or `None` when it failed; `setOk` is whether the set-mute command
      succeeded. */
  function StrategyMute(s: Strategy, status: Option<string>, setOk: bool): (st: Step)
    ensures s.active ==> st == Step(s, [], false)
    ensures !s.active ==> (st.failed <==> status == None || !setOk)
    ensures !s.active && !st.failed ==>
      st.strategy.active && st.strategy.previouslyMuted == ReadMuted(s.backend, status.value)
      && st.commands == [QueryMute, SetMute(true)]
    ensures st.failed ==> !st.strategy.active
    ensures st.failed && status == None ==> st.strategy == s && st.commands == [QueryMute]
    ensures st.strategy.backend == s.backend
  {
    if s.active then Step(s, [], false)
    else if status == None then Step(s, [QueryMute], true)
    else
      var s := s.(previouslyMuted := ReadMuted(s.backend, status.value));
      if !setOk then Step(s, [QueryMute, SetMute(true)], true)
      else Step(s.(active := true), [QueryMute, SetMute(true)], false)
  }

  /** `restore` of either strategy: unmutes only when the sink is known to
      have been unmuted before, and always leaves the strategy inactive
      with nothing recorded, even when the unmute command fails. */
  function StrategyRestore(s: Strategy, setOk: bool): (st: Step)
    ensures !s.active ==> st == Step(s, [], false)
    ensures s.active ==> st.strategy == s.(active := false, previouslyMuted := None)
    ensures s.active ==> (SetMute(false) in st.commands <==> s.previouslyMuted == Some(false))
    ensures st.failed <==> s.active && s.previouslyMuted == Some(false) && !setOk
    ensures forall c :: c in st.commands ==> c == SetMute(false)
  {
    if !s.active then Step(s, [], false)
    else
      var idle := s.(active := false, previouslyMuted := None);
      if s.previouslyMuted == Some(false) then Step(idle, [SetMute(false)], !setOk)
      else Step(idle, [], false)
  }

  // ---------------------------------------------------------------------------
  // The effect on the sound server.

  /** The sink's mute state after the commands that succeeded. */
  function Apply(muted: bool, commands: seq<Command>, ok: bool): bool
    decreases |commands|
  {
    if commands == [] || !ok then muted
    else
      var last := commands[|commands| - 1];
      var before := Apply(muted, commands[..|commands| - 1], ok);
      if last.SetMute? then last.on else before
  }

  /** Muting for a capture and restoring afterwards returns the sink to the
      state it was in, provided the status query reported that state and
      the commands succeeded. */
  lemma MuteRestoreRoundTrip(backend: Backend, muted: bool, status: string)
    requires ReadMuted(backend, status) == Some(muted)
    ensures var m := StrategyMute(FreshStrategy(backend), Some(status), true);
      var r := StrategyRestore(m.strategy, true);
      && !m.failed && !r.failed
      && Apply(muted, m.commands, true) == true
      && Apply(Apply(muted, m.commands, true), r.commands, true) == muted
      && r.strategy == FreshStrategy(backend)
  {
  }

  /** When `pactl` prints neither yes nor no, a capture leaves the sink
      muted afterwards, whatever its state before. */
  lemma UnknownStatusLeavesMuted(muted: bool, status: string)
    requires ParsePactl(status) == None
    ensures var m := StrategyMute(FreshStrategy(Pactl), Some(status), true);
      var r := StrategyRestore(m.strategy, true);
      Apply(Apply(muted, m.commands, true), r.commands, true) == true
  {
  }

  // ---------------------------------------------------------------------------
  // `AudioMuteController`.

  /** The controller's `_strategy`; `None` once disabled. */
  datatype Controller = Controller(strategy: Option<Strategy>)

  /** `AudioMuteController.mute`: a no-op without a strategy; an error is
      logged and disables the controller for good. */
  function ControllerMute(c: Controller, status: Option<string>, setOk: bool): (out: (Controller, seq<Command>))
    ensures c.strategy == None ==> out == (c, [])
    ensures c.strategy.Some? ==>
      var st := StrategyMute(c.strategy.value, status, setOk);
      && out.1 == st.commands && (st.failed <==> out.0.strategy == None)
      && (!st.failed ==> out.0.strategy == Some(st.strategy))
    ensures out.0.strategy.Some? ==> out.0.strategy.value.active
  {
    match c.strategy
    case None => (c, [])
    case Some(s) =>
      var st := StrategyMute(s, status, setOk);
      (if st.failed then Controller(None) else Controller(Some(st.strategy)), st.commands)
  }

  /** `AudioMuteController.restore`, disabled the same way. */
  function ControllerRestore(c: Controller, setOk: bool): (out: (Controller, seq<Command>))
    ensures c.strategy == None ==> out == (c, [])
    ensures c.strategy.Some? ==>
      var st := StrategyRestore(c.strategy.value, setOk);
      && out.1 == st.commands && (st.failed <==> out.0.strategy == None)
      && (!st.failed ==> out.0.strategy == Some(st.strategy))
    ensures out.0.strategy.Some? ==> !out.0.strategy.value.active
  {
    match c.strategy
    case None => (c, [])
    case Some(s) =>
      var st := StrategyRestore(s, setOk);
      (if st.failed then Controller(None) else Controller(Some(st.strategy)), st.commands)
  }

  /** `AudioMuteController.__init__`: a fresh strategy for the detected
      backend, or none. `sinkOk` is whether `pactl get-default-sink`
      succeeded; the `pactl` strategy runs it in its constructor and its
      failure escapes as `AudioMuteError`, which is `None` here. */
  function NewController(backend: Option<Backend>, sinkOk: bool): (r: Option<Controller>)
    ensures r == None <==> backend == Some(Pactl) && !sinkOk
    ensures r.Some? ==> (r.value.strategy.Some? <==> backend.Some?)
    ensures r.Some? && r.value.strategy.Some? ==>
      && r.value.strategy.value.backend == backend.value
      && !r.value.strategy.value.active && r.value.strategy.value.previouslyMuted == None
  {
    if backend == Some(Pactl) && !sinkOk then None
    else Some(Controller(if backend.Some? then Some(FreshStrategy(backend.value)) else None))
  }

  /** A call on the controller with the outcomes of its commands. */
  datatype Call = MuteCall(status: Option<string>, setOk: bool) | RestoreCall(setOk: bool)

  function Perform(c: Controller, calls: seq<Call>): (out: (Controller, seq<Command>))
    decreases |calls|
  {
    if calls == [] then (c, [])
    else
      var (c1, cmds1) := Perform(c, calls[..|calls| - 1]);
      var (c2, cmds2) := match calls[|calls| - 1]
        case MuteCall(status, ok) => ControllerMute(c1, status, ok)
        case RestoreCall(ok) => ControllerRestore(c1, ok);
      (c2, cmds1 + cmds2)
  }

  /** Once disabled, the controller stays disabled and sends nothing,
      whatever is asked of it afterwards. */
  lemma {:induction false} DisabledStaysDisabled(calls: seq<Call>)
    ensures Perform(Controller(None), calls) == (Controller(None), [])
    decreases |calls|
  {
    if calls != [] {
      DisabledStaysDisabled(calls[..|calls| - 1]);
      var nothing: seq<Command> := [];
      var last := match calls[|calls| - 1]
        case MuteCall(status, ok) => ControllerMute(Controller(None), status, ok)
        case RestoreCall(ok) => ControllerRestore(Controller(None), ok);
      assert last == (Controller(None), nothing);
      assert nothing + nothing == nothing;
    }
  }
}
