/**
 * FHoloPlayToolbarCommand: the editor toolbar's commands, the actions
 * RegisterCommands binds to them (execute, can-execute, is-checked and
 * is-visible), the toggles and setters that write the settings, and the
 * guards over the runtime's play state. The runtime (IsPlaying,
 * StartPlayer, StopPlayer), the game viewport and the settings viewer are
 * inputs or recorded calls.
 */
module EditorCommands {
  import opened Wrappers
  import opened HoloPlaySettings

  /** The commands RegisterCommands declares, in its order. */
  datatype ToolbarCommand =
    | RepeatLastPlay | PlayInHoloPlayWindow | CloseHoloPlayWindow | OpenHoloPlaySettings
    | PlayInMainViewport | PlayInQuiltMode | PlayIn2DMode | LockInMainViewport
    | PlacementInHoloPlayAuto | PlacementInHoloPlayCustomWindow | PlacementInHoloPlayDebug
    | CustomAspect

  /** EUserInterfaceActionType of each command. */
  datatype ActionType = Button | Check | ToggleButton | RadioButton

  /** What the toolbar reads outside the settings: whether the player runs, GEngine->GameViewport, the Settings module. */
  datatype Engine = Engine(playing: bool, hasGameViewport: bool, hasSettingsModule: bool)

  /** The calls the commands make into the runtime and the settings module, in order. */
  datatype EngineCall = StartPlayer(mode: PlayModeType) | StopPlayer | ShowSettingsViewer

  function TypeOf(c: ToolbarCommand): ActionType
  {
    match c
    case RepeatLastPlay => Button
    case PlayInHoloPlayWindow => Check
    case CloseHoloPlayWindow => Button
    case OpenHoloPlaySettings => Button
    case PlayInMainViewport => Check
    case PlayInQuiltMode => ToggleButton
    case PlayIn2DMode => ToggleButton
    case LockInMainViewport => ToggleButton
    case PlacementInHoloPlayAuto => RadioButton
    case PlacementInHoloPlayCustomWindow => RadioButton
    case PlacementInHoloPlayDebug => RadioButton
    case CustomAspect => ToggleButton
  }

  // ---------------------------------------------------------------------------
  // Predicates and guards

  predicate IsPlaying(e: Engine) { e.playing }

  predicate IsNotPlaying(e: Engine) { !e.playing }

  predicate PlayInModeIsChecked(v: SettingsValue, mode: PlayModeType)
  {
    mode == v.lastPlayMode
  }

  predicate IsPlacementInHoloPlay(v: SettingsValue, placement: Byte)
  {
    v.placementMode == placement
  }

  predicate CanExecutePlayInMainViewport(v: SettingsValue, e: Engine)
  {
    IsNotPlaying(e) && e.hasGameViewport && !v.lockInMainViewport
  }

  predicate CanExecutePlayInHoloPlayWindow(v: SettingsValue, e: Engine)
  {
    IsNotPlaying(e) && !v.lockInMainViewport
  }

  predicate CanExecuteCloseInHoloPlayWindow(v: SettingsValue, e: Engine)
  {
    IsPlaying(e) && !v.lockInMainViewport
  }

  /** The lock in the main viewport disables opening, playing in and closing the HoloPlay window alike. */
  lemma LockDisablesPlayCommands(v: SettingsValue, e: Engine)
    requires v.lockInMainViewport
    ensures !CanExecutePlayInMainViewport(v, e)
    ensures !CanExecutePlayInHoloPlayWindow(v, e)
    ensures !CanExecuteCloseInHoloPlayWindow(v, e)
  {
  }

  /** Opening and closing the HoloPlay window are never enabled together; playing in the main viewport needs the window's guard as well. */
  lemma OpenAndCloseExclusive(v: SettingsValue, e: Engine)
    ensures !(CanExecutePlayInHoloPlayWindow(v, e) && CanExecuteCloseInHoloPlayWindow(v, e))
    ensures CanExecutePlayInMainViewport(v, e) ==> CanExecutePlayInHoloPlayWindow(v, e)
    ensures CanExecutePlayInHoloPlayWindow(v, e) || CanExecuteCloseInHoloPlayWindow(v, e) <==> !v.lockInMainViewport
  {
  }

  /** The play mode a play command starts. */
  function CommandMode(c: ToolbarCommand): Option<PlayModeType>
  {
    match c
    case PlayInHoloPlayWindow => Some(InSeparateWindow)
    case PlayInMainViewport => Some(InMainViewport)
    case _ => None
  }

  /** GetLastPlaySessionCommand: the play command that starts the last executed play mode. */
  function GetLastPlaySessionCommand(v: SettingsValue): (c: ToolbarCommand)
    ensures CommandMode(c) == Some(v.lastPlayMode)
  {
    match v.lastPlayMode
    case InMainViewport => PlayInMainViewport
    case InSeparateWindow => PlayInHoloPlayWindow
  }

  /** Only the two play commands start a play mode, and each starts its own. */
  lemma CommandModeInverse(c: ToolbarCommand, mode: PlayModeType)
    ensures CommandMode(c) == Some(mode) <==> c == GetLastPlaySessionCommand(LastPlayed(mode))
  {
  }

  /** The default settings with a given last play mode. */
  function LastPlayed(mode: PlayModeType): SettingsValue
  {
    SettingsValue(PlacementAutomatic, 0, IntPoint(2560, 1600), mode, false, false, false, false, Screenshot2DDefaults(), 0)
  }

  /** With the default settings the last-session command opens the HoloPlay window. */
  lemma DefaultRepeatsWindow(s: Settings)
    requires s.lastPlayMode == InSeparateWindow
    ensures GetLastPlaySessionCommand(s.Value()) == PlayInHoloPlayWindow
  {
  }

  // ---------------------------------------------------------------------------
  // RegisterCommands: the bound delegates

  /** The FCanExecuteAction bound to each command; an unbound one allows execution. */
  predicate CanExecute(c: ToolbarCommand, v: SettingsValue, e: Engine)
  {
    match c
    case PlayInHoloPlayWindow => CanExecutePlayInHoloPlayWindow(v, e)
    case CloseHoloPlayWindow => CanExecuteCloseInHoloPlayWindow(v, e)
    case PlayInMainViewport => CanExecutePlayInMainViewport(v, e)
    case LockInMainViewport => IsNotPlaying(e)
    case PlacementInHoloPlayAuto => IsNotPlaying(e)
    case PlacementInHoloPlayCustomWindow => IsNotPlaying(e)
    case PlacementInHoloPlayDebug => IsNotPlaying(e)
    case _ => true
  }

  /** The FIsActionChecked bound to each command, None where none is bound. */
  function CheckState(c: ToolbarCommand, v: SettingsValue): Option<bool>
  {
    match c
    case PlayInHoloPlayWindow => Some(PlayInModeIsChecked(v, InSeparateWindow))
    case PlayInMainViewport => Some(PlayInModeIsChecked(v, InMainViewport))
    case PlayInQuiltMode => Some(v.quiltMode)
    case PlayIn2DMode => Some(v.render2D)
    case LockInMainViewport => Some(v.lockInMainViewport)
    case PlacementInHoloPlayAuto => Some(IsPlacementInHoloPlay(v, PlacementAutomatic))
    case PlacementInHoloPlayCustomWindow => Some(IsPlacementInHoloPlay(v, PlacementCustomWindow))
    case PlacementInHoloPlayDebug => Some(IsPlacementInHoloPlay(v, PlacementAlwaysDebugWindow))
    case CustomAspect => Some(v.useCustomAspect)
    case _ => None
  }

  /** The FIsActionButtonVisible bound to each command; an unbound one shows it. */
  predicate IsVisible(c: ToolbarCommand, e: Engine)
  {
    match c
    case PlayInHoloPlayWindow => IsNotPlaying(e)
    case CloseHoloPlayWindow => IsPlaying(e)
    case PlayInMainViewport => IsNotPlaying(e)
    case _ => true
  }

  /** Exactly the commands that are not plain buttons have a checked state. */
  lemma CheckStateMatchesType(c: ToolbarCommand, v: SettingsValue)
    ensures CheckState(c, v).Some? <==> TypeOf(c) != Button
  {
  }

  /** Exactly one of the two play commands shows as checked, the one of the last play mode. */
  lemma OnePlayModeChecked(v: SettingsValue)
    ensures CheckState(PlayInHoloPlayWindow, v) == Some(true) <==> CheckState(PlayInMainViewport, v) == Some(false)
    ensures CheckState(GetLastPlaySessionCommand(v), v) == Some(true)
  {
  }

  const PlacementCommands: set<ToolbarCommand> := {PlacementInHoloPlayAuto, PlacementInHoloPlayCustomWindow, PlacementInHoloPlayDebug}

  /** At most one placement radio button is checked, and one is whenever the placement is a known one. */
  lemma OnePlacementChecked(v: SettingsValue)
    ensures forall c, d :: (c in PlacementCommands && d in PlacementCommands &&
      CheckState(c, v) == Some(true) && CheckState(d, v) == Some(true)) ==> c == d
    ensures v.placementMode <= 2 ==> exists c :: c in PlacementCommands && CheckState(c, v) == Some(true)
  {
    if v.placementMode == PlacementAutomatic {
      assert CheckState(PlacementInHoloPlayAuto, v) == Some(true);
    } else if v.placementMode == PlacementCustomWindow {
      assert CheckState(PlacementInHoloPlayCustomWindow, v) == Some(true);
    } else if v.placementMode == PlacementAlwaysDebugWindow {
      assert CheckState(PlacementInHoloPlayDebug, v) == Some(true);
    }
  }

  /** The window play and close buttons are shown on complementary play states, each only when it could be enabled. */
  lemma VisibleWhenEnabled(c: ToolbarCommand, v: SettingsValue, e: Engine)
    ensures CanExecute(c, v, e) && c in {PlayInHoloPlayWindow, CloseHoloPlayWindow, PlayInMainViewport} ==> IsVisible(c, e)
    ensures IsVisible(PlayInHoloPlayWindow, e) != IsVisible(CloseHoloPlayWindow, e)
  {
  }

  /**
   * RepeatLastPlay_CanExecute (bound nowhere): the guard of the last
   * session's command and no lock. The lock test adds nothing, since both
   * play guards already include it.
   */
  function RepeatLastPlayCanExecute(v: SettingsValue, e: Engine): (b: bool)
    ensures b <==> CanExecute(GetLastPlaySessionCommand(v), v, e)
    ensures b ==> IsNotPlaying(e)
  {
    CanExecute(GetLastPlaySessionCommand(v), v, e) && !v.lockInMainViewport
  }

  // ---------------------------------------------------------------------------
  // The settings flags the toggles flip

  datatype Flag = QuiltModeFlag | Render2DFlag | LockFlag | CustomAspectFlag

  function FlagOf(v: SettingsValue, f: Flag): bool
  {
    match f
    case QuiltModeFlag => v.quiltMode
    case Render2DFlag => v.render2D
    case LockFlag => v.lockInMainViewport
    case CustomAspectFlag => v.useCustomAspect
  }

  /** The settings apart from the four flags and the save count. */
  function Unflagged(v: SettingsValue): SettingsValue
  {
    v.(quiltMode := false, render2D := false, lockInMainViewport := false, useCustomAspect := false, saveCount := 0)
  }

  /** The settings after flipping one flag and saving. */
  function Toggled(v: SettingsValue, f: Flag): (w: SettingsValue)
    ensures FlagOf(w, f) == !FlagOf(v, f)
    ensures forall g :: g != f ==> FlagOf(w, g) == FlagOf(v, g)
    ensures Unflagged(w) == Unflagged(v) && w.saveCount == v.saveCount + 1
  {
    var v' := v.(saveCount := v.saveCount + 1);
    match f
    case QuiltModeFlag => v'.(quiltMode := !v.quiltMode)
    case Render2DFlag => v'.(render2D := !v.render2D)
    case LockFlag => v'.(lockInMainViewport := !v.lockInMainViewport)
    case CustomAspectFlag => v'.(useCustomAspect := !v.useCustomAspect)
  }

  /** A value is determined by its flags, the rest and its save count. */
  lemma {:induction false} FlagsDetermine(v: SettingsValue, w: SettingsValue)
    requires forall f :: FlagOf(v, f) == FlagOf(w, f)
    requires Unflagged(v) == Unflagged(w) && v.saveCount == w.saveCount
    ensures v == w
  {
    assert FlagOf(v, QuiltModeFlag) == FlagOf(w, QuiltModeFlag);
    assert FlagOf(v, Render2DFlag) == FlagOf(w, Render2DFlag);
    assert FlagOf(v, LockFlag) == FlagOf(w, LockFlag);
    assert FlagOf(v, CustomAspectFlag) == FlagOf(w, CustomAspectFlag);
  }

  /** Toggling the same flag twice restores every setting and saves twice. */
  lemma ToggleTwice(v: SettingsValue, f: Flag)
    ensures Toggled(Toggled(v, f), f) == v.(saveCount := v.saveCount + 2)
  {
    var w := Toggled(Toggled(v, f), f);
    var u := v.(saveCount := v.saveCount + 2);
    forall g ensures FlagOf(w, g) == FlagOf(u, g) {
    }
    FlagsDetermine(w, u);
  }

  /** Toggles of different flags commute. */
  lemma TogglesCommute(v: SettingsValue, f: Flag, g: Flag)
    ensures Toggled(Toggled(v, f), g) == Toggled(Toggled(v, g), f)
  {
    if f != g {
      var a1 := Toggled(v, f);
      var b1 := Toggled(v, g);
      var a := Toggled(a1, g);
      var b := Toggled(b1, f);
      forall h ensures FlagOf(a, h) == FlagOf(b, h) {
        if h == f {
          assert FlagOf(a, h) == FlagOf(a1, h) == !FlagOf(v, h);
          assert FlagOf(b, h) == !FlagOf(b1, h) == !FlagOf(v, h);
        } else if h == g {
          assert FlagOf(a, h) == !FlagOf(a1, h) == !FlagOf(v, h);
          assert FlagOf(b, h) == FlagOf(b1, h) == !FlagOf(v, h);
        } else {
          assert FlagOf(a, h) == FlagOf(a1, h) == FlagOf(v, h);
          assert FlagOf(b, h) == FlagOf(b1, h) == FlagOf(v, h);
        }
      }
      FlagsDetermine(a, b);
    }
  }

  /** The settings after OnPlacementInHoloPlay(p). */
  function Placed(v: SettingsValue, placement: Byte): (w: SettingsValue)
    ensures forall q :: IsPlacementInHoloPlay(w, q) <==> q == placement
    ensures Unplaced(w) == Unplaced(v) && w.saveCount == v.saveCount + 1
  {
    v.(placementMode := placement, saveCount := v.saveCount + 1)
  }

  function Unplaced(v: SettingsValue): SettingsValue
  {
    v.(placementMode := 0, saveCount := 0)
  }

  /** The settings after SetLastExecutedPlayMode(mode). */
  function Recorded(v: SettingsValue, mode: PlayModeType): (w: SettingsValue)
    ensures forall m :: PlayInModeIsChecked(w, m) <==> m == mode
    ensures w.(lastPlayMode := v.lastPlayMode, saveCount := v.saveCount) == v && w.saveCount == v.saveCount + 1
  {
    v.(lastPlayMode := mode, saveCount := v.saveCount + 1)
  }

  // ---------------------------------------------------------------------------
  // What executing a command does

  /** How deep a command's execution nests: the repeat command executes a play command. */
  function Rank(c: ToolbarCommand): nat
  {
    if c == RepeatLastPlay then 1 else 0
  }

  /**
   * The new settings and the engine calls of a command's execute action,
   * run after its guard held.
   */
  function Executed(c: ToolbarCommand, v: SettingsValue, e: Engine): (SettingsValue, seq<EngineCall>)
    decreases Rank(c)
  {
    match c
    case RepeatLastPlay =>
      if IsPlaying(e) then (v, [StopPlayer])
      else
        var last := GetLastPlaySessionCommand(v);
        if CanExecute(last, v, e) then Executed(last, v, e) else (v, [])
    case PlayInHoloPlayWindow => (Recorded(v, InSeparateWindow), [StartPlayer(InSeparateWindow)])
    case CloseHoloPlayWindow => (v, [StopPlayer])
    case OpenHoloPlaySettings => (v, if e.hasSettingsModule then [ShowSettingsViewer] else [])
    case PlayInMainViewport => (Recorded(v, InMainViewport), [StartPlayer(InMainViewport)])
    case PlayInQuiltMode => (Toggled(v, QuiltModeFlag), [])
    case PlayIn2DMode => (Toggled(v, Render2DFlag), [])
    case LockInMainViewport => (Toggled(v, LockFlag), [])
    case PlacementInHoloPlayAuto => (Placed(v, PlacementAutomatic), [])
    case PlacementInHoloPlayCustomWindow => (Placed(v, PlacementCustomWindow), [])
    case PlacementInHoloPlayDebug => (Placed(v, PlacementAlwaysDebugWindow), [])
    case CustomAspect => (Toggled(v, CustomAspectFlag), [])
  }

  /**
   * A play command records its mode before starting the player, and starts
   * it in exactly the mode it recorded, which is then the only checked one.
   */
  lemma PlayRecordsItsMode(c: ToolbarCommand, v: SettingsValue, e: Engine)
    requires CommandMode(c).Some?
    ensures var (w, calls) := Executed(c, v, e);
      calls == [StartPlayer(w.lastPlayMode)] && w.lastPlayMode == CommandMode(c).value &&
      GetLastPlaySessionCommand(w) == c && CheckState(c, w) == Some(true)
  {
  }

  /** While playing, the repeat command only stops the player. */
  lemma RepeatStopsWhilePlaying(v: SettingsValue, e: Engine)
    requires IsPlaying(e)
    ensures Executed(RepeatLastPlay, v, e) == (v, [StopPlayer])
  {
  }

  /**
   * Otherwise it replays the last play mode when that mode's guard allows,
   * recording the same mode again; when the guard refuses nothing happens.
   */
  lemma RepeatReplaysLastMode(v: SettingsValue, e: Engine)
    requires IsNotPlaying(e)
    ensures var (w, calls) := Executed(RepeatLastPlay, v, e);
      if !v.lockInMainViewport && (v.lastPlayMode == InSeparateWindow || e.hasGameViewport)
      then calls == [StartPlayer(v.lastPlayMode)] && w == v.(saveCount := v.saveCount + 1)
      else calls == [] && w == v
  {
    var last := GetLastPlaySessionCommand(v);
    if CanExecute(last, v, e) {
      PlayRecordsItsMode(last, v, e);
    }
  }

  /** No command both starts and stops the player, and only the play commands start it. */
  lemma StartOnlyFromPlay(c: ToolbarCommand, v: SettingsValue, e: Engine)
    ensures var calls := Executed(c, v, e).1;
      |calls| <= 1 &&
      (calls != [] && calls[0].StartPlayer? ==> CommandMode(c).Some? || c == RepeatLastPlay)
  {
  }

  // ---------------------------------------------------------------------------
  // The actions, on the settings object

  /** SetLastExecutedPlayMode: the mode is recorded and saved; then only that mode shows as checked. */
  method SetLastExecutedPlayMode(s: Settings, mode: PlayModeType)
    modifies s`lastPlayMode, s`saveCount
    ensures s.Value() == Recorded(old(s.Value()), mode)
    ensures forall m :: PlayInModeIsChecked(s.Value(), m) <==> m == mode
  {
    s.lastPlayMode := mode;
    s.Save();
  }

  /** PlayInHoloPlayWindow_Clicked. */
  method PlayInHoloPlayWindowClicked(s: Settings) returns (calls: seq<EngineCall>)
    modifies s`lastPlayMode, s`saveCount
    ensures s.Value() == Recorded(old(s.Value()), InSeparateWindow)
    ensures calls == [StartPlayer(s.lastPlayMode)]
  {
    SetLastExecutedPlayMode(s, InSeparateWindow);
    calls := [StartPlayer(InSeparateWindow)];
  }

  /** PlayInMainViewport_Clicked. */
  method PlayInMainViewportClicked(s: Settings) returns (calls: seq<EngineCall>)
    modifies s`lastPlayMode, s`saveCount
    ensures s.Value() == Recorded(old(s.Value()), InMainViewport)
    ensures calls == [StartPlayer(s.lastPlayMode)]
  {
    SetLastExecutedPlayMode(s, InMainViewport);
    calls := [StartPlayer(InMainViewport)];
  }

  /** OnTogglePlayInQuiltMode: QuiltMode ^= 1 flips the flag. */
  method OnTogglePlayInQuiltMode(s: Settings)
    modifies s`quiltMode, s`saveCount
    ensures s.Value() == Toggled(old(s.Value()), QuiltModeFlag)
  {
    s.quiltMode := !s.quiltMode;
    s.Save();
  }

  /** OnTogglePlayIn2DMode: bRender2D ^= 1. */
  method OnTogglePlayIn2DMode(s: Settings)
    modifies s`render2D, s`saveCount
    ensures s.Value() == Toggled(old(s.Value()), Render2DFlag)
  {
    s.render2D := !s.render2D;
    s.Save();
  }

  /** OnToggleLockInMainViewport: bLockInMainViewport ^= true. */
  method OnToggleLockInMainViewport(s: Settings)
    modifies s`lockInMainViewport, s`saveCount
    ensures s.Value() == Toggled(old(s.Value()), LockFlag)
  {
    s.lockInMainViewport := !s.lockInMainViewport;
    s.Save();
  }

  /** OnToggleCustomAspect. */
  method OnToggleCustomAspect(s: Settings)
    modifies s`useCustomAspect, s`saveCount
    ensures s.Value() == Toggled(old(s.Value()), CustomAspectFlag)
  {
    s.useCustomAspect := !s.useCustomAspect;
    s.Save();
  }

  /** OnPlacementInHoloPlay: then exactly that placement shows as checked. */
  method OnPlacementInHoloPlay(s: Settings, placement: Byte)
    modifies s`placementMode, s`saveCount
    ensures s.Value() == Placed(old(s.Value()), placement)
    ensures forall q :: IsPlacementInHoloPlay(s.Value(), q) <==> q == placement
  {
    s.placementMode := placement;
    s.Save();
  }

  function GetCurrentHoloPlayDisplayIndex(v: SettingsValue): int
  {
    v.screenIndex
  }

  /** SetCurrentHoloPlayDisplayIndex: GetCurrentHoloPlayDisplayIndex then returns the index; the settings are saved. */
  method SetCurrentHoloPlayDisplayIndex(s: Settings, index: Int32)
    modifies s`screenIndex, s`saveCount
    ensures GetCurrentHoloPlayDisplayIndex(s.Value()) == index
    ensures s.Value() == old(s.Value()).(screenIndex := index, saveCount := old(s.saveCount) + 1)
  {
    s.screenIndex := index;
    s.Save();
  }

  /**
   * RepeatLastPlay_Clicked: while playing the player is stopped; otherwise
   * the last session's command is executed through the command list, which
   * runs it only when its guard holds.
   */
  method RepeatLastPlayClicked(s: Settings, e: Engine) returns (calls: seq<EngineCall>)
    modifies s`lastPlayMode, s`saveCount, s`quiltMode, s`render2D, s`lockInMainViewport
    modifies s`placementMode, s`useCustomAspect
    decreases 1, 0
    ensures (s.Value(), calls) == Executed(RepeatLastPlay, old(s.Value()), e)
  {
    if !IsPlaying(e) {
      var last := GetLastPlaySessionCommand(s.Value());
      var executed;
      executed, calls := ExecuteAction(s, last, e);
    } else {
      calls := [StopPlayer];
    }
  }

  /**
   * FUICommandList::ExecuteAction on the list RegisterCommands builds: the
   * command's action runs exactly when its guard holds, and otherwise
   * nothing changes.
   */
  method ExecuteAction(s: Settings, c: ToolbarCommand, e: Engine) returns (executed: bool, calls: seq<EngineCall>)
    modifies s`lastPlayMode, s`saveCount, s`quiltMode, s`render2D, s`lockInMainViewport
    modifies s`placementMode, s`useCustomAspect
    decreases Rank(c), 1
    ensures executed <==> CanExecute(c, old(s.Value()), e)
    ensures executed ==> (s.Value(), calls) == Executed(c, old(s.Value()), e)
    ensures !executed ==> s.Value() == old(s.Value()) && calls == []
  {
    executed := CanExecute(c, s.Value(), e);
    calls := [];
    if !executed {
      return;
    }
    match c
    case RepeatLastPlay =>
      calls := RepeatLastPlayClicked(s, e);
    case PlayInHoloPlayWindow =>
      calls := PlayInHoloPlayWindowClicked(s);
    case CloseHoloPlayWindow =>
      calls := [StopPlayer];
    case OpenHoloPlaySettings =>
      if e.hasSettingsModule {
        calls := [ShowSettingsViewer];
      }
    case PlayInMainViewport =>
      calls := PlayInMainViewportClicked(s);
    case PlayInQuiltMode =>
      OnTogglePlayInQuiltMode(s);
    case PlayIn2DMode =>
      OnTogglePlayIn2DMode(s);
    case LockInMainViewport =>
      OnToggleLockInMainViewport(s);
    case PlacementInHoloPlayAuto =>
      OnPlacementInHoloPlay(s, PlacementAutomatic);
    case PlacementInHoloPlayCustomWindow =>
      OnPlacementInHoloPlay(s, PlacementCustomWindow);
    case PlacementInHoloPlayDebug =>
      OnPlacementInHoloPlay(s, PlacementAlwaysDebugWindow);
    case CustomAspect =>
      OnToggleCustomAspect(s);
  }
}
