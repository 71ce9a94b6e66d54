/**
 * FHoloPlayViewportClient: three single-slot screenshot mailboxes (lenticular,
 * quilt and 2D), the lazily created quilt render target, the stages one Draw
 * runs for a frame, the console commands that fill the mailboxes and write
 * the settings, and the focus and input flags. Engine calls the client cannot
 * see (captures, file writes, the render thread, the player restart, the
 * capture component's tiling update) are inputs or recorded calls.
 */
module Viewport {
  import opened Wrappers
  import opened Text
  import opened Paths
  import opened Tiling
  import opened HoloPlaySettings
  import opened Console

  /** What RequestScreenshot needs from the engine: the screenshot directory and the numbering routine. */
  datatype Environment = Environment(saveDir: string, nextBitmap: string -> string)

  // ---------------------------------------------------------------------------
  // Requests

  /** FHoloPlayScreenshotRequest: the file name the next capture is saved under. */
  class ScreenshotRequest {
    var filename: string

    constructor ()
      ensures filename == []
    {
      filename := [];
    }

    /** RequestScreenshot(InFilename, bAddFilenameSuffix): only Filename changes. */
    method RequestScreenshot(name: string, addSuffix: bool, env: Environment)
      modifies this`filename
      ensures filename == ResolvedFilename(name, addSuffix, env.saveDir, env.nextBitmap)
    {
      filename := ResolvedFilename(name, addSuffix, env.saveDir, env.nextBitmap);
    }

    /** RequestScreenshot(): no name, and the numbered suffix. */
    method RequestDefault(env: Environment)
      modifies this`filename
      ensures filename == ResolvedFilename("", true, env.saveDir, env.nextBitmap)
    {
      RequestScreenshot("", true, env);
    }
  }

  /**
   * FHoloPlayLenticularScreenshotRequest: a screenshot request (the base
   * part) and whether the capture includes the Slate UI. The object is
   * value-initialised by MakeShareable(new ...()), so bShowUI starts false.
   */
  class LenticularScreenshotRequest {
    const base: ScreenshotRequest
    var showUI: bool

    constructor ()
      ensures fresh(base) && base.filename == [] && !showUI
    {
      base := new ScreenshotRequest();
      showUI := false;
    }

    /** RequestScreenshot(InFilename, bInShowUI, bAddFilenameSuffix): the flag is stored only under a non-empty name. */
    method RequestScreenshot(name: string, inShowUI: bool, addSuffix: bool, env: Environment)
      modifies base`filename, this`showUI
      ensures base.filename == ResolvedFilename(name, addSuffix, env.saveDir, env.nextBitmap)
      ensures showUI == if base.filename != [] then inShowUI else old(showUI)
    {
      base.RequestScreenshot(name, addSuffix, env);
      if base.filename != [] {
        showUI := inShowUI;
      }
    }

    /** RequestScreenshot(bInShowUI): no name, and the numbered suffix. */
    method RequestDefault(inShowUI: bool, env: Environment)
      modifies base`filename, this`showUI
      ensures base.filename == ResolvedFilename("", true, env.saveDir, env.nextBitmap)
      ensures showUI == if base.filename != [] then inShowUI else old(showUI)
    {
      RequestScreenshot("", inShowUI, true, env);
    }
  }

  /** A name requested without the numbered suffix is never empty, so its bShowUI is always stored. */
  lemma ShowUIStoredWithoutSuffix(name: string, env: Environment)
    ensures ResolvedFilename(name, false, env.saveDir, env.nextBitmap) != []
  {
    ResolvedWithoutSuffix(name, env.saveDir, env.nextBitmap);
  }

  // ---------------------------------------------------------------------------
  // What processing a request does

  /**
   * The result of processing a pending request: whether it stays pending,
   * the name a capture was saved under (if one was), and whether the
   * "request processed" delegate was broadcast.
   */
  datatype Outcome = Outcome(pending: bool, saved: Option<string>, notified: bool)

  /**
   * ProcessScreenshotQuilts on a pending request with the given name: an
   * empty name is dropped silently; any other is dropped with one
   * notification, and saved (as a png) only if the capture succeeded.
   */
  function QuiltOutcome(name: string, captureOk: bool): (o: Outcome)
    ensures !o.pending
    ensures o.notified <==> name != []
    ensures o.saved.Some? <==> name != [] && captureOk
    ensures o.saved.Some? ==> o.saved.value == SaveName(name)
  {
    if name == [] then Outcome(false, None, false)
    else Outcome(false, if captureOk then Some(SaveName(name)) else None, true)
  }

  /**
   * ProcessScreenshot2D on a pending request: as for the quilt, except that
   * a named request stays pending, with no notification, while the
   * configured 2D resolution has a component <= 0.
   */
  function Screenshot2DOutcome(name: string, resolution: IntPoint, captureOk: bool): (o: Outcome)
    ensures o.pending <==> name != [] && (resolution.x <= 0 || resolution.y <= 0)
    ensures o.notified <==> name != [] && !o.pending
    ensures o.saved.Some? <==> o.notified && captureOk
    ensures o.saved.Some? ==> o.saved.value == SaveName(name)
  {
    if name == [] then Outcome(false, None, false)
    else if resolution.x <= 0 || resolution.y <= 0 then Outcome(true, None, false)
    else Outcome(false, if captureOk then Some(SaveName(name)) else None, true)
  }

  /** The three outputs of ProcessScreenShotLenticular beyond the slot: its result, the capture route, the outcome. */
  datatype LenticularResult = LenticularResult(result: bool, viaSlate: bool, outcome: Outcome)

  /**
   * ProcessScreenShotLenticular on a pending request: the result is true
   * exactly when the name is non-empty; the Slate window capture is used
   * only when the request asks for the UI, the window is valid and Slate is
   * initialised, the viewport capture otherwise.
   */
  function LenticularOutcome(name: string, showUI: bool, windowValid: bool, slateInitialized: bool,
                             slateCaptureOk: bool, viewportCaptureOk: bool): (r: LenticularResult)
    ensures !r.outcome.pending
    ensures r.result <==> name != []
    ensures r.outcome.notified == r.result
    ensures r.viaSlate <==> r.result && showUI && windowValid && slateInitialized
    ensures r.outcome.saved.Some? <==> r.result && (if r.viaSlate then slateCaptureOk else viewportCaptureOk)
    ensures r.outcome.saved.Some? ==> r.outcome.saved.value == SaveName(name)
  {
    if name == [] then LenticularResult(false, false, Outcome(false, None, false))
    else
      var viaSlate := showUI && windowValid && slateInitialized;
      var ok := if viaSlate then slateCaptureOk else viewportCaptureOk;
      LenticularResult(true, viaSlate, Outcome(false, if ok then Some(SaveName(name)) else None, true))
  }

  /** A pending request whose name came from RequestScreenshot without the suffix is always saved or notified. */
  lemma UnsuffixedQuiltNotifies(name: string, env: Environment, captureOk: bool)
    ensures QuiltOutcome(ResolvedFilename(name, false, env.saveDir, env.nextBitmap), captureOk).notified
  {
    ResolvedWithoutSuffix(name, env.saveDir, env.nextBitmap);
  }

  /** The default 2D resolution, 1280 by 720, never holds a named request back. */
  lemma DefaultResolutionNeverHolds(name: string, captureOk: bool)
    ensures !Screenshot2DOutcome(name, Screenshot2DDefaults().resolution, captureOk).pending
  {
  }

  // ---------------------------------------------------------------------------
  // The stages of a frame

  /** The capture component's rendering configs as Draw sees them: a render target or none, and the number of views. */
  datatype RenderingConfig = RenderingConfig(hasTarget: bool, views: nat)

  /** The capture component Draw works with: its tiling, its configs, and whether a quilt texture overrides the views. */
  datatype Capture = Capture(tiling: Geometry, configs: seq<RenderingConfig>, overrideQuilt: bool)

  datatype ClearColor = Black | Blue | Green

  /**
   * The events of one Draw: canvas clears, ensuring the quilt target, the 2D
   * render, the 2D screenshot step, rendering the views, one quilt copy per
   * view (global and per-config view index), the error for a config without
   * a render target, the render-thread flush, the quilt screenshot step and
   * the lenticular pass.
   */
  datatype Stage =
    | Clear(color: ClearColor)
    | QuiltTarget(w: int, h: int)
    | Render2D
    | Screenshot2DPass
    | RenderViews
    | CopyToQuilt(global: nat, local: nat)
    | TargetMissing
    | Flush
    | QuiltShot
    | Lenticular(overrideQuilt: bool)

  /** Some config has no render target. */
  predicate Missing(cs: seq<RenderingConfig>)
  {
    exists i :: 0 <= i < |cs| && !cs[i].hasTarget
  }

  function TotalViews(cs: seq<RenderingConfig>): nat
  {
    if cs == [] then 0 else cs[0].views + TotalViews(cs[1..])
  }

  /** The copies of one config's views, the first carrying global index `first`. */
  function ViewCopies(first: nat, views: nat): (r: seq<Stage>)
    ensures |r| == views
  {
    seq(views, v requires 0 <= v < views => CopyToQuilt(first + v, v))
  }

  /**
   * The copy loop over the configs: each config's views in turn, numbered
   * on from the previous config; a config without a render target ends the
   * loop with the error.
   */
  function CopyStages(cs: seq<RenderingConfig>, first: nat): seq<Stage>
    decreases |cs|
  {
    if cs == [] then []
    else if !cs[0].hasTarget then [TargetMissing]
    else ViewCopies(first, cs[0].views) + CopyStages(cs[1..], first + cs[0].views)
  }

  /** A frame reaches the 2D screenshot step: a component with configs, not in 2D mode. */
  predicate ReachesScreenshot2D(cap: Option<Capture>, render2D: bool)
  {
    cap.Some? && cap.value.configs != [] && !render2D
  }

  /** A frame reaches the flush, the quilt screenshot and the lenticular pass. */
  predicate ReachesQuiltShot(cap: Option<Capture>, render2D: bool)
  {
    ReachesScreenshot2D(cap, render2D) && (cap.value.overrideQuilt || !Missing(cap.value.configs))
  }

  /** The stages FHoloPlayViewportClient::Draw runs for a frame, in order. */
  function DrawStages(cap: Option<Capture>, render2D: bool): seq<Stage>
  {
    [Clear(Black)] +
    match cap
    case None => [Clear(Blue)]
    case Some(c) =>
      [QuiltTarget(c.tiling.quiltW, c.tiling.quiltH)] +
      if c.configs == [] then [Clear(Green)]
      else if render2D then [Render2D]
      else [Screenshot2DPass] + ViewPass(c) + FinalPasses(c)
  }

  /** Rendering the views and copying them into the quilt, unless a quilt texture overrides them. */
  function ViewPass(c: Capture): seq<Stage>
  {
    if c.overrideQuilt then [] else [RenderViews] + CopyStages(c.configs, 0)
  }

  /** The flush, the quilt screenshot step and the lenticular pass, unless the copy loop aborted. */
  function FinalPasses(c: Capture): seq<Stage>
  {
    if c.overrideQuilt || !Missing(c.configs) then [Flush, QuiltShot, Lenticular(c.overrideQuilt)] else []
  }

  /** The global view indices the copies of a trace carry, in order. */
  function GlobalIndices(t: seq<Stage>): seq<nat>
  {
    if t == [] then []
    else (if t[0].CopyToQuilt? then [t[0].global] else []) + GlobalIndices(t[1..])
  }

  /** first, first + 1, ..., first + n - 1. */
  function Range(first: nat, n: nat): (r: seq<nat>)
    ensures |r| == n
  {
    seq(n, k requires 0 <= k < n => first + k)
  }

  lemma {:induction false} GlobalIndicesAppend(a: seq<Stage>, b: seq<Stage>)
    ensures GlobalIndices(a + b) == GlobalIndices(a) + GlobalIndices(b)
    decreases |a|
  {
    if a == [] {
      assert a + b == b;
    } else {
      var ab := a + b;
      var h := if a[0].CopyToQuilt? then [a[0].global] else [];
      assert ab[0] == a[0];
      assert ab[1..] == a[1..] + b;
      assert GlobalIndices(ab) == h + GlobalIndices(a[1..] + b);
      assert GlobalIndices(a) == h + GlobalIndices(a[1..]);
      GlobalIndicesAppend(a[1..], b);
      assert h + (GlobalIndices(a[1..]) + GlobalIndices(b)) == (h + GlobalIndices(a[1..])) + GlobalIndices(b);
    }
  }

  lemma {:induction false} ViewCopiesIndices(first: nat, views: nat)
    ensures GlobalIndices(ViewCopies(first, views)) == Range(first, views)
    decreases views
  {
    if views > 0 {
      var last := CopyToQuilt(first + views - 1, views - 1);
      assert ViewCopies(first, views) == ViewCopies(first, views - 1) + [last];
      ViewCopiesIndices(first, views - 1);
      GlobalIndicesAppend(ViewCopies(first, views - 1), [last]);
      assert GlobalIndices([last]) == [first + views - 1];
      assert Range(first, views) == Range(first, views - 1) + [first + views - 1];
    }
  }

  /** A trace without copies carries no view indices. */
  lemma {:induction false} NoCopies(t: seq<Stage>)
    requires forall s :: s in t ==> !s.CopyToQuilt?
    ensures GlobalIndices(t) == []
    decreases |t|
  {
    if t != [] {
      assert t[0] in t;
      assert forall s :: s in t[1..] ==> s in t;
      NoCopies(t[1..]);
    }
  }

  /** Without a missing target the copies carry the global indices first .. first + N - 1, consecutively. */
  lemma {:induction false} CopyStagesIndices(cs: seq<RenderingConfig>, first: nat)
    requires !Missing(cs)
    ensures GlobalIndices(CopyStages(cs, first)) == Range(first, TotalViews(cs))
    decreases |cs|
  {
    if cs != [] {
      MissingFirstOrRest(cs);
      var v := cs[0].views;
      assert CopyStages(cs, first) == ViewCopies(first, v) + CopyStages(cs[1..], first + v);
      assert TotalViews(cs) == v + TotalViews(cs[1..]);
      CopyStagesIndices(cs[1..], first + v);
      GlobalIndicesAppend(ViewCopies(first, v), CopyStages(cs[1..], first + v));
      ViewCopiesIndices(first, v);
      RangeAppend(first, v, TotalViews(cs[1..]));
    }
  }

  lemma MissingFirstOrRest(cs: seq<RenderingConfig>)
    requires cs != []
    ensures Missing(cs) <==> !cs[0].hasTarget || Missing(cs[1..])
  {
    if Missing(cs[1..]) {
      var i :| 0 <= i < |cs[1..]| && !cs[1..][i].hasTarget;
      assert !cs[i + 1].hasTarget;
    }
    if Missing(cs) && cs[0].hasTarget {
      var i :| 0 <= i < |cs| && !cs[i].hasTarget;
      assert !cs[1..][i - 1].hasTarget;
    }
  }

  lemma RangeAppend(first: nat, a: nat, b: nat)
    ensures Range(first, a) + Range(first + a, b) == Range(first, a + b)
  {
  }

  /** The copy loop emits only copies and, last, the error; the error is there exactly when a target is missing. */
  lemma {:induction false} CopyStagesKinds(cs: seq<RenderingConfig>, first: nat)
    ensures forall s :: s in CopyStages(cs, first) ==> s.CopyToQuilt? || s == TargetMissing
    ensures TargetMissing in CopyStages(cs, first) <==> Missing(cs)
    decreases |cs|
  {
    if cs != [] {
      MissingFirstOrRest(cs);
      if cs[0].hasTarget {
        CopyStagesKinds(cs[1..], first + cs[0].views);
      }
    }
  }

  /** Without a capture component the frame is cleared black then blue, and nothing else happens. */
  lemma DrawWithoutComponent(render2D: bool)
    ensures DrawStages(None, render2D) == [Clear(Black), Clear(Blue)]
  {
  }

  /** With no rendering configs the frame stops, green, but only after the quilt target was ensured. */
  lemma DrawWithoutConfigs(c: Capture, render2D: bool)
    requires c.configs == []
    ensures DrawStages(Some(c), render2D) == [Clear(Black), QuiltTarget(c.tiling.quiltW, c.tiling.quiltH), Clear(Green)]
  {
  }

  /**
   * In 2D mode exactly one 2D render runs, and none of the 2D screenshot
   * step, view rendering, quilt copies, flush, quilt screenshot or
   * lenticular pass.
   */
  lemma Draw2D(c: Capture)
    requires c.configs != []
    ensures var t := DrawStages(Some(c), true);
      t == [Clear(Black), QuiltTarget(c.tiling.quiltW, c.tiling.quiltH), Render2D] &&
      GlobalIndices(t) == [] && Flush !in t && QuiltShot !in t && RenderViews !in t && Screenshot2DPass !in t
  {
    NoCopies(DrawStages(Some(c), true));
  }

  /** A config without a render target aborts the frame before the flush, the quilt screenshot and the lenticular pass. */
  lemma DrawMissingTarget(c: Capture)
    requires c.configs != [] && !c.overrideQuilt && Missing(c.configs)
    ensures var t := DrawStages(Some(c), false);
      TargetMissing in t && forall s :: s in t ==> s != Flush && s != QuiltShot && !s.Lenticular?
  {
    CopyStagesKinds(c.configs, 0);
    var head := [Clear(Black), QuiltTarget(c.tiling.quiltW, c.tiling.quiltH), Screenshot2DPass, RenderViews];
    assert FinalPasses(c) == [];
    assert DrawStages(Some(c), false) == head + CopyStages(c.configs, 0);
  }

  /**
   * When the frame is not aborted the views are copied with global indices
   * 0 .. N-1, consecutively across the configs in order, where N is the
   * number of views of all configs.
   */
  lemma DrawGlobalIndices(c: Capture)
    requires c.configs != [] && !c.overrideQuilt && !Missing(c.configs)
    ensures GlobalIndices(DrawStages(Some(c), false)) == Range(0, TotalViews(c.configs))
  {
    var head := [Clear(Black), QuiltTarget(c.tiling.quiltW, c.tiling.quiltH), Screenshot2DPass, RenderViews];
    var copies := CopyStages(c.configs, 0);
    var tail := [Flush, QuiltShot, Lenticular(false)];
    assert FinalPasses(c) == tail;
    assert DrawStages(Some(c), false) == head + copies + tail;
    GlobalIndicesAppend(head + copies, tail);
    GlobalIndicesAppend(head, copies);
    CopyStagesIndices(c.configs, 0);
    NoCopies(head);
    NoCopies(tail);
  }

  /** A quilt override skips rendering and copying the views, even for a config without a target. */
  lemma DrawOverrideSkipsCopies(c: Capture)
    requires c.configs != [] && c.overrideQuilt
    ensures DrawStages(Some(c), false) ==
      [Clear(Black), QuiltTarget(c.tiling.quiltW, c.tiling.quiltH), Screenshot2DPass, Flush, QuiltShot, Lenticular(true)]
  {
  }

  /** The frame up to the end of the view pass, on the path that reaches the 2D screenshot step. */
  function DrawHead(c: Capture): seq<Stage>
  {
    [Clear(Black), QuiltTarget(c.tiling.quiltW, c.tiling.quiltH), Screenshot2DPass] + ViewPass(c)
  }

  lemma {:induction false} DrawHeadKinds(c: Capture)
    ensures Flush !in DrawHead(c) && QuiltShot !in DrawHead(c)
  {
    CopyStagesKinds(c.configs, 0);
    assert DrawHead(c) == [Clear(Black), QuiltTarget(c.tiling.quiltW, c.tiling.quiltH), Screenshot2DPass] + ViewPass(c);
  }

  /**
   * Whenever the quilt screenshot step runs, it runs once, after the one
   * flush and just before the lenticular pass, which ends the frame.
   */
  lemma DrawQuiltShotOrder(cap: Option<Capture>, render2D: bool)
    requires ReachesQuiltShot(cap, render2D)
    ensures var t := DrawStages(cap, render2D);
      |t| >= 3 && t[|t| - 3..] == [Flush, QuiltShot, Lenticular(cap.value.overrideQuilt)] &&
      Flush !in t[..|t| - 3] && QuiltShot !in t[..|t| - 3]
  {
    var c := cap.value;
    DrawHeadKinds(c);
    var tail := [Flush, QuiltShot, Lenticular(c.overrideQuilt)];
    DrawShape(c);
    assert FinalPasses(c) == tail;
    SplitAt(DrawHead(c), tail);
  }

  /** On the path that reaches the 2D screenshot step, the frame is its head and its final passes. */
  lemma DrawShape(c: Capture)
    requires c.configs != []
    ensures DrawStages(Some(c), false) == DrawHead(c) + FinalPasses(c)
  {
    assert DrawStages(Some(c), false) ==
      [Clear(Black)] + ([QuiltTarget(c.tiling.quiltW, c.tiling.quiltH)] + ([Screenshot2DPass] + ViewPass(c) + FinalPasses(c)));
  }

  lemma SplitAt(a: seq<Stage>, b: seq<Stage>)
    ensures (a + b)[..|a|] == a && (a + b)[|a|..] == b
  {
  }

  /** The 2D screenshot step and the quilt screenshot step run exactly on the frames the Reaches predicates name. */
  lemma QuiltShotReached(cap: Option<Capture>, render2D: bool)
    ensures QuiltShot in DrawStages(cap, render2D) <==> ReachesQuiltShot(cap, render2D)
    ensures Screenshot2DPass in DrawStages(cap, render2D) <==> ReachesScreenshot2D(cap, render2D)
  {
    if cap.None? {
      assert DrawStages(cap, render2D) == [Clear(Black), Clear(Blue)];
    } else if cap.value.configs == [] {
      assert DrawStages(cap, render2D) == [Clear(Black), QuiltTarget(cap.value.tiling.quiltW, cap.value.tiling.quiltH), Clear(Green)];
    } else if render2D {
      assert DrawStages(cap, render2D) == [Clear(Black), QuiltTarget(cap.value.tiling.quiltW, cap.value.tiling.quiltH), Render2D];
    } else {
      var c := cap.value;
      DrawHeadKinds(c);
      DrawShape(c);
      assert DrawHead(c)[2] == Screenshot2DPass;
      if ReachesQuiltShot(cap, render2D) {
        assert FinalPasses(c)[1] == QuiltShot;
      } else {
        assert FinalPasses(c) == [];
      }
    }
  }

  lemma ViewCopiesStep(first: nat, view: nat)
    ensures ViewCopies(first, view + 1) == ViewCopies(first, view) + [CopyToQuilt(first + view, view)]
  {
  }

  /** One pass of the outer copy loop: a config with a target contributes its views, numbered on. */
  lemma CopyLoopStep(configs: seq<RenderingConfig>, i: nat, first: nat, before: seq<Stage>)
    requires i < |configs| && configs[i].hasTarget && !Missing(configs[..i])
    ensures CopyStages(configs[i..], first) ==
      ViewCopies(first, configs[i].views) + CopyStages(configs[i + 1..], first + configs[i].views)
    ensures (before + ViewCopies(first, configs[i].views)) + CopyStages(configs[i + 1..], first + configs[i].views) ==
      before + CopyStages(configs[i..], first)
    ensures !Missing(configs[..i + 1])
  {
    assert configs[i..][0] == configs[i] && configs[i..][1..] == configs[i + 1..];
    assert configs[..i + 1] == configs[..i] + [configs[i]];
    MissingAppend(configs[..i], configs[i]);
  }

  lemma MissingAppend(cs: seq<RenderingConfig>, c: RenderingConfig)
    requires !Missing(cs) && c.hasTarget
    ensures !Missing(cs + [c])
  {
    forall i | 0 <= i < |cs + [c]|
      ensures (cs + [c])[i].hasTarget
    {
      if i < |cs| {
        assert (cs + [c])[i] == cs[i];
      }
    }
  }

  // ---------------------------------------------------------------------------
  // The client

  /** What the console commands can change: the request slots, the recorded calls and the settings they write. */
  datatype CommandState = CommandState(
    lenticular: LenticularScreenshotRequest?, quilt: ScreenshotRequest?, shot2D: ScreenshotRequest?,
    restarts: seq<PlayModeType>, tilingUpdates: seq<QualityPreset>,
    clientSize: IntPoint, placement: Byte, quiltMode: bool, useCustomAspect: bool, render2D: bool,
    saveCount: nat)

  /**
   * FIntPoint(X, Y) from the two uint32 values ParseResolution produced: each
   * becomes an int32, so a value from 2^31 on wraps to a negative one.
   */
  function ClientSizePoint(size: (UInt32, UInt32)): (p: IntPoint)
    ensures -0x8000_0000 <= p.x < 0x8000_0000 && -0x8000_0000 <= p.y < 0x8000_0000
    ensures (p.x - size.0) % 0x1_0000_0000 == 0 && (p.y - size.1) % 0x1_0000_0000 == 0
    ensures size.0 < 0x8000_0000 ==> p.x == size.0
    ensures size.1 < 0x8000_0000 ==> p.y == size.1
  {
    IntPoint(Int32Of(size.0), Int32Of(size.1))
  }

  function Int32Of(x: UInt32): int
  {
    if x < 0x8000_0000 then x else x - 0x1_0000_0000
  }

  /**
   * GetGameHoloPlayCaptureComponent: the first registered component, taken
   * from the editor's list when built with the editor and that list is not
   * empty, else from the game's list; none when the chosen list is empty.
   */
  function CaptureComponent<T>(game: seq<T>, editor: seq<T>, withEditor: bool): (r: Option<T>)
    ensures withEditor && editor != [] ==> r == Some(editor[0])
    ensures !(withEditor && editor != []) ==> (r.None? <==> game == []) && (r.Some? ==> r.value == game[0])
  {
    var list := if withEditor && editor != [] then editor else game;
    if list == [] then None else Some(list[0])
  }

  /** The EMouseCursor values the client uses. */
  datatype MouseCursor = DefaultCursor | NoCursor

  /** The name of the request in a slot, or None when the slot is empty. */
  function PendingName(r: ScreenshotRequest?): Option<string>
    reads r
  {
    if r == null then None else Some(r.filename)
  }

  function PendingLenticular(r: LenticularScreenshotRequest?): Option<(string, bool)>
    reads r, if r == null then {} else {r.base}
  {
    if r == null then None else Some((r.base.filename, r.showUI))
  }

  class ViewportClient {
    /** The three request slots; null is an empty slot. */
    var lenticular: LenticularScreenshotRequest?
    var quilt: ScreenshotRequest?
    var shot2D: ScreenshotRequest?
    var ignoreInput: bool
    var cursor: MouseCursor
    /** QuiltRT: None while it is null, else its SizeX and SizeY. */
    var quiltTarget: Option<(int, int)>
    /** Whether the client is attached to a platform viewport (Viewport != nullptr). */
    var viewport: bool
    /** How many times each "request processed" delegate has been broadcast. */
    var lenticularNotices: nat
    var quiltNotices: nat
    var shot2DNotices: nat
    /** The calls made into the runtime module and the capture component, in order. */
    var restarts: seq<PlayModeType>
    var tilingUpdates: seq<QualityPreset>
    /** The mutable default UHoloPlaySettings object. */
    const settings: Settings

    /** The constructor: input not ignored, the default cursor, no quilt target, no viewport. */
    constructor (s: Settings)
      ensures settings == s
      ensures lenticular == null && quilt == null && shot2D == null
      ensures !ignoreInput && cursor == DefaultCursor && quiltTarget == None && !viewport
      ensures lenticularNotices == 0 && quiltNotices == 0 && shot2DNotices == 0
      ensures restarts == [] && tilingUpdates == []
    {
      settings := s;
      lenticular, quilt, shot2D := null, null, null;
      ignoreInput, cursor, quiltTarget, viewport := false, DefaultCursor, None, false;
      lenticularNotices, quiltNotices, shot2DNotices := 0, 0, 0;
      restarts, tilingUpdates := [], [];
    }

    // -------------------------------------------------------------------------
    // Filling a slot

    /**
     * PreparePlayLenticularScreenshot: a new request is created and true
     * returned only when the slot is empty; a busy slot keeps its request,
     * name and flag, and false is returned. The other slots are untouched.
     */
    method PreparePlayLenticularScreenshot(name: string, inShowUI: bool, addSuffix: bool, env: Environment)
      returns (ok: bool)
      modifies this`lenticular
      ensures ok <==> old(lenticular) == null
      ensures ok ==> (lenticular != null && fresh(lenticular) && fresh(lenticular.base) &&
        lenticular.base.filename == ResolvedFilename(name, addSuffix, env.saveDir, env.nextBitmap) &&
        lenticular.showUI == (lenticular.base.filename != [] && inShowUI))
      ensures !ok ==> lenticular == old(lenticular) && PendingLenticular(lenticular) == old(PendingLenticular(lenticular))
    {
      if lenticular == null {
        var r := new LenticularScreenshotRequest();
        r.RequestScreenshot(name, inShowUI, addSuffix, env);
        lenticular := r;
        return true;
      }
      return false;
    }

    /** PreparePlayScreenshotQuilt: as for the lenticular slot, on the quilt slot. */
    method PreparePlayScreenshotQuilt(name: string, addSuffix: bool, env: Environment) returns (ok: bool)
      modifies this`quilt
      ensures ok <==> old(quilt) == null
      ensures ok ==> (quilt != null && fresh(quilt) &&
        quilt.filename == ResolvedFilename(name, addSuffix, env.saveDir, env.nextBitmap))
      ensures !ok ==> quilt == old(quilt) && PendingName(quilt) == old(PendingName(quilt))
    {
      if quilt == null {
        var r := new ScreenshotRequest();
        r.RequestScreenshot(name, addSuffix, env);
        quilt := r;
        return true;
      }
      return false;
    }

    /** PreparePlayScreenshot2D: as for the lenticular slot, on the 2D slot. */
    method PreparePlayScreenshot2D(name: string, addSuffix: bool, env: Environment) returns (ok: bool)
      modifies this`shot2D
      ensures ok <==> old(shot2D) == null
      ensures ok ==> (shot2D != null && fresh(shot2D) &&
        shot2D.filename == ResolvedFilename(name, addSuffix, env.saveDir, env.nextBitmap))
      ensures !ok ==> shot2D == old(shot2D) && PendingName(shot2D) == old(PendingName(shot2D))
    {
      if shot2D == null {
        var r := new ScreenshotRequest();
        r.RequestScreenshot(name, addSuffix, env);
        shot2D := r;
        return true;
      }
      return false;
    }

    // -------------------------------------------------------------------------
    // Emptying a slot

    /**
     * ProcessScreenshotQuilts: a pending request is always removed; what is
     * saved and whether the delegate fires is QuiltOutcome. captureOk is
     * what GetRenderTargetScreenShot of the quilt target returns.
     */
    method ProcessScreenshotQuilts(captureOk: bool) returns (saved: Option<string>)
      modifies this`quilt, this`quiltNotices
      ensures quilt == null
      ensures old(quilt) == null ==> saved == None && quiltNotices == old(quiltNotices)
      ensures old(quilt) != null ==>
        var o := QuiltOutcome(old(quilt.filename), captureOk);
        saved == o.saved && quiltNotices == old(quiltNotices) + (if o.notified then 1 else 0)
    {
      saved := None;
      if quilt != null {
        var name := quilt.filename;
        if name == [] {
          quilt := null;
          return;
        }
        if captureOk {
          saved := Some(SaveName(name));
        }
        quilt := null;
        quiltNotices := quiltNotices + 1;
      }
    }

    /**
     * ProcessScreenShotLenticular: a pending request is always removed, and
     * the result is true only for a named one (LenticularOutcome). The two
     * capture results are what FSlateApplication::TakeScreenshot and
     * GetViewportScreenShot would return.
     */
    method ProcessScreenShotLenticular(windowValid: bool, slateInitialized: bool,
                                       slateCaptureOk: bool, viewportCaptureOk: bool)
      returns (result: bool, viaSlate: bool, saved: Option<string>)
      modifies this`lenticular, this`lenticularNotices
      ensures lenticular == null
      ensures old(lenticular) == null ==>
        !result && !viaSlate && saved == None && lenticularNotices == old(lenticularNotices)
      ensures old(lenticular) != null ==>
        var r := LenticularOutcome(old(lenticular.base.filename), old(lenticular.showUI),
                                   windowValid, slateInitialized, slateCaptureOk, viewportCaptureOk);
        result == r.result && viaSlate == r.viaSlate && saved == r.outcome.saved &&
        lenticularNotices == old(lenticularNotices) + (if r.outcome.notified then 1 else 0)
    {
      result, viaSlate, saved := false, false, None;
      if lenticular != null {
        var name := lenticular.base.filename;
        if name == [] {
          lenticular := null;
          return false, false, None;
        }
        viaSlate := lenticular.showUI && windowValid;
        viaSlate := viaSlate && slateInitialized;
        var ok := if viaSlate then slateCaptureOk else viewportCaptureOk;
        if ok {
          saved := Some(SaveName(name));
        }
        lenticular := null;
        lenticularNotices := lenticularNotices + 1;
        return true, viaSlate, saved;
      }
      return false, false, None;
    }

    /** ProcessScreenShots: exactly ProcessScreenShotLenticular, with its result. */
    method ProcessScreenShots(windowValid: bool, slateInitialized: bool,
                              slateCaptureOk: bool, viewportCaptureOk: bool) returns (result: bool)
      modifies this`lenticular, this`lenticularNotices
      ensures lenticular == null
      ensures result <==> old(lenticular) != null && old(lenticular.base.filename) != []
      ensures lenticularNotices == old(lenticularNotices) + (if result then 1 else 0)
    {
      var viaSlate, saved;
      result, viaSlate, saved := ProcessScreenShotLenticular(windowValid, slateInitialized, slateCaptureOk, viewportCaptureOk);
    }

    /**
     * ProcessScreenshot2D: Screenshot2DOutcome decides; a request held back
     * by the resolution stays in the slot, every other one is removed. The
     * 2D view is rendered, at the configured resolution, exactly when a
     * capture is attempted.
     */
    method ProcessScreenshot2D(captureOk: bool) returns (rendered: Option<IntPoint>, saved: Option<string>)
      modifies this`shot2D, this`shot2DNotices
      ensures old(shot2D) == null ==>
        shot2D == null && rendered == None && saved == None && shot2DNotices == old(shot2DNotices)
      ensures old(shot2D) != null ==>
        var o := Screenshot2DOutcome(old(shot2D.filename), settings.screenshot2D.resolution, captureOk);
        shot2D == (if o.pending then old(shot2D) else null) &&
        rendered == (if o.notified then Some(settings.screenshot2D.resolution) else None) &&
        saved == o.saved && shot2DNotices == old(shot2DNotices) + (if o.notified then 1 else 0)
    {
      rendered, saved := None, None;
      if shot2D != null {
        var name := shot2D.filename;
        if name == [] {
          shot2D := null;
          return;
        }
        var resolution := settings.screenshot2D.resolution;
        if resolution.x <= 0 || resolution.y <= 0 {
          return;
        }
        rendered := Some(resolution);
        if captureOk {
          saved := Some(SaveName(name));
        }
        shot2D := null;
        shot2DNotices := shot2DNotices + 1;
      }
    }

    // -------------------------------------------------------------------------
    // The quilt render target

    /**
     * GetQuiltRT: afterwards the target exists and is sized exactly
     * quiltW by quiltH; it is created only when there was none, and resized
     * only when an existing one had another size.
     */
    method GetQuiltRT(quiltW: int, quiltH: int) returns (created: bool, resized: bool)
      modifies this`quiltTarget
      ensures quiltTarget == Some((quiltW, quiltH))
      ensures created <==> old(quiltTarget).None?
      ensures resized <==> old(quiltTarget).Some? && old(quiltTarget).value != (quiltW, quiltH)
    {
      created, resized := false, false;
      if quiltTarget.None? {
        quiltTarget := Some((quiltW, quiltH));
        created := true;
      }
      if quiltTarget.value != (quiltW, quiltH) {
        quiltTarget := Some((quiltW, quiltH));
        resized := true;
      }
    }

    // -------------------------------------------------------------------------
    // A frame

    /**
     * Draw: the frame's stages are DrawStages; the quilt target is ensured
     * whenever there is a capture component; the 2D slot is processed
     * exactly on the frames that reach its step, and the quilt slot exactly
     * on those that reach the quilt screenshot. The capture results are what
     * GetRenderTargetScreenShot would return for the two steps; rendered2D,
     * saved2D and savedQuilt are the 2D view rendered for the screenshot and
     * the two names a file is written under, None where nothing happens.
     */
    method Draw(cap: Option<Capture>, shot2DCaptureOk: bool, quiltCaptureOk: bool)
      returns (trace: seq<Stage>, rendered2D: Option<IntPoint>, saved2D: Option<string>, savedQuilt: Option<string>)
      modifies this`quiltTarget, this`shot2D, this`shot2DNotices, this`quilt, this`quiltNotices
      ensures trace == DrawStages(cap, settings.render2D)
      ensures cap.Some? ==> quiltTarget == Some((cap.value.tiling.quiltW, cap.value.tiling.quiltH))
      ensures cap.None? ==> quiltTarget == old(quiltTarget)
      ensures !ReachesScreenshot2D(cap, settings.render2D) || old(shot2D) == null ==>
        shot2D == old(shot2D) && shot2DNotices == old(shot2DNotices) && rendered2D == None && saved2D == None
      ensures ReachesScreenshot2D(cap, settings.render2D) && old(shot2D) != null ==>
        var o := Screenshot2DOutcome(old(shot2D.filename), settings.screenshot2D.resolution, shot2DCaptureOk);
        shot2D == (if o.pending then old(shot2D) else null) &&
        rendered2D == (if o.notified then Some(settings.screenshot2D.resolution) else None) &&
        saved2D == o.saved && shot2DNotices == old(shot2DNotices) + (if o.notified then 1 else 0)
      ensures !ReachesQuiltShot(cap, settings.render2D) ==>
        quilt == old(quilt) && quiltNotices == old(quiltNotices) && savedQuilt == None
      ensures ReachesQuiltShot(cap, settings.render2D) ==> quilt == null
      ensures ReachesQuiltShot(cap, settings.render2D) && old(quilt) == null ==>
        quiltNotices == old(quiltNotices) && savedQuilt == None
      ensures ReachesQuiltShot(cap, settings.render2D) && old(quilt) != null ==>
        var o := QuiltOutcome(old(quilt.filename), quiltCaptureOk);
        savedQuilt == o.saved && quiltNotices == old(quiltNotices) + (if o.notified then 1 else 0)
    {
      trace, rendered2D, saved2D, savedQuilt := [Clear(Black)], None, None, None;
      if cap.None? {
        trace := trace + [Clear(Blue)];
        return;
      }
      var c := cap.value;
      var created, resized := GetQuiltRT(c.tiling.quiltW, c.tiling.quiltH);
      trace := trace + [QuiltTarget(c.tiling.quiltW, c.tiling.quiltH)];
      if c.configs == [] {
        trace := trace + [Clear(Green)];
        return;
      }
      if settings.render2D {
        trace := trace + [Render2D];
        return;
      }
      var passes;
      passes, rendered2D, saved2D, savedQuilt := RunPasses(c, shot2DCaptureOk, quiltCaptureOk);
      trace := trace + passes;
    }

    /**
     * The part of Draw after the early exits: the 2D screenshot step, the
     * views and their copies unless overridden, then, unless the copy loop
     * aborted, the flush, the quilt screenshot step and the lenticular pass.
     */
    method RunPasses(c: Capture, shot2DCaptureOk: bool, quiltCaptureOk: bool)
      returns (passes: seq<Stage>, rendered2D: Option<IntPoint>, saved2D: Option<string>, savedQuilt: Option<string>)
      modifies this`shot2D, this`shot2DNotices, this`quilt, this`quiltNotices
      ensures passes == [Screenshot2DPass] + ViewPass(c) + FinalPasses(c)
      ensures old(shot2D) == null ==>
        shot2D == null && shot2DNotices == old(shot2DNotices) && rendered2D == None && saved2D == None
      ensures old(shot2D) != null ==>
        var o := Screenshot2DOutcome(old(shot2D.filename), settings.screenshot2D.resolution, shot2DCaptureOk);
        shot2D == (if o.pending then old(shot2D) else null) &&
        rendered2D == (if o.notified then Some(settings.screenshot2D.resolution) else None) &&
        saved2D == o.saved && shot2DNotices == old(shot2DNotices) + (if o.notified then 1 else 0)
      ensures FinalPasses(c) == [] ==> quilt == old(quilt) && quiltNotices == old(quiltNotices) && savedQuilt == None
      ensures FinalPasses(c) != [] ==> quilt == null
      ensures FinalPasses(c) != [] && old(quilt) == null ==> quiltNotices == old(quiltNotices) && savedQuilt == None
      ensures FinalPasses(c) != [] && old(quilt) != null ==>
        var o := QuiltOutcome(old(quilt.filename), quiltCaptureOk);
        savedQuilt == o.saved && quiltNotices == old(quiltNotices) + (if o.notified then 1 else 0)
    {
      rendered2D, saved2D := ProcessScreenshot2D(shot2DCaptureOk);
      savedQuilt := None;
      passes := [Screenshot2DPass];
      if !c.overrideQuilt {
        var copies, missing := CopyViews(c.configs);
        passes := passes + ([RenderViews] + copies);
        if missing {
          assert FinalPasses(c) == [];
          return;
        }
      }
      assert passes == [Screenshot2DPass] + ViewPass(c);
      savedQuilt := ProcessScreenshotQuilts(quiltCaptureOk);
      passes := passes + [Flush, QuiltShot, Lenticular(c.overrideQuilt)];
    }

    /**
     * The copy loop of Draw: CurrentViewIndex runs on across the configs
     * while ViewIndex restarts at 0 for each; a config without a render
     * target ends the frame. missing says whether that happened.
     */
    method CopyViews(configs: seq<RenderingConfig>) returns (copies: seq<Stage>, missing: bool)
      ensures copies == CopyStages(configs, 0)
      ensures missing <==> Missing(configs)
    {
      copies := [];
      var current: nat := 0;
      var i := 0;
      while i < |configs|
        invariant 0 <= i <= |configs|
        invariant copies + CopyStages(configs[i..], current) == CopyStages(configs, 0)
        invariant !Missing(configs[..i])
      {
        var config := configs[i];
        if !config.hasTarget {
          assert CopyStages(configs[i..], current) == [TargetMissing];
          return copies + [TargetMissing], true;
        }
        ghost var first, before := current, copies;
        var view := 0;
        while view < config.views
          invariant 0 <= view <= config.views && current == first + view
          invariant copies == before + ViewCopies(first, view)
        {
          ViewCopiesStep(first, view);
          copies := copies + [CopyToQuilt(current, view)];
          current := current + 1;
          view := view + 1;
        }
        CopyLoopStep(configs, i, first, before);
        i := i + 1;
      }
      assert configs[..i] == configs;
      return copies, false;
    }

    // -------------------------------------------------------------------------
    // Console commands

    /** Everything a console command can change, as one value. */
    function Commanded(): CommandState
      reads this, settings
    {
      CommandState(lenticular, quilt, shot2D, restarts, tilingUpdates,
        settings.customClientSize, settings.placementMode, settings.quiltMode,
        settings.useCustomAspect, settings.render2D, settings.saveCount)
    }

    /**
     * The effect of HoloPlay.LenticularScreenshot with the text after it:
     * without a viewport nothing happens and the command counts as handled;
     * with one, the name and the suffix flag parsed from the text go to
     * PreparePlayLenticularScreenshot with the UI hidden, and its answer is
     * the command's.
     */
    twostate predicate LenticularCommandDone(rest: string, env: Environment, handled: bool)
      reads this, settings, lenticular, if lenticular == null then {} else {lenticular.base}
    {
      Commanded() == old(Commanded()).(lenticular := lenticular) &&
      if !viewport then handled && lenticular == old(lenticular)
      else
        var (name, suffix) := ScreenshotCommandArgs(rest, true);
        (handled <==> old(lenticular) == null) &&
        (handled ==> (lenticular != null && fresh(lenticular) &&
          lenticular.base.filename == ResolvedFilename(name, suffix, env.saveDir, env.nextBitmap) &&
          !lenticular.showUI)) &&
        (!handled ==> lenticular == old(lenticular))
    }

    /** The effect of HoloPlay.ScreenshotQuilt, as for the lenticular command. */
    twostate predicate QuiltCommandDone(rest: string, env: Environment, handled: bool)
      reads this, settings, quilt
    {
      Commanded() == old(Commanded()).(quilt := quilt) &&
      if !viewport then handled && quilt == old(quilt)
      else
        var (name, suffix) := ScreenshotCommandArgs(rest, true);
        (handled <==> old(quilt) == null) &&
        (handled ==> (quilt != null && fresh(quilt) &&
          quilt.filename == ResolvedFilename(name, suffix, env.saveDir, env.nextBitmap))) &&
        (!handled ==> quilt == old(quilt))
    }

    /** The effect of HoloPlay.Screenshot2D, as for the lenticular command. */
    twostate predicate Screenshot2DCommandDone(rest: string, env: Environment, handled: bool)
      reads this, settings, shot2D
    {
      Commanded() == old(Commanded()).(shot2D := shot2D) &&
      if !viewport then handled && shot2D == old(shot2D)
      else
        var (name, suffix) := ScreenshotCommandArgs(rest, true);
        (handled <==> old(shot2D) == null) &&
        (handled ==> (shot2D != null && fresh(shot2D) &&
          shot2D.filename == ResolvedFilename(name, suffix, env.saveDir, env.nextBitmap))) &&
        (!handled ==> shot2D == old(shot2D))
    }

    /**
     * The effect of HoloPlay.Window: the parsed client size is stored, the
     * player restarted in the last play mode, the placement stored, and the
     * settings saved once if any of that happened.
     */
    twostate predicate WindowCommandDone(rest: string, handled: bool)
      reads this, settings
    {
      var u := WindowCommand(rest);
      handled == u.handled &&
      Commanded() == old(Commanded()).(
        clientSize := if u.clientSize.Some? then ClientSizePoint(u.clientSize.value) else old(settings.customClientSize),
        restarts := old(restarts) + (if u.restart then [old(settings.lastPlayMode)] else []),
        placement := if u.placement.Some? then u.placement.value else old(settings.placementMode),
        saveCount := old(settings.saveCount) + (if handled then 1 else 0))
    }

    /**
     * The effect of HoloPlay.Shader: QuiltMode and CustomAspect store whether
     * their integer argument is non-zero; every setting it knows is saved and
     * handled, an unknown one is neither.
     */
    twostate predicate ShaderCommandDone(rest: string, handled: bool)
      reads this, settings
    {
      match ShaderCommand(rest)
      case None => !handled && Commanded() == old(Commanded())
      case Some((setting, arg)) =>
        handled &&
        Commanded() == old(Commanded()).(
          quiltMode := if setting == QuiltModeSetting then Atoi(arg) != 0 else old(settings.quiltMode),
          useCustomAspect := if setting == CustomAspectSetting then Atoi(arg) != 0 else old(settings.useCustomAspect),
          saveCount := old(settings.saveCount) + 1)
    }

    /**
     * The effect of HoloPlay.Tilling: with a valid capture component a known
     * preset is passed to it and the settings saved; otherwise nothing
     * happens and the command is not handled.
     */
    twostate predicate TillingCommandDone(rest: string, componentValid: bool, handled: bool)
      reads this, settings
    {
      var p := TilingCommand(rest);
      (handled <==> componentValid && p.Some?) &&
      Commanded() ==
        if handled then old(Commanded()).(tilingUpdates := old(tilingUpdates) + [p.value], saveCount := old(settings.saveCount) + 1)
        else old(Commanded())
    }

    /** The effect of HoloPlay.Rendering: Render2D stores a numeric argument's truth and saves, even without one. */
    twostate predicate RenderingCommandDone(rest: string, handled: bool)
      reads this, settings
    {
      var (known, value) := RenderingCommand(rest);
      handled == known &&
      Commanded() == old(Commanded()).(
        render2D := if value.Some? then value.value else old(settings.render2D),
        saveCount := old(settings.saveCount) + (if known then 1 else 0))
    }

    /**
     * Exec: the first HoloPlay command word that starts the line picks the
     * handler, which gets the rest of the line; a line starting with none of
     * them is not handled and changes nothing.
     */
    method Exec(cmd: string, env: Environment, componentValid: bool) returns (handled: bool)
      modifies this`lenticular, this`quilt, this`shot2D, this`restarts, this`tilingUpdates
      modifies settings`customClientSize, settings`placementMode, settings`quiltMode
      modifies settings`useCustomAspect, settings`render2D, settings`saveCount
      ensures ExecRoute(cmd).None? ==> !handled && Commanded() == old(Commanded())
      ensures ExecRoute(cmd).Some? ==> var (h, rest) := ExecRoute(cmd).value;
        (h == LenticularScreenshotHandler ==> LenticularCommandDone(rest, env, handled)) &&
        (h == ScreenshotQuiltHandler ==> QuiltCommandDone(rest, env, handled)) &&
        (h == Screenshot2DHandler ==> Screenshot2DCommandDone(rest, env, handled)) &&
        (h == WindowHandler ==> WindowCommandDone(rest, handled)) &&
        (h == ShaderHandler ==> ShaderCommandDone(rest, handled)) &&
        (h == SceneHandler ==> handled && Commanded() == old(Commanded())) &&
        (h == TillingHandler ==> TillingCommandDone(rest, componentValid, handled)) &&
        (h == RenderingHandler ==> RenderingCommandDone(rest, handled))
    {
      match ExecRoute(cmd)
      case None =>
        handled := false;
      case Some((h, rest)) =>
        match h
        case LenticularScreenshotHandler =>
          handled := HandleLenticularScreenshotCommand(rest, env);
        case ScreenshotQuiltHandler =>
          handled := HandleScreenshotQuiltCommand(rest, env);
        case Screenshot2DHandler =>
          handled := HandleScreenshot2DCommand(rest, env);
        case WindowHandler =>
          handled := HandleWindowCommand(rest);
        case ShaderHandler =>
          handled := HandleShaderCommand(rest);
        case SceneHandler =>
          handled := true;
        case TillingHandler =>
          handled := HandleTillingCommand(rest, componentValid);
        case RenderingHandler =>
          handled := HandleRenderingCommand(rest);
    }

    method HandleLenticularScreenshotCommand(rest: string, env: Environment) returns (handled: bool)
      modifies this`lenticular
      ensures LenticularCommandDone(rest, env, handled)
    {
      handled := true;
      if viewport {
        var (name, suffix) := ScreenshotCommandArgs(rest, true);
        handled := PreparePlayLenticularScreenshot(name, false, suffix, env);
      }
    }

    method HandleScreenshotQuiltCommand(rest: string, env: Environment) returns (handled: bool)
      modifies this`quilt
      ensures QuiltCommandDone(rest, env, handled)
    {
      handled := true;
      if viewport {
        var (name, suffix) := ScreenshotCommandArgs(rest, true);
        handled := PreparePlayScreenshotQuilt(name, suffix, env);
      }
    }

    method HandleScreenshot2DCommand(rest: string, env: Environment) returns (handled: bool)
      modifies this`shot2D
      ensures Screenshot2DCommandDone(rest, env, handled)
    {
      handled := true;
      if viewport {
        var (name, suffix) := ScreenshotCommandArgs(rest, true);
        handled := PreparePlayScreenshot2D(name, suffix, env);
      }
    }

    method HandleWindowCommand(rest: string) returns (handled: bool)
      modifies this`restarts, settings`customClientSize, settings`placementMode, settings`saveCount
      ensures WindowCommandDone(rest, handled)
    {
      var u := WindowCommand(rest);
      if u.clientSize.Some? {
        settings.customClientSize := ClientSizePoint(u.clientSize.value);
      }
      if u.restart {
        restarts := restarts + [settings.lastPlayMode];
      }
      if u.placement.Some? {
        settings.placementMode := u.placement.value;
      }
      handled := u.handled;
      if handled {
        settings.Save();
      }
    }

    method HandleShaderCommand(rest: string) returns (handled: bool)
      modifies settings`quiltMode, settings`useCustomAspect, settings`saveCount
      ensures ShaderCommandDone(rest, handled)
    {
      match ShaderCommand(rest)
      case None =>
        handled := false;
      case Some((setting, arg)) =>
        if setting == QuiltModeSetting {
          settings.quiltMode := Atoi(arg) != 0;
        } else if setting == CustomAspectSetting {
          settings.useCustomAspect := Atoi(arg) != 0;
        }
        settings.Save();
        handled := true;
    }

    method HandleTillingCommand(rest: string, componentValid: bool) returns (handled: bool)
      modifies this`tilingUpdates, settings`saveCount
      ensures TillingCommandDone(rest, componentValid, handled)
    {
      if !componentValid {
        return false;
      }
      match TilingCommand(rest)
      case None =>
        handled := false;
      case Some(p) =>
        tilingUpdates := tilingUpdates + [p];
        settings.Save();
        handled := true;
    }

    method HandleRenderingCommand(rest: string) returns (handled: bool)
      modifies settings`render2D, settings`saveCount
      ensures RenderingCommandDone(rest, handled)
    {
      var (known, value) := RenderingCommand(rest);
      if value.Some? {
        settings.render2D := value.value;
      }
      handled := known;
      if handled {
        settings.Save();
      }
    }

    // -------------------------------------------------------------------------
    // Input and focus

    /** SetIgnoreInput: IgnoreInput then returns the flag, and nothing else changes. */
    method SetIgnoreInput(ignore: bool)
      modifies this`ignoreInput
      ensures IgnoreInput() == ignore
    {
      ignoreInput := ignore;
    }

    function IgnoreInput(): bool
      reads this
    {
      ignoreInput
    }

    function GetCursor(): MouseCursor
      reads this
    {
      cursor
    }

    /** LostFocus: the default cursor is shown again. */
    method LostFocus()
      modifies this`cursor
      ensures GetCursor() == DefaultCursor
    {
      cursor := DefaultCursor;
    }

    /** ReceivedFocus: the cursor is hidden. */
    method ReceivedFocus()
      modifies this`cursor
      ensures GetCursor() == NoCursor
    {
      cursor := NoCursor;
    }
  }
}
