/**
 * The console side of FHoloPlayViewportClient: which command words Exec and
 * each Handle*Command accept, in the order they test them, and the two
 * argument parsers (ParseResolution and ParseScreenshotCommand). What the
 * handlers then change lives in the client class.
 */
module Console {
  import opened Wrappers
  import opened Text
  import opened Tiling
  import opened HoloPlaySettings

  /** A C++ uint32. */
  type UInt32 = x: int | 0 <= x < 0x1_0000_0000

  // ---------------------------------------------------------------------------
  // The else-if chains of FParse::Command tests

  /**
   * An else-if chain that tests the command against each word in turn and
   * takes the first match, with the rest of the command.
   */
  function FirstMatch<T>(cmd: string, cases: seq<(string, T)>): Option<(T, string)>
  {
    if cases == [] then None
    else match Command(cmd, cases[0].0)
      case Some(rest) => Some((cases[0].1, rest))
      case None => FirstMatch(cmd, cases[1..])
  }

  /**
   * The chain fails exactly when no word matches, and otherwise answers for
   * a matching word all of whose predecessors fail.
   */
  lemma {:induction false} FirstMatchMeaning<T>(cmd: string, cases: seq<(string, T)>)
    ensures FirstMatch(cmd, cases).None? <==> forall j :: 0 <= j < |cases| ==> Command(cmd, cases[j].0).None?
    ensures FirstMatch(cmd, cases).Some? ==>
      exists j :: 0 <= j < |cases| && cases[j].1 == FirstMatch(cmd, cases).value.0 &&
        Command(cmd, cases[j].0) == Some(FirstMatch(cmd, cases).value.1) &&
        forall j' :: 0 <= j' < j ==> Command(cmd, cases[j'].0).None?
  {
    if cases != [] {
      FirstMatchMeaning(cmd, cases[1..]);
      assert forall j :: 1 <= j < |cases| ==> cases[1..][j - 1] == cases[j];
      if Command(cmd, cases[0].0).None? && FirstMatch(cmd, cases).Some? {
        var j :| 0 <= j < |cases[1..]| && cases[1..][j].1 == FirstMatch(cmd, cases).value.0 &&
          Command(cmd, cases[1..][j].0) == Some(FirstMatch(cmd, cases).value.1) &&
          forall j' :: 0 <= j' < j ==> Command(cmd, cases[1..][j'].0).None?;
        assert forall j' :: 0 <= j' < j + 1 ==> Command(cmd, cases[j'].0).None? by {
          forall j' | 0 <= j' < j + 1 ensures Command(cmd, cases[j'].0).None? {
            if j' > 0 {
              assert cases[j'] == cases[1..][j' - 1];
            }
          }
        }
      }
    }
  }

  /** If every earlier word fails and word i matches, the chain answers for word i. */
  lemma {:induction false} FirstMatchAt<T>(cmd: string, cases: seq<(string, T)>, i: nat, r: string)
    requires i < |cases|
    requires forall j :: 0 <= j < i ==> Command(cmd, cases[j].0) == None
    requires Command(cmd, cases[i].0) == Some(r)
    ensures FirstMatch(cmd, cases) == Some((cases[i].1, r))
  {
    if i > 0 {
      assert Command(cmd, cases[0].0) == None;
      assert forall j :: 0 <= j < i - 1 ==> cases[1..][j] == cases[j + 1];
      FirstMatchAt(cmd, cases[1..], i - 1, r);
    }
  }

  /**
   * A chain whose words can all be told apart from the earlier ones:
   * seps[i][j] is a position that separates word i from word j < i.
   */
  predicate SeparatedTable<T>(cases: seq<(string, T)>, seps: seq<seq<nat>>)
  {
    |seps| == |cases| && forall i :: 0 <= i < |cases| ==> SeparatedRow(cases, seps, i)
  }

  predicate SeparatedRow<T>(cases: seq<(string, T)>, seps: seq<seq<nat>>, i: nat)
    requires i < |cases| && i < |seps|
  {
    |seps[i]| == i && cases[i].0 != [] && !IsBlank(cases[i].0[0]) &&
    forall j :: 0 <= j < i ==> Separates(cases[i].0, cases[j].0, seps[i][j])
  }

  /**
   * In a separated chain every word followed by a blank (or nothing) reaches
   * its own entry, not an earlier one, with what follows it.
   */
  lemma FirstMatchReaches<T>(cases: seq<(string, T)>, seps: seq<seq<nat>>, i: nat, rest: string)
    requires SeparatedTable(cases, seps) && i < |cases|
    requires rest == [] || !IsAlnum(rest[0])
    ensures FirstMatch(cases[i].0 + rest, cases) == Some((cases[i].1, SkipBlanks(rest)))
  {
    assert SeparatedRow(cases, seps, i);
    var w := cases[i].0;
    assert Command(w + rest, w) == Some(SkipBlanks(rest)) by {
      CommandMatches(w, rest);
    }
    assert forall j :: 0 <= j < i ==> Command(w + rest, cases[j].0) == None by {
      forall j | 0 <= j < i ensures Command(w + rest, cases[j].0) == None {
        CommandSeparated(w, rest, cases[j].0, seps[i][j]);
      }
    }
    FirstMatchAt(w + rest, cases, i, SkipBlanks(rest));
  }

  // ---------------------------------------------------------------------------
  // Exec

  /** The handlers FHoloPlayViewportClient::Exec routes to. */
  datatype Handler =
    | LenticularScreenshotHandler | ScreenshotQuiltHandler | Screenshot2DHandler | WindowHandler
    | ShaderHandler | SceneHandler | TillingHandler | RenderingHandler

  /** Exec's words, in the order it tests them. */
  const ExecTable: seq<(string, Handler)> := [
    ("HoloPlay.LenticularScreenshot", LenticularScreenshotHandler),
    ("HoloPlay.ScreenshotQuilt", ScreenshotQuiltHandler),
    ("HoloPlay.Screenshot2D", Screenshot2DHandler),
    ("HoloPlay.Window", WindowHandler),
    ("HoloPlay.Shader", ShaderHandler),
    ("HoloPlay.Scene", SceneHandler),
    ("HoloPlay.Tilling", TillingHandler),
    ("HoloPlay.Rendering", RenderingHandler)]

  /** Exec: the handler of the first word that starts the command, with what follows it. */
  function ExecRoute(cmd: string): Option<(Handler, string)>
  {
    FirstMatch(cmd, ExecTable)
  }

  /**
   * Every handler is reachable: its word followed by a blank (or nothing)
   * routes to it, not to an earlier handler, and the handler gets what follows.
   */
  lemma ExecReachesEveryHandler(i: nat, rest: string)
    requires i < |ExecTable|
    requires rest == [] || !IsAlnum(rest[0])
    ensures ExecRoute(ExecTable[i].0 + rest) == Some((ExecTable[i].1, SkipBlanks(rest)))
  {
    ExecTableSeparated();
    FirstMatchReaches(ExecTable, ExecSeparators, i, rest);
  }

  /** Where each Exec word first differs from the earlier ones. */
  const ExecSeparators: seq<seq<nat>> := [
    [], [9], [9, 19], [9, 9, 9], [9, 10, 10, 9], [9, 11, 11, 9, 10], [9, 9, 9, 9, 9, 9], [9, 9, 9, 9, 9, 9, 9]]

  lemma ExecTableSeparated()
    ensures SeparatedTable(ExecTable, ExecSeparators)
  {
    ExecRow0();
    ExecRow1();
    ExecRow2();
    ExecRow3();
    ExecRow4();
    ExecRow5();
    ExecRow6();
    ExecRow7();
  }

  lemma ExecRow0() ensures SeparatedRow(ExecTable, ExecSeparators, 0) {}

  lemma ExecRow1() ensures SeparatedRow(ExecTable, ExecSeparators, 1) {}

  lemma ExecRow2() ensures SeparatedRow(ExecTable, ExecSeparators, 2) {}

  lemma ExecRow3() ensures SeparatedRow(ExecTable, ExecSeparators, 3) {}

  lemma ExecRow4() ensures SeparatedRow(ExecTable, ExecSeparators, 4) {}

  lemma ExecRow5() ensures SeparatedRow(ExecTable, ExecSeparators, 5) {}

  lemma ExecRow6() ensures SeparatedRow(ExecTable, ExecSeparators, 6) {}

  lemma ExecRow7() ensures SeparatedRow(ExecTable, ExecSeparators, 7) {}

  // ---------------------------------------------------------------------------
  // HandleTillingCommand

  /** HandleTillingCommand's words, in the order it tests them; Custom has none. */
  const TilingTable: seq<(string, QualityPreset)> := [
    ("Automatic", Automatic),
    ("Portrait", Portrait),
    ("PortraitHiRes", PortraitHighRes),
    ("FourK", FourK),
    ("EightK", EightK),
    ("EightNineLegacy", EightPointNineLegacy)]

  /** The preset a tiling command selects; a command can never select Custom. */
  function TilingCommand(cmd: string): (r: Option<QualityPreset>)
    ensures r != Some(Custom)
    ensures r.None? <==> forall j :: 0 <= j < |TilingTable| ==> Command(cmd, TilingTable[j].0).None?
  {
    FirstMatchMeaning(cmd, TilingTable);
    match FirstMatch(cmd, TilingTable)
    case Some((p, _)) => Some(p)
    case None => None
  }

  /** Each preset word selects its preset; "Portrait" coming first does not hide "PortraitHiRes". */
  lemma TilingReachesEveryPreset(i: nat, rest: string)
    requires i < |TilingTable|
    requires rest == [] || !IsAlnum(rest[0])
    ensures TilingCommand(TilingTable[i].0 + rest) == Some(TilingTable[i].1)
  {
    TilingTableSeparated();
    FirstMatchReaches(TilingTable, TilingSeparators, i, rest);
  }

  /** Where each tiling word first differs from the earlier ones; "PortraitHiRes" goes on past "Portrait". */
  const TilingSeparators: seq<seq<nat>> := [[], [0], [0, 8], [0, 0, 0], [0, 0, 0, 0], [0, 0, 0, 0, 5]]

  lemma TilingTableSeparated()
    ensures SeparatedTable(TilingTable, TilingSeparators)
  {
    TilingRow0();
    TilingRow1();
    TilingRow2();
    TilingRow3();
    TilingRow4();
    TilingRow5();
  }

  lemma TilingRow0() ensures SeparatedRow(TilingTable, TilingSeparators, 0) {}

  lemma TilingRow1() ensures SeparatedRow(TilingTable, TilingSeparators, 1) {}

  lemma TilingRow2() ensures SeparatedRow(TilingTable, TilingSeparators, 2) {}

  lemma TilingRow3() ensures SeparatedRow(TilingTable, TilingSeparators, 3) {}

  lemma TilingRow4() ensures SeparatedRow(TilingTable, TilingSeparators, 4) {}

  lemma TilingRow5() ensures SeparatedRow(TilingTable, TilingSeparators, 5) {}

  // ---------------------------------------------------------------------------
  // HandleShaderCommand

  /** The settings HandleShaderCommand can write. */
  datatype ShaderSetting =
    | QuiltModeSetting | PitchSetting | CenterSetting | ViewConeSetting | DpiSetting
    | CustomAspectSetting | CustomAspectXSetting | CustomAspectYSetting

  /** HandleShaderCommand's words, in the order it tests them. */
  const ShaderTable: seq<(string, ShaderSetting)> := [
    ("QuiltMode", QuiltModeSetting),
    ("Pitch", PitchSetting),
    ("Center", CenterSetting),
    ("ViewCone", ViewConeSetting),
    ("DPI", DpiSetting),
    ("CustomAspect", CustomAspectSetting),
    ("CustomAspectX", CustomAspectXSetting),
    ("CustomAspectY", CustomAspectYSetting)]

  /** The setting a shader command writes and its argument text. */
  function ShaderCommand(cmd: string): Option<(ShaderSetting, string)>
  {
    FirstMatch(cmd, ShaderTable)
  }

  /** Each shader word reaches its own setting: "CustomAspect" takes neither "CustomAspectX" nor "CustomAspectY". */
  lemma ShaderReachesEverySetting(i: nat, rest: string)
    requires i < |ShaderTable|
    requires rest == [] || !IsAlnum(rest[0])
    ensures ShaderCommand(ShaderTable[i].0 + rest) == Some((ShaderTable[i].1, SkipBlanks(rest)))
  {
    ShaderTableSeparated();
    FirstMatchReaches(ShaderTable, ShaderSeparators, i, rest);
  }

  /** Where each shader word first differs from the earlier ones. */
  const ShaderSeparators: seq<seq<nat>> := [
    [], [0], [0, 0], [0, 0, 0], [0, 0, 0, 0], [0, 0, 1, 0, 0], [0, 0, 1, 0, 0, 12], [0, 0, 1, 0, 0, 12, 12]]

  lemma ShaderTableSeparated()
    ensures SeparatedTable(ShaderTable, ShaderSeparators)
  {
    ShaderRow0();
    ShaderRow1();
    ShaderRow2();
    ShaderRow3();
    ShaderRow4();
    ShaderRow5();
    ShaderRow6();
    ShaderRow7();
  }

  lemma ShaderRow0() ensures SeparatedRow(ShaderTable, ShaderSeparators, 0) {}

  lemma ShaderRow1() ensures SeparatedRow(ShaderTable, ShaderSeparators, 1) {}

  lemma ShaderRow2() ensures SeparatedRow(ShaderTable, ShaderSeparators, 2) {}

  lemma ShaderRow3() ensures SeparatedRow(ShaderTable, ShaderSeparators, 3) {}

  lemma ShaderRow4() ensures SeparatedRow(ShaderTable, ShaderSeparators, 4) {}

  lemma ShaderRow5() ensures SeparatedRow(ShaderTable, ShaderSeparators, 5) {}

  lemma ShaderRow6() ensures SeparatedRow(ShaderTable, ShaderSeparators, 6) {}

  lemma ShaderRow7() ensures SeparatedRow(ShaderTable, ShaderSeparators, 7) {}

  // ---------------------------------------------------------------------------
  // HandleRenderingCommand

  /**
   * HandleRenderingCommand: whether the command is handled, and the new
   * bRender2D when its argument is numeric.
   */
  function RenderingCommand(cmd: string): (r: (bool, Option<bool>))
    ensures r.1.Some? ==> r.0
    ensures r.0 <==> Command(cmd, "Render2D").Some?
  {
    match Command(cmd, "Render2D")
    case None => (false, None)
    case Some(arg) => (true, if IsNumeric(arg) then Some(Atoi(arg) != 0) else None)
  }

  /** "Render2D n" sets bRender2D to n != 0; a non-numeric argument is handled without a change. */
  lemma RenderingCommandValues(n: nat)
    ensures RenderingCommand("Render2D " + Decimal(n)) == (true, Some(n != 0))
    ensures RenderingCommand("Render2D on") == (true, None)
  {
    var d := Decimal(n);
    NumberArgument(n);
    assert Command("Render2D " + d, "Render2D") == Some(d) by {
      CommandMatches("Render2D", " " + d);
      assert "Render2D " + d == "Render2D" + (" " + d);
    }
    assert Command("Render2D on", "Render2D") == Some("on") by {
      CommandMatches("Render2D", " on");
      assert "Render2D on" == "Render2D" + " on";
    }
  }

  /** A number written after a blank is skipped to, is numeric and reads back. */
  lemma NumberArgument(n: nat)
    ensures SkipBlanks(" " + Decimal(n)) == Decimal(n)
    ensures IsNumeric(Decimal(n)) && Atoi(Decimal(n)) == n
  {
    var d := Decimal(n);
    DecimalDigits(n);
    assert (" " + d)[1..] == d;
    DigitsAreNumeric(d);
    AtoiOfDecimal(n, []);
    assert d + [] == d;
  }

  lemma {:induction false} DigitsNumericBody(d: string)
    requires forall k :: 0 <= k < |d| ==> IsDigit(d[k])
    ensures NumericBody(d, false)
  {
    if d != [] {
      DigitsNumericBody(d[1..]);
    }
  }

  /** A non-empty run of digits is numeric. */
  lemma DigitsAreNumeric(d: string)
    requires d != [] && forall k :: 0 <= k < |d| ==> IsDigit(d[k])
    ensures IsNumeric(d)
  {
    DigitsNumericBody(d);
  }

  // ---------------------------------------------------------------------------
  // ParseResolution

  /** Strchr: the first position of c. */
  function FirstIndexOf(s: string, c: char): (r: Option<nat>)
    ensures r.Some? ==> r.value < |s| && s[r.value] == c && forall k :: 0 <= k < r.value ==> s[k] != c
    ensures r.None? ==> forall k :: 0 <= k < |s| ==> s[k] != c
  {
    if s == [] then None
    else if s[0] == c then Some(0)
    else match FirstIndexOf(s[1..], c)
      case None => None
      case Some(i) => Some(i + 1)
  }

  /** (uint32)FMath::Max(v, 0.0f) for the whole part v of a parsed number. */
  function ClampToUInt32(v: int): UInt32
  {
    if v <= 0 then 0 else v % 0x1_0000_0000
  }

  /** A value that fits in a uint32 is converted to itself. */
  lemma ClampIdentity(v: UInt32)
    ensures ClampToUInt32(v) == v
  {
  }

  /**
   * What ParseResolution accepts: after trimming and lower-casing, text up to
   * the first 'x', then a non-empty numeric remainder. X is read from the
   * start of the whole string, Y from just after the 'x'.
   */
  function Resolution(s: string): Option<(UInt32, UInt32)>
  {
    if s == [] then None
    else
      var c := ToLower(Trim(s));
      match FirstIndexOf(c, 'x')
      case None => None
      case Some(i) =>
        var yValue := c[i + 1..];
        var yString := Trim(yValue);
        if |yString| > 0 && IsNumeric(yString) then Some((ClampToUInt32(Atoi(c)), ClampToUInt32(Atoi(yValue))))
        else None
  }

  /**
   * ParseResolution: on success both outputs are written and true is
   * returned; otherwise the outputs keep the values they came in with.
   */
  method ParseResolution(input: string, inX: UInt32, inY: UInt32) returns (ok: bool, outX: UInt32, outY: UInt32)
    ensures ok <==> Resolution(input).Some?
    ensures ok ==> (outX, outY) == Resolution(input).value
    ensures !ok ==> outX == inX && outY == inY
  {
    ok, outX, outY := false, inX, inY;
    if input != [] {
      var cmdString := Trim(input);
      cmdString := ToLower(cmdString);
      var sep := FirstIndexOf(cmdString, 'x');
      if sep.Some? {
        var yValue := cmdString[sep.value + 1..];
        var yString := Trim(yValue);
        if |yString| > 0 && IsNumeric(yString) {
          var x := ClampToUInt32(Atoi(cmdString));
          var y := ClampToUInt32(Atoi(yValue));
          outX, outY := x, y;
          return true, outX, outY;
        }
      }
    }
  }

  /** A string without leading or trailing whitespace trims to itself. */
  lemma TrimUnchanged(s: string)
    requires s == [] || (!IsWhitespace(s[0]) && !IsWhitespace(s[|s| - 1]))
    ensures Trim(s) == s
  {
  }

  /** Resolution on text that is already trimmed, once its pieces are known. */
  lemma ResolutionOfPieces(s: string, c: string, i: nat)
    requires s != [] && Trim(s) == s && ToLower(s) == c
    requires FirstIndexOf(c, 'x') == Some(i)
    requires Trim(c[i + 1..]) == c[i + 1..] && IsNumeric(c[i + 1..])
    ensures Resolution(s) == Some((ClampToUInt32(Atoi(c)), ClampToUInt32(Atoi(c[i + 1..]))))
  {
  }

  /** Writing a resolution as "WxH" (or "WXH") and parsing it gives back W and H. */
  lemma ResolutionRoundTrip(w: UInt32, h: UInt32, sep: char)
    requires sep == 'x' || sep == 'X'
    ensures Resolution(Decimal(w) + [sep] + Decimal(h)) == Some((w, h))
  {
    DecimalDigits(w);
    DecimalDigits(h);
    ResolutionOfDigits(Decimal(w), Decimal(h), sep);
    WrittenResolutionNumbers(w, h);
    ClampIdentity(w);
    ClampIdentity(h);
  }

  /** Two runs of digits around an 'x' or an 'X' parse as a resolution, read from both runs. */
  lemma ResolutionOfDigits(dw: string, dh: string, sep: char)
    requires sep == 'x' || sep == 'X'
    requires dw != [] && forall k :: 0 <= k < |dw| ==> IsDigit(dw[k])
    requires dh != [] && forall k :: 0 <= k < |dh| ==> IsDigit(dh[k])
    ensures Resolution(dw + [sep] + dh) == Some((ClampToUInt32(Atoi(dw + "x" + dh)), ClampToUInt32(Atoi(dh))))
  {
    var s, c := dw + [sep] + dh, dw + "x" + dh;
    assert Trim(s) == s by {
      assert s[0] == dw[0] && s[|s| - 1] == dh[|dh| - 1];
      TrimUnchanged(s);
    }
    assert ToLower(s) == c by {
      LowerWritten(dw, dh, sep);
    }
    assert FirstIndexOf(c, 'x') == Some(|dw|) && c[|dw| + 1..] == dh by {
      FirstIndexAfterDigits(dw, dh);
    }
    assert Trim(dh) == dh && IsNumeric(dh) by {
      TrimUnchanged(dh);
      DigitsAreNumeric(dh);
    }
    ResolutionOfPieces(s, c, |dw|);
  }

  lemma LowerWritten(dw: string, dh: string, sep: char)
    requires sep == 'x' || sep == 'X'
    requires forall k :: 0 <= k < |dw| ==> IsDigit(dw[k])
    requires forall k :: 0 <= k < |dh| ==> IsDigit(dh[k])
    ensures ToLower(dw + [sep] + dh) == dw + "x" + dh
  {
    ToLowerAppend(dw + [sep], dh);
    ToLowerAppend(dw, [sep]);
    ToLowerDigits(dw);
    ToLowerDigits(dh);
    assert ToLower([sep]) == "x";
  }

  lemma {:induction false} FirstIndexAfterDigits(d: string, rest: string)
    requires forall k :: 0 <= k < |d| ==> IsDigit(d[k])
    ensures FirstIndexOf(d + "x" + rest, 'x') == Some(|d|)
    ensures (d + "x" + rest)[|d| + 1..] == rest
  {
    if d != [] {
      assert (d + "x" + rest)[1..] == d[1..] + "x" + rest;
      FirstIndexAfterDigits(d[1..], rest);
    } else {
      assert d + "x" + rest == "x" + rest;
    }
  }

  /** In "wxh" both numbers read back. */
  lemma WrittenResolutionNumbers(w: nat, h: nat)
    ensures Atoi(Decimal(w) + "x" + Decimal(h)) == w && Atoi(Decimal(h)) == h
  {
    var dw, dh := Decimal(w), Decimal(h);
    assert Atoi(dw + "x" + dh) == w by {
      AtoiOfDecimal(w, "x" + dh);
      assert dw + "x" + dh == dw + ("x" + dh);
    }
    assert Atoi(dh) == h by {
      AtoiOfDecimal(h, []);
      assert dh + [] == dh;
    }
  }

  /** Text without an 'x' (in either case) is never a resolution. */
  lemma ResolutionNeedsSeparator(s: string)
    requires forall k :: 0 <= k < |s| ==> s[k] != 'x' && s[k] != 'X'
    ensures Resolution(s) == None
  {
    if s != [] {
      var t := Trim(s);
      TrimSlice(s);
      var c := ToLower(t);
      ToLowerPointwise(t);
      assert forall k :: 0 <= k < |c| ==> c[k] != 'x';
    }
  }

  // ---------------------------------------------------------------------------
  // HandleWindowCommand

  /** What a window command does: the new client size, a restart, the new placement, whether handled. */
  datatype WindowUpdate = WindowUpdate(
    clientSize: Option<(UInt32, UInt32)>, restart: bool, placement: Option<Byte>, handled: bool)

  /**
   * HandleWindowCommand's two independent tests: "ClientSize" writes a size
   * only when both parsed values are positive but always restarts the
   * player; "PlacementMode" is then tried on what follows "ClientSize", and
   * writes the placement only for a numeric argument.
   */
  function WindowCommand(cmd: string): (u: WindowUpdate)
    ensures u.clientSize.Some? ==> u.clientSize.value.0 > 0 && u.clientSize.value.1 > 0 && u.restart
    ensures u.handled <==> u.restart || u.placement.Some?
  {
    var afterClientSize := Command(cmd, "ClientSize");
    var size :=
      if afterClientSize.None? then None
      else
        var (_, x, y) := ResolutionOrKeep(afterClientSize.value, 0, 0);
        if x > 0 && y > 0 then Some((x, y)) else None;
    var rest := if afterClientSize.Some? then afterClientSize.value else cmd;
    var placement :=
      match Command(rest, "PlacementMode")
      case Some(arg) => if IsNumeric(arg) then Some(PlacementOfInt(Atoi(arg))) else None
      case None => None;
    WindowUpdate(size, afterClientSize.Some?, placement, afterClientSize.Some? || placement.Some?)
  }

  /** The outcome of ParseResolution as a value: on failure the incoming outputs. */
  function ResolutionOrKeep(s: string, inX: UInt32, inY: UInt32): (bool, UInt32, UInt32)
  {
    match Resolution(s)
    case Some((x, y)) => (true, x, y)
    case None => (false, inX, inY)
  }

  /** "ClientSize WxH" with both values positive sets the size and restarts the player, and nothing else. */
  lemma WindowClientSize(w: UInt32, h: UInt32)
    requires w > 0 && h > 0
    ensures WindowCommand("ClientSize " + Decimal(w) + "x" + Decimal(h)) ==
      WindowUpdate(Some((w, h)), true, None, true)
  {
    ClientSizeWord(w, h);
    ClientSizeResolution(w, h);
    ClientSizeNoPlacement(w);
  }

  lemma ClientSizeWord(w: UInt32, h: UInt32)
    ensures Command("ClientSize " + Decimal(w) + "x" + Decimal(h), "ClientSize") == Some(Decimal(w) + ("x" + Decimal(h)))
  {
    var dw, dh := Decimal(w), Decimal(h);
    var arg := dw + ("x" + dh);
    assert !IsBlank(arg[0]) by {
      DecimalDigits(w);
      assert arg[0] == dw[0] && IsDigit(dw[0]);
    }
    ClientSizeArgument(arg);
    assert "ClientSize " + dw + "x" + dh == "ClientSize " + arg;
  }

  lemma ClientSizeArgument(arg: string)
    requires arg != [] && !IsBlank(arg[0])
    ensures Command("ClientSize " + arg, "ClientSize") == Some(arg)
  {
    CommandSpaced("ClientSize", arg);
    assert "ClientSize " + arg == "ClientSize" + " " + arg;
  }

  lemma ClientSizeResolution(w: UInt32, h: UInt32)
    ensures ResolutionOrKeep(Decimal(w) + ("x" + Decimal(h)), 0, 0) == (true, w, h)
  {
    ResolutionRoundTrip(w, h, 'x');
    assert Decimal(w) + ['x'] + Decimal(h) == Decimal(w) + ("x" + Decimal(h));
  }

  lemma ClientSizeNoPlacement(w: UInt32)
    ensures forall rest :: Command(Decimal(w) + rest, "PlacementMode") == None
  {
    DecimalDigits(w);
    forall rest ensures Command(Decimal(w) + rest, "PlacementMode") == None {
      CommandSeparated(Decimal(w), rest, "PlacementMode", 0);
    }
  }

  /** "ClientSize" with a size that does not parse is still handled and still restarts, but writes no size. */
  lemma WindowClientSizeUnparsed()
    ensures WindowCommand("ClientSize big") == WindowUpdate(None, true, None, true)
  {
    assert Command("ClientSize big", "ClientSize") == Some("big") by {
      CommandMatches("ClientSize", " big");
      assert "ClientSize big" == "ClientSize" + " big";
    }
    ResolutionNeedsSeparator("big");
    assert Command("big", "PlacementMode") == None by {
      CommandSeparated("big", [], "PlacementMode", 0);
      assert "big" + [] == "big";
    }
  }

  /** "PlacementMode n" stores n converted to the uint8 enumeration, without a restart. */
  lemma WindowPlacement(n: nat)
    ensures WindowCommand("PlacementMode " + Decimal(n)) ==
      WindowUpdate(None, false, Some(PlacementOfInt(n)), true)
  {
    var d := Decimal(n);
    var cmd := "PlacementMode " + d;
    assert cmd == "PlacementMode" + (" " + d);
    assert Command(cmd, "ClientSize") == None by {
      CommandSeparated("PlacementMode", " " + d, "ClientSize", 0);
    }
    assert Command(cmd, "PlacementMode") == Some(d) by {
      CommandMatches("PlacementMode", " " + d);
      NumberArgument(n);
    }
    NumberArgument(n);
  }

  // ---------------------------------------------------------------------------
  // ParseScreenshotCommand

  /**
   * ParseScreenshotCommand: the file name is the first space-separated
   * argument when there are several, otherwise the whole argument text; a
   * "-nosuffix" argument turns the numbered suffix off.
   */
  function ScreenshotCommandArgs(cmd: string, suffix: bool): (r: (string, bool))
    ensures r.1 <==> suffix && !HasParam(cmd, "nosuffix")
    ensures |Split(cmd, Space)| > 1 ==> r.0 != [] && NoSeparator(r.0, Space)
    ensures |Split(cmd, Space)| <= 1 ==> r.0 == cmd
  {
    var args := Split(cmd, Space);
    var name := if |args| > 1 then args[0] else cmd;
    (name, if HasParam(cmd, "nosuffix") then false else suffix)
  }

  /**
   * With more than one argument the name is the first word: whatever spaces
   * lead, the run of non-spaces that follows them, up to the next space.
   */
  lemma ScreenshotNameIsFirstWord(lead: string, w: string, rest: string, suffix: bool)
    requires AllSeparators(lead, Space)
    requires w != [] && NoSeparator(w, Space)
    requires rest == [] || rest[0] == ' '
    requires Split(rest, Space) != []
    ensures ScreenshotCommandArgs(lead + w + rest, suffix).0 == w
  {
    SplitLeadingWord(lead, w, rest, Space);
  }

  /** "name -nosuffix" names the file and turns the suffix off. */
  lemma NamedWithoutSuffix(name: string)
    requires name != [] && NoSeparator(name, Space)
    ensures ScreenshotCommandArgs(name + " -nosuffix", true) == (name, false)
  {
    var cmd := name + " -nosuffix";
    assert cmd == name + [' '] + "-nosuffix";
    NoSuffixFlag();
    SplitAroundSeparator(name, ' ', "-nosuffix", Space);
    SplitSingleWord(name, Space);
    SplitAroundSeparator(name, ' ', "-nosuffix", AnyWhitespace);
    var tokens := Split(cmd, AnyWhitespace);
    assert tokens[|tokens| - 1] == "-nosuffix";
  }

  /** "-nosuffix" is one word for both tokenisers, and it spells the flag. */
  lemma NoSuffixFlag()
    ensures EqualsIgnoreCase("-nosuffix", "-" + "nosuffix")
    ensures Split("-nosuffix", Space) == ["-nosuffix"]
    ensures Split("-nosuffix", AnyWhitespace) == ["-nosuffix"]
  {
    assert "-" + "nosuffix" == "-nosuffix";
    var flag := "-nosuffix";
    assert forall k :: 0 <= k < |flag| ==> flag[k] != ' ' && !IsWhitespace(flag[k]);
    SplitSingleWord(flag, Space);
    SplitSingleWord(flag, AnyWhitespace);
  }

  /** A single word that is not the flag is the file name, with the suffix left on. */
  lemma SingleWordName(name: string)
    requires NoSeparator(name, AnyWhitespace)
    requires !EqualsIgnoreCase(name, "-nosuffix") && !EqualsIgnoreCase(name, "/nosuffix")
    ensures ScreenshotCommandArgs(name, true) == (name, true)
  {
    assert NoSeparator(name, Space);
    SplitSingleWord(name, Space);
    SplitSingleWord(name, AnyWhitespace);
    assert "-" + "nosuffix" == "-nosuffix";
    assert "/" + "nosuffix" == "/nosuffix";
  }

  /** A tab is a token break for the flag though not for the name: "name\t-nosuffix" is one name, without suffix. */
  lemma TabbedNoSuffix(name: string)
    requires name != [] && NoSeparator(name, AnyWhitespace)
    ensures ScreenshotCommandArgs(name + "\t-nosuffix", true) == (name + "\t-nosuffix", false)
  {
    var cmd := name + "\t-nosuffix";
    assert cmd == name + ['\t'] + "-nosuffix";
    assert NoSeparator(cmd, Space) by {
      forall k | 0 <= k < |cmd| ensures cmd[k] != ' ' {
        if k < |name| {
          assert cmd[k] == name[k];
        } else {
          assert cmd[k] == ("\t-nosuffix")[k - |name|];
        }
      }
    }
    NoSuffixFlag();
    SplitSingleWord(cmd, Space);
    SplitAroundSeparator(name, '\t', "-nosuffix", AnyWhitespace);
    var tokens := Split(cmd, AnyWhitespace);
    assert tokens[|tokens| - 1] == "-nosuffix";
  }

  /** A lone "-nosuffix" is taken as the file name as well as turning the suffix off. */
  lemma LoneNoSuffixIsName()
    ensures ScreenshotCommandArgs("-nosuffix", true) == ("-nosuffix", false)
  {
    NoSuffixFlag();
    assert EqualsIgnoreCase(Split("-nosuffix", AnyWhitespace)[0], "-" + "nosuffix");
  }
}
