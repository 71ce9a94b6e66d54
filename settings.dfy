/**
 * UHoloPlaySettings: the project settings the viewport client's console
 * commands and the editor toolbar read and write, with HoloPlaySave counted
 * rather than performed.
 */
module HoloPlaySettings {
  /** A C++ int32. */
  type Int32 = x: int | -0x8000_0000 <= x < 0x8000_0000

  /** The value of a C++ uint8. */
  type Byte = x: int | 0 <= x < 256

  /** EHoloPlayModeType. */
  datatype PlayModeType = InSeparateWindow | InMainViewport

  /** EHoloPlayPlacement is a uint8 enumeration; a cast from int32 may give a value outside it. */
  const PlacementAutomatic: Byte := 0
  const PlacementCustomWindow: Byte := 1
  const PlacementAlwaysDebugWindow: Byte := 2

  /** The conversion (EHoloPlayPlacement)v of an int32 to the enumeration's uint8 representation. */
  function PlacementOfInt(v: int): (p: Byte)
    ensures 0 <= v < 256 ==> p == v
    ensures (p - v) % 256 == 0
  {
    v % 256
  }

  /** The keys the screenshot settings bind. */
  datatype InputKey = F8 | F9 | F10

  datatype IntPoint = IntPoint(x: int, y: int)

  /** FHoloPlayScreenshotSettings. */
  datatype ScreenshotSettings = ScreenshotSettings(
    fileName: string, inputKey: InputKey, resolution: IntPoint, resolutionVisible: bool)

  /** The two's-complement bits of an int32. */
  function Bits(x: Int32): bv32
  {
    if x < 0 then (x + 0x1_0000_0000) as bv32 else x as bv32
  }

  lemma BitsZero(x: Int32)
    ensures Bits(x) == 0 <==> x == 0
  {
    if x < 0 {
      assert 0 < x + 0x1_0000_0000 < 0x1_0000_0000;
    }
  }

  /**
   * The FHoloPlayScreenshotSettings constructor: the resolution is shown in
   * the editor exactly when one of its components is non-zero, which the
   * constructor computes as (X | Y) != 0.
   */
  function NewScreenshotSettings(fileName: string, key: InputKey, x: Int32, y: Int32): (s: ScreenshotSettings)
    ensures s.fileName == fileName && s.inputKey == key && s.resolution == IntPoint(x, y)
    ensures s.resolutionVisible <==> x != 0 || y != 0
  {
    BitsZero(x);
    BitsZero(y);
    ScreenshotSettings(fileName, key, IntPoint(x, y), (Bits(x) | Bits(y)) != 0)
  }

  function LenticularScreenshotDefaults(): ScreenshotSettings { NewScreenshotSettings("LenticularScreenshot", F10, 0, 0) }
  function QuiltScreenshotDefaults(): ScreenshotSettings { NewScreenshotSettings("ScreenshotQuilt", F9, 0, 0) }
  function Screenshot2DDefaults(): ScreenshotSettings { NewScreenshotSettings("Screenshot2D", F8, 1280, 720) }

  /** Only the 2D screenshot default, 1280 by 720, shows its resolution. */
  lemma ScreenshotDefaultsVisibility()
    ensures Screenshot2DDefaults().resolutionVisible
    ensures !LenticularScreenshotDefaults().resolutionVisible
    ensures !QuiltScreenshotDefaults().resolutionVisible
  {
  }

  /** The fields of a Settings object, as one value. */
  datatype SettingsValue = SettingsValue(
    placementMode: Byte, screenIndex: int, customClientSize: IntPoint, lastPlayMode: PlayModeType,
    lockInMainViewport: bool, quiltMode: bool, render2D: bool, useCustomAspect: bool,
    screenshot2D: ScreenshotSettings, saveCount: nat)

  /** The mutable default object of UHoloPlaySettings. */
  class Settings {
    // HoloPlayWindowSettings
    var placementMode: Byte
    var screenIndex: int
    var customClientSize: IntPoint
    var lastPlayMode: PlayModeType
    var lockInMainViewport: bool
    // HoloPlayRenderingSettings
    var quiltMode: bool
    var render2D: bool
    var useCustomAspect: bool
    // HoloPlayScreenshot2DSettings
    var screenshot2D: ScreenshotSettings
    /** How many times HoloPlaySave has written the configuration. */
    var saveCount: nat

    /** The member initialisers. */
    constructor ()
      ensures placementMode == PlacementAutomatic && screenIndex == 0
      ensures customClientSize == IntPoint(2560, 1600)
      ensures lastPlayMode == InSeparateWindow && !lockInMainViewport
      ensures !quiltMode && !render2D && !useCustomAspect
      ensures screenshot2D == Screenshot2DDefaults()
      ensures saveCount == 0
    {
      placementMode, screenIndex := PlacementAutomatic, 0;
      customClientSize := IntPoint(2560, 1600);
      lastPlayMode, lockInMainViewport := InSeparateWindow, false;
      quiltMode, render2D, useCustomAspect := false, false, false;
      screenshot2D := Screenshot2DDefaults();
      saveCount := 0;
    }

    function Value(): SettingsValue
      reads this
    {
      SettingsValue(placementMode, screenIndex, customClientSize, lastPlayMode, lockInMainViewport,
        quiltMode, render2D, useCustomAspect, screenshot2D, saveCount)
    }

    /** HoloPlaySave: the configuration file is written once more. */
    method Save()
      modifies this`saveCount
      ensures saveCount == old(saveCount) + 1
    {
      saveCount := saveCount + 1;
    }
  }
}
