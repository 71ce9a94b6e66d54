/**
 * FHoloPlayTilingQuality: a quilt of TilesX by TilesY views packed into a
 * QuiltW by QuiltH texture, the tile size derived from them by Setup, the
 * equality the plugin uses to compare qualities, and the preset qualities of
 * UHoloPlaySettings.
 */
module Tiling {

  /** C++ division of int32 values: the quotient is truncated toward zero. */
  function TruncDiv(a: int, b: int): int
    requires b != 0
  {
    var q := Abs(a) / Abs(b);
    if (a < 0) == (b < 0) then q else -q
  }

  function Abs(x: int): nat { if x < 0 then -x else x }

  /**
   * For a non-negative size and a positive tile count the tile size is the
   * largest one whose tiles fit: TileSize * Tiles <= Quilt < (TileSize + 1) * Tiles.
   */
  lemma {:induction false} TruncDivFits(quilt: int, tiles: int)
    requires quilt >= 0 && tiles >= 1
    ensures TruncDiv(quilt, tiles) >= 0
    ensures TruncDiv(quilt, tiles) * tiles <= quilt < (TruncDiv(quilt, tiles) + 1) * tiles
  {
    var q := quilt / tiles;
    assert TruncDiv(quilt, tiles) == q;
    DivMod(quilt, tiles);
    MulSucc(q, tiles);
  }

  lemma DivMod(a: int, b: int)
    requires a >= 0 && b > 0
    ensures a / b >= 0 && a == (a / b) * b + a % b && 0 <= a % b < b
  {
  }

  lemma MulSucc(q: int, t: int)
    ensures (q + 1) * t == q * t + t
  {
  }

  /** On a negative size the C++ quotient differs from Euclidean division. */
  lemma TruncDivNegative()
    ensures TruncDiv(-7, 2) == -3 && -7 / 2 == -4
  {
  }

  /** The four fields operator== compares. */
  datatype Geometry = Geometry(tilesX: int, tilesY: int, quiltW: int, quiltH: int)
  {
    /** GetNumTiles: the number of views in the quilt. */
    function NumTiles(): (n: int)
      ensures tilesX >= 1 && tilesY >= 1 ==> n >= tilesX && n >= tilesY
    {
      tilesX * tilesY
    }

    /** The tile sizes Setup derives, defined when both tile counts are non-zero. */
    function TileSizes(): (int, int)
      requires tilesX != 0 && tilesY != 0
    {
      (TruncDiv(quiltW, tilesX), TruncDiv(quiltH, tilesY))
    }
  }

  /** A quality in the shape the plugin validates: at least one tile, non-negative sizes. */
  predicate UsableGeometry(g: Geometry)
  {
    g.tilesX >= 1 && g.tilesY >= 1 && g.quiltW >= 0 && g.quiltH >= 0
  }

  /** The tiles of a usable quality fit in the quilt on each axis and waste less than one tile. */
  lemma TilesFit(g: Geometry)
    requires UsableGeometry(g)
    ensures g.TileSizes().0 * g.tilesX <= g.quiltW < (g.TileSizes().0 + 1) * g.tilesX
    ensures g.TileSizes().1 * g.tilesY <= g.quiltH < (g.TileSizes().1 + 1) * g.tilesY
  {
    TruncDivFits(g.quiltW, g.tilesX);
    TruncDivFits(g.quiltH, g.tilesY);
  }

  /** FHoloPlayTilingQuality, whose derived tile sizes Setup writes in place. */
  class TilingQuality {
    var text: string
    var tilesX: int
    var tilesY: int
    var quiltW: int
    var quiltH: int
    var overscan: bool
    var tilingEditable: bool
    var tileSizeX: int
    var tileSizeY: int

    function Key(): Geometry
      reads this
    {
      Geometry(tilesX, tilesY, quiltW, quiltH)
    }

    /** The derived tile sizes agree with the geometry. */
    predicate Consistent()
      reads this
    {
      tilesX != 0 && tilesY != 0 && (tileSizeX, tileSizeY) == Key().TileSizes()
    }

    /** The default constructor: the member initialisers, no Setup, so the tile sizes stay 0. */
    constructor Default()
      ensures Key() == Geometry(4, 8, 2048, 2048)
      ensures text == "Default" && !overscan && !tilingEditable
      ensures tileSizeX == 0 && tileSizeY == 0
      ensures !Consistent()
    {
      text := "Default";
      tilesX, tilesY, quiltW, quiltH := 4, 8, 2048, 2048;
      overscan, tilingEditable := false, false;
      tileSizeX, tileSizeY := 0, 0;
    }

    /** The parameterised constructor always finishes with Setup. */
    constructor (inText: string, inTilesX: int, inTilesY: int, inQuiltW: int, inQuiltH: int,
                 inEditable: bool, inOverscan: bool)
      requires inTilesX != 0 && inTilesY != 0
      ensures Key() == Geometry(inTilesX, inTilesY, inQuiltW, inQuiltH)
      ensures text == inText && overscan == inOverscan && tilingEditable == inEditable
      ensures Consistent()
    {
      text := inText;
      tilesX, tilesY, quiltW, quiltH := inTilesX, inTilesY, inQuiltW, inQuiltH;
      overscan, tilingEditable := inOverscan, inEditable;
      tileSizeX, tileSizeY := 0, 0;
      new;
      Setup();
    }

    /** Setup: recompute the tile sizes from the geometry; nothing else changes. */
    method Setup()
      requires tilesX != 0 && tilesY != 0
      modifies this`tileSizeX, this`tileSizeY
      ensures Consistent()
    {
      tileSizeX := TruncDiv(quiltW, tilesX);
      tileSizeY := TruncDiv(quiltH, tilesY);
    }

    /** operator==: only the geometry is compared. */
    predicate Equals(other: TilingQuality)
      reads this, other
    {
      Key() == other.Key()
    }
  }

  /** Setup leaves the tiles of a usable quality fitting inside the quilt. */
  lemma ConsistentTilesFit(q: TilingQuality)
    requires q.Consistent() && UsableGeometry(q.Key())
    ensures 0 <= q.tileSizeX * q.tilesX <= q.quiltW && 0 <= q.tileSizeY * q.tilesY <= q.quiltH
  {
    TilesFit(q.Key());
    TruncDivFits(q.quiltW, q.tilesX);
    TruncDivFits(q.quiltH, q.tilesY);
  }

  /** Equality of qualities is reflexive and symmetric, and transitive. */
  lemma EqualsIsEquivalence(a: TilingQuality, b: TilingQuality, c: TilingQuality)
    ensures a.Equals(a)
    ensures a.Equals(b) ==> b.Equals(a)
    ensures a.Equals(b) && b.Equals(c) ==> a.Equals(c)
  {
  }

  /** Equality ignores the label, the flags and the derived tile sizes. */
  lemma EqualsIgnoresNonGeometry(a: TilingQuality, b: TilingQuality)
    ensures a.Equals(b) <==>
      a.tilesX == b.tilesX && a.tilesY == b.tilesY && a.quiltW == b.quiltW && a.quiltH == b.quiltH
  {
  }

  // ---------------------------------------------------------------------------
  // Presets

  /** EHoloPlayQualitySettings. */
  datatype QualityPreset =
    | Automatic | Portrait | PortraitHighRes | FourK | EightK | EightPointNineLegacy | Custom

  /** The geometry of each preset quality member of UHoloPlaySettings. */
  function PresetGeometry(p: QualityPreset): (g: Geometry)
    ensures UsableGeometry(g)
  {
    match p
    case Automatic => Geometry(8, 6, 3360, 3360)
    case Portrait => Geometry(8, 6, 3360, 3360)
    case PortraitHighRes => Geometry(8, 6, 3840, 3840)
    case FourK => Geometry(5, 9, 4096, 4096)
    case EightK => Geometry(5, 9, 8192, 8192)
    case EightPointNineLegacy => Geometry(5, 9, 4096, 4096)
    case Custom => Geometry(8, 6, 3360, 3360)
  }

  function PresetLabel(p: QualityPreset): string
  {
    match p
    case Automatic => "Automatic"
    case Portrait => "Portrait"
    case PortraitHighRes => "PortraitHiRes"
    case FourK => "4K Res"
    case EightK => "8K Res"
    case EightPointNineLegacy => "Extra Low"
    case Custom => "Custom"
  }

  /** Builds a preset member as UHoloPlaySettings does; only Custom is editable. */
  method NewPreset(p: QualityPreset) returns (q: TilingQuality)
    ensures fresh(q) && q.Consistent()
    ensures q.Key() == PresetGeometry(p) && q.text == PresetLabel(p)
    ensures q.tilingEditable == (p == Custom) && !q.overscan
  {
    var g := PresetGeometry(p);
    q := new TilingQuality(PresetLabel(p), g.tilesX, g.tilesY, g.quiltW, g.quiltH, p == Custom, false);
  }

  /** Automatic packs 420 by 560 tiles with no remainder, and equals the differently labelled Portrait. */
  lemma AutomaticPreset()
    ensures PresetGeometry(Automatic).TileSizes() == (420, 560)
    ensures 420 * 8 == 3360 && 560 * 6 == 3360
    ensures PresetGeometry(Automatic) == PresetGeometry(Portrait)
    ensures PresetLabel(Automatic) != PresetLabel(Portrait)
  {
  }

  /** The 4K preset has 819 by 455 tiles and uses 4095 of 4096 pixels on each axis; 8K has 1638 by 910. */
  lemma FourKAndEightKPresets()
    ensures PresetGeometry(FourK).TileSizes() == (819, 455)
    ensures 819 * 5 == 4095 && 455 * 9 == 4095
    ensures PresetGeometry(EightK).TileSizes() == (1638, 910)
  {
  }
}
