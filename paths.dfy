/**
 * Screenshot file names: the engine's FPaths helpers that the plugin uses
 * (leaf name, extension, base name, path append) and the plugin's own name
 * resolution in FHoloPlayScreenshotRequest::RequestScreenshot and
 * CreateViewportScreenShotFilename.
 */
module Paths {
  import opened Wrappers

  predicate IsSlash(c: char) { c == '/' || c == '\\' }

  /** The index just past the last path separator, 0 when there is none. */
  function LeafStart(p: string): (i: nat)
    ensures i <= |p|
    ensures i == 0 || IsSlash(p[i - 1])
    ensures forall k :: i <= k < |p| ==> !IsSlash(p[k])
  {
    if p == [] then 0 else if IsSlash(p[|p| - 1]) then |p| else LeafStart(p[..|p| - 1])
  }

  /** FPaths::GetCleanFilename: the part after the last separator. */
  function CleanFilename(p: string): string { p[LeafStart(p)..] }

  /** The position of the last dot, if any. */
  function LastDot(s: string): (r: Option<nat>)
    ensures r.Some? ==> r.value < |s| && s[r.value] == '.' && forall k :: r.value < k < |s| ==> s[k] != '.'
    ensures r.None? ==> forall k :: 0 <= k < |s| ==> s[k] != '.'
  {
    if s == [] then None else if s[|s| - 1] == '.' then Some(|s| - 1) else LastDot(s[..|s| - 1])
  }

  /** FPaths::GetExtension without the dot: what follows the last dot of the leaf name. */
  function Extension(p: string): string
  {
    var leaf := CleanFilename(p);
    match LastDot(leaf)
    case None => ""
    case Some(d) => leaf[d + 1..]
  }

  /** FPaths::GetBaseFilename with the path kept: the name up to the last dot of its leaf. */
  function BaseFilename(p: string): string
  {
    var ls := LeafStart(p);
    match LastDot(p[ls..])
    case None => p
    case Some(d) => p[..ls + d]
  }

  /** FString's operator/: a '/' is inserted unless one side already supplies it. */
  function PathAppend(dir: string, name: string): (r: string)
    ensures r == dir + name || r == dir + "/" + name
  {
    if dir != [] && !IsSlash(dir[|dir| - 1]) && (name == [] || name[0] != '/') then dir + "/" + name else dir + name
  }

  lemma {:induction false} LeafStartAppend(p: string, q: string)
    requires forall k :: 0 <= k < |q| ==> !IsSlash(q[k])
    ensures LeafStart(p + q) == LeafStart(p)
  {
    if q != [] {
      assert (p + q)[..|p + q| - 1] == p + q[..|q| - 1];
      LeafStartAppend(p, q[..|q| - 1]);
    } else {
      assert p + q == p;
    }
  }

  lemma {:induction false} LastDotAppend(s: string, q: string)
    requires forall k :: 0 <= k < |q| ==> q[k] != '.'
    ensures LastDot(s + q) == LastDot(s)
  {
    if q != [] {
      assert (s + q)[..|s + q| - 1] == s + q[..|q| - 1];
      LastDotAppend(s, q[..|q| - 1]);
    } else {
      assert s + q == s;
    }
  }

  /** Appending ".ext" to any name gives it the extension ext, and the base name is the original name. */
  lemma AppendedExtension(g: string, ext: string)
    requires forall k :: 0 <= k < |ext| ==> ext[k] != '.' && !IsSlash(ext[k])
    ensures Extension(g + "." + ext) == ext
    ensures BaseFilename(g + "." + ext) == g
  {
    var p := g + "." + ext;
    LeafStartAppend(g, "." + ext);
    assert p == g + ("." + ext);
    var ls := LeafStart(g);
    assert p[ls..] == g[ls..] + "." + ext;
    LastDotAppend(g[ls..] + ".", ext);
    assert g[ls..] + "." + ext == (g[ls..] + ".") + ext;
  }

  // ---------------------------------------------------------------------------
  // The plugin's name resolution

  const DefaultTypeName: string := "Screenshot"

  /** The name used when none is given. */
  function TypeName(name: string): (r: string)
    ensures r != []
    ensures name != [] ==> r == name
  {
    if name == [] then DefaultTypeName else name
  }

  /**
   * CreateViewportScreenShotFilename: a name that already has a '/' is kept,
   * any other goes into the game's screenshot directory.
   */
  function ViewportScreenShotFilename(name: string, saveDir: string): (r: string)
    ensures r != []
    ensures '/' in TypeName(name) ==> r == TypeName(name)
    ensures '/' !in TypeName(name) ==>
      r == saveDir + TypeName(name) || r == saveDir + "/" + TypeName(name)
  {
    var t := TypeName(name);
    if '/' in t then t else PathAppend(saveDir, t)
  }

  /**
   * FHoloPlayScreenshotRequest::RequestScreenshot: the stored Filename.
   * FFileHelper::GenerateNextBitmapFilename scans the file system for a free
   * numbered name; it is the parameter nextBitmap, given the base name.
   */
  function ResolvedFilename(name: string, addSuffix: bool, saveDir: string, nextBitmap: string -> string): string
  {
    var g := ViewportScreenShotFilename(name, saveDir);
    if addSuffix then nextBitmap(BaseFilename(g))
    else if |Extension(g)| == 0 then g + ".png"
    else g
  }

  /**
   * Without the numbered suffix the stored name is never empty and always
   * has an extension, "png" whenever the given name had none.
   */
  lemma ResolvedWithoutSuffix(name: string, saveDir: string, nextBitmap: string -> string)
    ensures var r := ResolvedFilename(name, false, saveDir, nextBitmap);
      r != [] && Extension(r) != [] &&
      (Extension(ViewportScreenShotFilename(name, saveDir)) == [] ==> Extension(r) == "png")
  {
    var g := ViewportScreenShotFilename(name, saveDir);
    var r := ResolvedFilename(name, false, saveDir, nextBitmap);
    if |Extension(g)| == 0 {
      PngAppended(g);
    } else {
      assert r == g;
    }
  }

  lemma PngAppended(g: string)
    ensures Extension(g + ".png") == "png" && BaseFilename(g + ".png") == g
  {
    assert g + ".png" == g + "." + "png";
    AppendedExtension(g, "png");
  }

  /** With the suffix the stored name is what the numbering routine makes of the base name. */
  lemma ResolvedWithSuffix(name: string, saveDir: string, nextBitmap: string -> string)
    ensures ResolvedFilename(name, true, saveDir, nextBitmap) ==
      nextBitmap(BaseFilename(ViewportScreenShotFilename(name, saveDir)))
  {
  }

  /** An empty name with no suffix and a plain directory becomes dir/Screenshot.png. */
  lemma DefaultResolvedName(saveDir: string, nextBitmap: string -> string)
    requires saveDir != [] && !IsSlash(saveDir[|saveDir| - 1])
    ensures ResolvedFilename("", false, saveDir, nextBitmap) == saveDir + "/Screenshot.png"
  {
    var g := saveDir + "/" + DefaultTypeName;
    assert ViewportScreenShotFilename("", saveDir) == g;
    assert CleanFilename(g) == DefaultTypeName by {
      LeafStartAppend(saveDir + "/", DefaultTypeName);
      assert g == (saveDir + "/") + DefaultTypeName;
    }
    assert LastDot(DefaultTypeName) == None;
  }

  /**
   * The name a capture is saved under (the Process* steps): a name with an
   * extension has it replaced by ".png"; a name without one is used as is.
   */
  function SaveName(n: string): string
  {
    if Extension(n) != [] then BaseFilename(n) + ".png" else n
  }

  /** A name that has an extension is saved with the extension "png". */
  lemma SaveNameIsPng(n: string)
    requires Extension(n) != []
    ensures Extension(SaveName(n)) == "png"
  {
    PngAppended(BaseFilename(n));
  }

  /** A resolved name that already ends in ".png" is saved under exactly that name. */
  lemma SaveNameKeepsPng(g: string)
    ensures SaveName(g + ".png") == g + ".png"
  {
    PngAppended(g);
  }
}
