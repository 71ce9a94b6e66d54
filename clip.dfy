/**
 * The pixel routines of FHoloPlayViewportClient: ClipScreenshot, which
 * compacts a row-major TArray<FColor> in place to a sub-rectangle with one
 * FMemory::Memmove per row and then truncates it, and the loops that force
 * every captured pixel opaque.
 */
module Clip {
  import opened HoloPlaySettings

  /** FColor, in its memory order. */
  datatype Color = Color(b: Byte, g: Byte, r: Byte, a: Byte)

  /** A TArray<FColor>: the first num slots of data are its elements. */
  class Bitmap {
    var data: array<Color>
    var num: nat

    ghost predicate Valid()
      reads this
    {
      num <= data.Length
    }

    function Pixels(): seq<Color>
      reads this, data
      requires Valid()
    {
      data[..num]
    }

    constructor (pixels: seq<Color>)
      ensures Valid() && fresh(data) && Pixels() == pixels
    {
      data := new Color[|pixels|](k requires 0 <= k < |pixels| => pixels[k]);
      num := |pixels|;
    }
  }

  // ---------------------------------------------------------------------------
  // FMemory::Memmove

  /** The array after n elements have moved from src to dst as if through a temporary buffer. */
  function Moved(s: seq<Color>, dst: nat, src: nat, n: nat): (r: seq<Color>)
    requires dst + n <= |s| && src + n <= |s|
  {
    seq(|s|, k requires 0 <= k < |s| => if dst <= k < dst + n then s[src + k - dst] else s[k])
  }

  /** Moving a block onto itself changes nothing; moving it elsewhere leaves the source readable at dst. */
  lemma MovedMeaning(s: seq<Color>, dst: nat, src: nat, n: nat)
    requires dst + n <= |s| && src + n <= |s|
    ensures |Moved(s, dst, src, n)| == |s|
    ensures Moved(s, dst, dst, n) == s
    ensures Moved(s, dst, src, n)[dst..dst + n] == s[src..src + n]
    ensures Moved(s, dst, src, n)[..dst] == s[..dst]
    ensures Moved(s, dst, src, n)[dst + n..] == s[dst + n..]
  {
    assert Moved(s, dst, dst, n) == s;
  }

  /**
   * FMemory::Memmove: a forward copy when the destination lies below the
   * source, a backward copy otherwise, so overlapping blocks arrive intact.
   */
  method Memmove(a: array<Color>, dst: nat, src: nat, n: nat)
    requires dst + n <= a.Length && src + n <= a.Length
    modifies a
    ensures a[..] == Moved(old(a[..]), dst, src, n)
  {
    if dst <= src {
      CopyForward(a, dst, src, n);
    } else {
      CopyBackward(a, dst, src, n);
    }
  }

  /** The ascending copy: each element is read before any write can reach it when dst <= src. */
  method CopyForward(a: array<Color>, dst: nat, src: nat, n: nat)
    requires dst <= src && src + n <= a.Length
    modifies a
    ensures a[..] == Moved(old(a[..]), dst, src, n)
  {
    ghost var s := a[..];
    assert a[..] == Moved(s, dst, src, 0);
    var i := 0;
    while i < n
      invariant 0 <= i <= n
      invariant a[..] == Moved(s, dst, src, i)
    {
      ForwardStep(s, dst, src, i);
      a[dst + i] := a[src + i];
      i := i + 1;
    }
  }

  /** With the first i elements moved, the next source element is still intact and moving it extends the block. */
  lemma ForwardStep(s: seq<Color>, dst: nat, src: nat, i: nat)
    requires dst <= src && src + i < |s|
    ensures Moved(s, dst, src, i)[src + i] == s[src + i]
    ensures Moved(s, dst, src, i)[dst + i := s[src + i]] == Moved(s, dst, src, i + 1)
  {
  }

  /** The descending copy: each element is read before any write can reach it when dst > src. */
  method CopyBackward(a: array<Color>, dst: nat, src: nat, n: nat)
    requires src < dst && dst + n <= a.Length
    modifies a
    ensures a[..] == Moved(old(a[..]), dst, src, n)
  {
    ghost var s := a[..];
    assert a[..] == Moved(s, dst + n, src + n, 0);
    var i := n;
    while i > 0
      invariant 0 <= i <= n
      invariant a[..] == Moved(s, dst + i, src + i, n - i)
    {
      BackwardStep(s, dst, src, i, n);
      ghost var before := a[..];
      i := i - 1;
      a[dst + i] := a[src + i];
      assert a[..] == before[dst + i := before[src + i]];
    }
  }

  /** With the last n - i elements moved, the element before them is still intact and moving it extends the block. */
  lemma BackwardStep(s: seq<Color>, dst: nat, src: nat, i: nat, n: nat)
    requires src < dst && 0 < i <= n && dst + n <= |s|
    ensures Moved(s, dst + i, src + i, n - i)[src + i - 1] == s[src + i - 1]
    ensures Moved(s, dst + i, src + i, n - i)[dst + i - 1 := s[src + i - 1]] ==
      Moved(s, dst + i - 1, src + i - 1, n - i + 1)
  {
  }

  // ---------------------------------------------------------------------------
  // ClipScreenshot

  /** FIntRect: Min is inclusive, Max exclusive. */
  datatype Rect = Rect(minX: int, minY: int, maxX: int, maxY: int)
  {
    function Width(): int { maxX - minX }
    function Height(): int { maxY - minY }
    /** FIntRect::IsEmpty: only a rectangle with no width and no height is empty. */
    predicate IsEmpty() { Width() == 0 && Height() == 0 }
  }

  /**
   * What the copy loop silently relies on: the rectangle lies inside the
   * old image and the array holds exactly that image.
   */
  predicate Inside(oldW: int, oldH: int, rect: Rect, num: nat)
  {
    rect.minX >= 0 && rect.minY >= 0 && rect.Width() >= 0 && rect.Height() >= 0 &&
    rect.maxX <= oldW && rect.maxY <= oldH && num == oldW * oldH
  }

  /** Each of h rows of w pixels, the first at start and each next one stride further on, lies inside n pixels. */
  predicate RowsFit(n: nat, stride: nat, start: nat, w: nat, h: nat)
    decreases h
  {
    h == 0 || (start + w <= n && RowsFit(n, stride, start + stride, w, h - 1))
  }

  /** The h rows of w pixels that start at start, stride apart, one after another. */
  function Clipped(s: seq<Color>, stride: nat, start: nat, w: nat, h: nat): seq<Color>
    requires RowsFit(|s|, stride, start, w, h)
    decreases h
  {
    if h == 0 then [] else s[start..start + w] + Clipped(s, stride, start + stride, w, h - 1)
  }

  /** Pixel (row, col) of the clipped image is pixel col of row `row` of the source. */
  lemma ClippedAt(s: seq<Color>, stride: nat, start: nat, w: nat, h: nat, row: nat, col: nat)
    requires RowsFit(|s|, stride, start, w, h)
    requires row < h && col < w
    ensures row * w + col < |Clipped(s, stride, start, w, h)|
    ensures start + row * stride + col < |s|
    ensures Clipped(s, stride, start, w, h)[row * w + col] == s[start + row * stride + col]
  {
    ClippedAtOffset(s, stride, start, w, h, row, col);
    OffsetIsProduct(row, w);
    OffsetIsProduct(row, stride);
  }

  /** row * size, as repeated addition. */
  function Offset(row: nat, size: nat): nat
  {
    if row == 0 then 0 else Offset(row - 1, size) + size
  }

  lemma {:induction false} OffsetIsProduct(row: nat, size: nat)
    ensures Offset(row, size) == row * size
  {
    if row > 0 {
      OffsetIsProduct(row - 1, size);
      NextRow(row - 1, size);
    }
  }

  lemma {:induction false} ClippedAtOffset(s: seq<Color>, stride: nat, start: nat, w: nat, h: nat, row: nat, col: nat)
    requires RowsFit(|s|, stride, start, w, h)
    requires row < h && col < w
    ensures Offset(row, w) + col < |Clipped(s, stride, start, w, h)|
    ensures start + Offset(row, stride) + col < |s|
    ensures Clipped(s, stride, start, w, h)[Offset(row, w) + col] == s[start + Offset(row, stride) + col]
    decreases h
  {
    assert start + w <= |s| && RowsFit(|s|, stride, start + stride, w, h - 1);
    var first := s[start..start + w];
    var rest := Clipped(s, stride, start + stride, w, h - 1);
    assert Clipped(s, stride, start, w, h) == first + rest;
    if row > 0 {
      ClippedAtOffset(s, stride, start + stride, w, h - 1, row - 1, col);
      assert Offset(row, w) == Offset(row - 1, w) + w;
      assert Offset(row, stride) == Offset(row - 1, stride) + stride;
      AppendIndex(first, rest, Offset(row - 1, w) + col);
    } else {
      assert Offset(row, w) == 0 && Offset(row, stride) == 0;
      assert (first + rest)[col] == first[col];
    }
  }

  lemma AppendIndex(a: seq<Color>, b: seq<Color>, i: nat)
    requires i < |b|
    ensures (a + b)[|a| + i] == b[i]
  {
  }

  /** The rows of a rectangle inside an image oldW wide and n >= oldW * oldH pixels long fit. */
  lemma {:induction false} RectRowsFit(n: nat, oldW: nat, oldH: nat, left: nat, w: nat, r: nat, h: nat)
    requires r + h <= oldH && left + w <= oldW && oldW * oldH <= n
    ensures RowsFit(n, oldW, r * oldW + left, w, h)
    decreases h
  {
    if h > 0 {
      RowsInside(r + 1, oldW, oldH);
      NextRow(r, oldW);
      RectRowsFit(n, oldW, oldH, left, w, r + 1, h - 1);
      assert (r + 1) * oldW + left == r * oldW + left + oldW;
    }
  }

  lemma RowsInside(rows: nat, oldW: nat, oldH: nat)
    requires rows <= oldH
    ensures rows * oldW <= oldW * oldH
  {
    MulMono(rows, oldH, oldW);
  }

  lemma MulMono(a: nat, b: nat, w: nat)
    requires a <= b
    ensures a * w <= b * w
  {
  }

  lemma NextRow(row: nat, width: nat)
    ensures (row + 1) * width == row * width + width
  {
  }

  /** The clip reads only the rows, so it is the same on any array that holds them. */
  lemma {:induction false} ClippedPrefix(s: seq<Color>, t: seq<Color>, stride: nat, start: nat, w: nat, h: nat)
    requires RowsFit(|t|, stride, start, w, h) && |t| <= |s| && t == s[..|t|]
    ensures RowsFit(|s|, stride, start, w, h)
    ensures Clipped(s, stride, start, w, h) == Clipped(t, stride, start, w, h)
    decreases h
  {
    if h > 0 {
      ClippedPrefix(s, t, stride, start + stride, w, h - 1);
      assert s[start..start + w] == t[start..start + w];
    }
  }

  /**
   * ClipScreenshot: for a non-empty rectangle inside the image, the array
   * becomes the rectangle's rows, newWidth pixels each, one after another
   * (truncated to newWidth * newHeight elements), and the size becomes the
   * rectangle's; an empty rectangle leaves the array and the size as they were.
   */
  method ClipScreenshot(oldW: int, oldH: int, rect: Rect, bitmap: Bitmap) returns (newW: int, newH: int)
    requires bitmap.Valid()
    requires !rect.IsEmpty() ==> Inside(oldW, oldH, rect, bitmap.num)
    modifies bitmap, bitmap.data
    ensures bitmap.Valid() && bitmap.data == old(bitmap.data)
    ensures rect.IsEmpty() ==>
      newW == oldW && newH == oldH && bitmap.num == old(bitmap.num) && bitmap.data[..] == old(bitmap.data[..])
    ensures !rect.IsEmpty() ==>
      newW == rect.Width() && newH == rect.Height() && oldW >= 0 &&
      RowsFit(|old(bitmap.Pixels())|, oldW, rect.minY * oldW + rect.minX, newW, newH) &&
      bitmap.Pixels() == Clipped(old(bitmap.Pixels()), oldW, rect.minY * oldW + rect.minX, newW, newH)
  {
    newW, newH := oldW, oldH;
    if rect.IsEmpty() {
      return;
    }
    var a := bitmap.data;
    ghost var pixels := bitmap.Pixels();
    var width, height, top, left := rect.Width(), rect.Height(), rect.minY, rect.minX;
    RectRowsFit(|pixels|, oldW, oldH, left, width, top, height);
    ClippedPrefix(a[..], pixels, oldW, top * oldW + left, width, height);
    var copied := CopyRows(a, oldW, top * oldW + left, width, height);
    ClippedLength(pixels, oldW, top * oldW + left, width, height);
    bitmap.num := width * height;
    assert bitmap.Pixels() == a[..copied];
    newW, newH := width, height;
  }

  /**
   * The copy loop of ClipScreenshot: row by row, each Memmove brings the
   * next row of the rectangle (src, which advances by OldWidth) to the end
   * of the rows already moved (dst, which advances by NewWidth).
   */
  method CopyRows(a: array<Color>, stride: nat, first: nat, width: nat, height: nat) returns (dst: nat)
    requires width <= stride && RowsFit(a.Length, stride, first, width, height)
    modifies a
    ensures dst <= a.Length && a[..dst] == Clipped(old(a[..]), stride, first, width, height)
  {
    ghost var s := a[..];
    ghost var total := Clipped(s, stride, first, width, height);
    var rows: nat, src: nat := height, first;
    dst := 0;
    assert a[..0] + total == total && a[0..] == s[0..];
    while rows > 0
      invariant Copying(a[..], s, total, stride, src, dst, width, rows)
    {
      MoveRow(a, s, total, stride, src, dst, width, rows);
      rows, dst, src := rows - 1, dst + width, src + stride;
    }
  }

  /**
   * The state of the copy loop: `rows` rows of the rectangle are still to
   * move, the next from src; those moved so far fill cur[..dst], and cur
   * is the original image from dst on.
   */
  ghost predicate Copying(cur: seq<Color>, s: seq<Color>, total: seq<Color>,
                          stride: nat, src: nat, dst: nat, w: nat, rows: nat)
  {
    dst <= src && dst <= |cur| == |s| && w <= stride && RowsFit(|s|, stride, src, w, rows) &&
    cur[..dst] + Clipped(s, stride, src, w, rows) == total && cur[dst..] == s[dst..]
  }

  /** One pass of the copy loop: the Memmove of the next row, and the loop's invariant kept. */
  method MoveRow(a: array<Color>, ghost s: seq<Color>, ghost total: seq<Color>,
                 stride: nat, src: nat, dst: nat, w: nat, rows: nat)
    requires rows > 0 && Copying(a[..], s, total, stride, src, dst, w, rows)
    modifies a
    ensures Copying(a[..], s, total, stride, src + stride, dst + w, w, rows - 1)
  {
    ghost var before := a[..];
    Memmove(a, dst, src, w);
    ClipStep(s, before, a[..], total, stride, src, dst, w, rows);
  }

  lemma {:induction false} ClippedLength(s: seq<Color>, stride: nat, start: nat, w: nat, h: nat)
    requires RowsFit(|s|, stride, start, w, h)
    ensures |Clipped(s, stride, start, w, h)| == w * h
    decreases h
  {
    if h > 0 {
      ClippedLength(s, stride, start + stride, w, h - 1);
      NextRow(h - 1, w);
    }
  }

  /** One Memmove of the copy loop moves the next row onto the end of the rows already moved. */
  lemma ClipStep(s: seq<Color>, before: seq<Color>, after: seq<Color>, total: seq<Color>,
                 stride: nat, src: nat, dst: nat, w: nat, h: nat)
    requires |before| == |s| && dst <= src && h > 0 && w <= stride
    requires RowsFit(|s|, stride, src, w, h)
    requires before[..dst] + Clipped(s, stride, src, w, h) == total
    requires before[dst..] == s[dst..]
    requires after == Moved(before, dst, src, w)
    ensures dst + w <= src + stride && dst + w <= |after| == |s|
    ensures RowsFit(|s|, stride, src + stride, w, h - 1)
    ensures after[..dst + w] + Clipped(s, stride, src + stride, w, h - 1) == total
    ensures after[dst + w..] == s[dst + w..]
  {
    MovedMeaning(before, dst, src, w);
    assert before[src..src + w] == s[src..src + w] by {
      assert before[src..src + w] == before[dst..][src - dst..src - dst + w];
      assert s[src..src + w] == s[dst..][src - dst..src - dst + w];
    }
    assert after[..dst + w] == after[..dst] + after[dst..dst + w];
    assert after[dst + w..] == before[dst..][w..];
  }

  // ---------------------------------------------------------------------------
  // Forcing alpha

  function Opaque(c: Color): (o: Color)
  {
    c.(a := 255)
  }

  /** The loops `color.A = 255` over a captured bitmap: every pixel keeps its colour and becomes opaque. */
  method ForceOpaque(bitmap: Bitmap)
    requires bitmap.Valid()
    modifies bitmap.data
    ensures bitmap.Valid() && |bitmap.Pixels()| == |old(bitmap.Pixels())|
    ensures forall k :: 0 <= k < bitmap.num ==> bitmap.data[k] == Opaque(old(bitmap.data[k]))
    ensures bitmap.data[bitmap.num..] == old(bitmap.data[bitmap.num..])
  {
    var a := bitmap.data;
    var i := 0;
    while i < bitmap.num
      invariant 0 <= i <= bitmap.num
      invariant forall k :: 0 <= k < i ==> a[k] == Opaque(old(a[k]))
      invariant forall k :: i <= k < a.Length ==> a[k] == old(a[k])
    {
      a[i] := Opaque(a[i]);
      i := i + 1;
    }
  }

  /** Forcing alpha twice is forcing it once, and only the alpha channel changes. */
  lemma OpaqueIdempotent(c: Color)
    ensures Opaque(Opaque(c)) == Opaque(c)
    ensures Opaque(c).a == 255 && Opaque(c).r == c.r && Opaque(c).g == c.g && Opaque(c).b == c.b
  {
  }

  /**
   * GetRenderTargetScreenShot after ReadPixels: when the read succeeds the
   * pixels are forced opaque and true is returned; otherwise nothing is done.
   */
  method RenderTargetScreenShot(readSucceeded: bool, bitmap: Bitmap) returns (ok: bool)
    requires bitmap.Valid()
    modifies bitmap.data
    ensures ok == readSucceeded && bitmap.Valid()
    ensures forall k :: 0 <= k < bitmap.num ==>
      bitmap.data[k] == if ok then Opaque(old(bitmap.data[k])) else old(bitmap.data[k])
  {
    ok := false;
    if readSucceeded {
      ForceOpaque(bitmap);
      ok := true;
    }
  }
}
