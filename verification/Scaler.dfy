/**
 The greeter's background: a centre crop of the image with the aspect ratio of
 the output, sampled to fill it.  Aspect ratios are exact rationals.
 */
module Scaler {
  import opened Wrappers
  import opened Raster

  // RGBA bytes, row by row.
  datatype Image = Image(width: u32, height: u32, pixels: seq<u8>)

  // What the image decoder delivers, and the size up to which the u32 index
  // arithmetic of `sample` is exact.
  predicate Loaded(bg: Image) {
    && bg.width > 0 && bg.height > 0
    && |bg.pixels| == bg.width * bg.height * 4
    && |bg.pixels| <= U32_SIZE
  }

  const BLACK := Color(0, 0, 0, 255)

  // Clamped lookup with 32-bit indexing; black outside the pixel vector.
  function Sample(bg: Image, x: nat, y: nat): Color {
    if bg.width == 0 || bg.height == 0 then BLACK
    else
      var sx, sy := Min(x, bg.width - 1), Min(y, bg.height - 1);
      var idx := ((sy * bg.width + sx) * 4) % U32_SIZE;
      if idx + 3 >= |bg.pixels| then BLACK
      else Color(bg.pixels[idx], bg.pixels[idx + 1], bg.pixels[idx + 2], bg.pixels[idx + 3])
  }

  // Nearest integer to n / d, halves up.
  function RoundDiv(n: nat, d: nat): nat
    requires d > 0
  {
    (2 * n + d) / (2 * d)
  }

  datatype Crop = Crop(x: nat, y: nat, w: nat, h: nat)

  function CropOf(bw: nat, bh: nat, iw: nat, ih: nat): Crop
    requires bw > 0 && bh > 0
  {
    var (cw, ch) :=
      if iw * bh > bw * ih then (Max(RoundDiv(ih * bw, bh), 1), ih)
      else (iw, Max(RoundDiv(iw * bh, bw), 1));
    Crop(Max(iw - cw, 0) / 2, Max(ih - ch, 0) / 2, cw, ch)
  }

  lemma RoundDivNear(n: nat, d: nat)
    requires d > 0
    ensures 2 * n - d <= 2 * (RoundDiv(n, d) * d) <= 2 * n + d
  {
    var q := RoundDiv(n, d);
    assert 2 * n + d == q * (2 * d) + (2 * n + d) % (2 * d);
    assert q * (2 * d) == 2 * (q * d);
  }

  lemma RoundDivAtMost(n: nat, d: nat, m: nat)
    requires d > 0 && n <= m * d
    ensures RoundDiv(n, d) <= m
  {
    RoundDivNear(n, d);
    var q := RoundDiv(n, d);
    assert (m + 1) * d == m * d + d;
    if q > m { MulLe(m + 1, q, d); }
  }

  // The nearest integer to n / d, halves up, is the q with q - 1/2 <= n / d
  // < q + 1/2.
  lemma RoundDivExact(n: nat, d: nat)
    requires d > 0
    ensures 2 * n - d < 2 * (RoundDiv(n, d) * d) <= 2 * n + d
    ensures RoundDiv(n, d) == 0 <==> 2 * n < d
  {
    var q, r := RoundDiv(n, d), (2 * n + d) % (2 * d);
    assert 2 * n + d == q * (2 * d) + r && r < 2 * d;
    assert q * (2 * d) == 2 * (q * d);
    if q >= 1 { MulLe(1, q, d); }
  }

  // An image wider than the output keeps its full height and is cropped to the
  // width of the same aspect ratio, rounded; any other keeps its full width.
  // Only a width or height that rounds to nothing becomes one pixel.
  lemma CropIs(bw: nat, bh: nat, iw: nat, ih: nat)
    requires bw > 0 && bh > 0 && iw > 0 && ih > 0
    ensures var c := CropOf(bw, bh, iw, ih);
      && (iw * bh > bw * ih ==>
            && c.h == ih
            && (if 2 * (ih * bw) < bh then c.w == 1 else 2 * (ih * bw) - bh < 2 * (c.w * bh) <= 2 * (ih * bw) + bh))
      && (iw * bh <= bw * ih ==>
            && c.w == iw
            && (if 2 * (iw * bh) < bw then c.h == 1 else 2 * (iw * bh) - bw < 2 * (c.h * bw) <= 2 * (iw * bh) + bw))
  {
    RoundDivExact(ih * bw, bh);
    RoundDivExact(iw * bh, bw);
    hide RoundDiv;
  }

  // The crop lies inside the image, spans it fully in one direction, is
  // centred to within one pixel, and keeps the output's aspect ratio to
  // within half a pixel of the other direction, unless that rounds to nothing.
  lemma CropCovers(bw: nat, bh: nat, iw: nat, ih: nat)
    requires bw > 0 && bh > 0 && iw > 0 && ih > 0
    ensures var c := CropOf(bw, bh, iw, ih);
      && 1 <= c.w && c.x + c.w <= iw && 1 <= c.h && c.y + c.h <= ih
      && (c.w == iw || c.h == ih)
      && 0 <= (iw - c.x - c.w) - c.x <= 1 && 0 <= (ih - c.y - c.h) - c.y <= 1
      && (|| (c.h == ih && ((c.w == 1 && 2 * (ih * bw) < bh) || 2 * (ih * bw) - bh < 2 * (c.w * bh) <= 2 * (ih * bw) + bh))
          || (c.w == iw && ((c.h == 1 && 2 * (iw * bh) < bw) || 2 * (iw * bh) - bw < 2 * (c.h * bw) <= 2 * (iw * bh) + bw)))
  {
    CropIs(bw, bh, iw, ih);
    if iw * bh > bw * ih {
      assert bw * ih == ih * bw;
      RoundDivNear(ih * bw, bh);
      RoundDivAtMost(ih * bw, bh, iw);
    } else {
      assert bw * ih == ih * bw;
      RoundDivNear(iw * bh, bw);
      RoundDivAtMost(iw * bh, bw, ih);
    }
  }

  // Output coordinate i of n onto source coordinate off .. off + size.
  function SrcCoord(off: nat, size: nat, i: nat, n: nat): nat
    requires n > 0
  {
    off + i * size / n
  }

  // Exactly the floor: source coordinate k covers the outputs i with
  // k <= i * size / n < k + 1.
  lemma SrcCoordExact(off: nat, size: nat, i: nat, n: nat)
    requires n > 0
    ensures var k := SrcCoord(off, size, i, n) - off; 0 <= k && k * n <= i * size < k * n + n
  {
    assert i * size == (i * size / n) * n + i * size % n;
  }

  lemma SrcCoordInside(off: nat, size: nat, i: nat, n: nat)
    requires i < n && size > 0
    ensures off <= SrcCoord(off, size, i, n) < off + size
  {
    var q := i * size / n;
    MulLe(i + 1, n, size);
    assert (i + 1) * size == i * size + size;
    assert i * size == q * n + i * size % n;
    assert size * n == n * size;
    if q >= size { MulLe(size, q, n); }
  }

  lemma SrcCoordMonotone(off: nat, size: nat, i: nat, j: nat, n: nat)
    requires i <= j && n > 0
    ensures SrcCoord(off, size, i, n) <= SrcCoord(off, size, j, n)
  {
    MulLe(i, j, size);
    DivMonotone(i * size, j * size, n);
  }

  lemma DivMonotone(a: nat, b: nat, n: nat)
    requires a <= b && n > 0
    ensures a / n <= b / n
  {
    var p, q := a / n, b / n;
    assert a == p * n + a % n && b == q * n + b % n;
    assert (q + 1) * n == q * n + n;
    if p > q { MulLe(q + 1, p, n); }
  }

  // Where pixel (x, y) starts in the image.
  function ImageIndex(bg: Image, x: nat, y: nat): nat { (y * bg.width + x) * 4 }

  lemma ImageIndexInside(bg: Image, x: nat, y: nat)
    requires Loaded(bg) && x < bg.width && y < bg.height
    ensures ImageIndex(bg, x, y) + 3 < |bg.pixels|
  {
    MulLe(y + 1, bg.height, bg.width);
    assert (y + 1) * bg.width == y * bg.width + bg.width;
  }

  function PixelOf(bg: Image, i: nat): Color
    requires i + 3 < |bg.pixels|
  {
    Color(bg.pixels[i], bg.pixels[i + 1], bg.pixels[i + 2], bg.pixels[i + 3])
  }

  // Inside the image the lookup is exact: no clamping, no wrap, no black.
  lemma SampleExact(bg: Image, x: nat, y: nat)
    requires Loaded(bg) && x < bg.width && y < bg.height
    ensures ImageIndex(bg, x, y) + 3 < |bg.pixels|
    ensures Sample(bg, x, y) == PixelOf(bg, ImageIndex(bg, x, y))
  {
    ImageIndexInside(bg, x, y);
    SmallMod(ImageIndex(bg, x, y), U32_SIZE);
  }

  lemma SmallMod(i: nat, n: nat)
    requires i < n
    ensures i % n == i
  {}

  // The scaled picture: an opaque pixel wherever all four bytes exist.
  function Scene(bg: Image, g: Geometry, len: nat): Layer
    requires g.w > 0 && g.h > 0
  {
    var c := CropOf(g.w, g.h, bg.width, bg.height);
    (x: int, y: int) =>
      if 0 <= x < g.w && 0 <= y < g.h && Offset(g, x, y) + 3 < len
      then Some(Sample(bg, SrcCoord(c.x, c.w, x, g.w), SrcCoord(c.y, c.h, y, g.h)).(a := 255))
      else None
  }

  // Every output pixel's source is inside the crop, hence inside the image.
  lemma ScaledSource(bg: Image, g: Geometry, x: nat, y: nat)
    requires Loaded(bg) && x < g.w && y < g.h
    ensures var c := CropOf(g.w, g.h, bg.width, bg.height);
      && c.x <= SrcCoord(c.x, c.w, x, g.w) < c.x + c.w <= bg.width
      && c.y <= SrcCoord(c.y, c.h, y, g.h) < c.y + c.h <= bg.height
  {
    var c := CropOf(g.w, g.h, bg.width, bg.height);
    CropCovers(g.w, g.h, bg.width, bg.height);
    hide CropOf, SrcCoord;
    SrcCoordInside(c.x, c.w, x, g.w);
    SrcCoordInside(c.y, c.h, y, g.h);
  }

  // Every pixel of a full-size buffer ends up as the opaque image pixel its
  // crop coordinates name.
  lemma ScaledPixel(p: seq<u8>, bg: Image, g: Geometry, x: nat, y: nat)
    requires Fits(g, |p|) && Loaded(bg) && x < g.w && y < g.h
    ensures var c := CropOf(g.w, g.h, bg.width, bg.height);
            var i := ImageIndex(bg, SrcCoord(c.x, c.w, x, g.w), SrcCoord(c.y, c.h, y, g.h));
            var b := Offset(g, x, y);
      && b + 4 <= |p| && i + 3 < |bg.pixels|
      && Painted(p, g, Scene(bg, g, |p|))[b..b + 4] == [bg.pixels[i + 2], bg.pixels[i + 1], bg.pixels[i], 255]
  {
    var c := CropOf(g.w, g.h, bg.width, bg.height);
    var sx, sy := SrcCoord(c.x, c.w, x, g.w), SrcCoord(c.y, c.h, y, g.h);
    PixelInBounds(g, |p|, x, y);
    hide Painted, BlendByte, Sample, CropOf, SrcCoord, Offset, ImageIndex;
    ScaledSource(bg, g, x, y);
    SampleExact(bg, sx, sy);
    var b, s := Offset(g, x, y), Sample(bg, sx, sy);
    assert Scene(bg, g, |p|)(x, y) == Some(s.(a := 255));
    PaintedPixel(p, g, Scene(bg, g, |p|), x, y);
    OpaqueIsSource(p[b], s.b);
    OpaqueIsSource(p[b + 1], s.g);
    OpaqueIsSource(p[b + 2], s.r);
  }

  method PaintScaledBackground(pixels: array<u8>, g: Geometry, bg: Image, clearColor: Color)
    requires 4 * g.w <= g.stride
    modifies pixels
    ensures if g.w == 0 || g.h == 0 || bg.width == 0 || bg.height == 0
      then Cleared(old(pixels[..]), pixels[..], clearColor)
      else pixels[..] == Painted(old(pixels[..]), g, Scene(bg, g, pixels.Length))
  {
    if g.w == 0 || g.h == 0 || bg.width == 0 || bg.height == 0 {
      Clear(pixels, clearColor);
      return;
    }
    var c := CropOf(g.w, g.h, bg.width, bg.height);
    ghost var was, scene := pixels[..], Scene(bg, g, pixels.Length);
    PaintNothing(was, g, UpTo(scene, 0, 0));
    for y := 0 to g.h
      invariant PaintedUpTo(was, pixels[..], g, scene, 0, y)
    {
      hide PaintedUpTo, CropOf;
      var srcY := SrcCoord(c.y, c.h, y, g.h);
      PaintScaledRow(pixels, g, bg, c, y, srcY, was);
      NextRow(was, pixels[..], g, scene, y);
    }
    PaintedAgree(was, g, UpTo(scene, 0, g.h), scene);
  }

  lemma NextRow(was: seq<u8>, now: seq<u8>, g: Geometry, layer: Layer, y: nat)
    requires PaintedUpTo(was, now, g, layer, g.w, y)
    ensures PaintedUpTo(was, now, g, layer, 0, y + 1)
  {
    PaintedAgree(was, g, UpTo(layer, g.w, y), UpTo(layer, 0, y + 1));
  }

  lemma NextCell(was: seq<u8>, now: seq<u8>, g: Geometry, layer: Layer, x: nat, y: nat)
    requires PaintedUpTo(was, now, g, layer, x, y) && layer(x, y) == None
    ensures PaintedUpTo(was, now, g, layer, x + 1, y)
  {
    PaintedAgree(was, g, UpTo(layer, x, y), UpTo(layer, x + 1, y));
  }

  method PaintScaledRow(pixels: array<u8>, g: Geometry, bg: Image, c: Crop, y: nat, srcY: nat, ghost was: seq<u8>)
    requires 4 * g.w <= g.stride && y < g.h && g.w > 0 && |was| == pixels.Length
    requires c == CropOf(g.w, g.h, bg.width, bg.height) && srcY == SrcCoord(c.y, c.h, y, g.h)
    requires PaintedUpTo(was, pixels[..], g, Scene(bg, g, pixels.Length), 0, y)
    modifies pixels
    ensures PaintedUpTo(was, pixels[..], g, Scene(bg, g, pixels.Length), g.w, y)
  {
    ghost var scene := Scene(bg, g, pixels.Length);
    var row := y * g.stride;
    for x := 0 to g.w
      invariant PaintedUpTo(was, pixels[..], g, scene, x, y)
    {
      var srcX := SrcCoord(c.x, c.w, x, g.w);
      var s := Sample(bg, srcX, srcY);
      var idx := row + x * 4;
      assert idx == Offset(g, x, y);
      assert scene(x, y) == if idx + 3 < pixels.Length then Some(s.(a := 255)) else None;
      hide *;
      if idx + 3 >= pixels.Length {
        NextCell(was, pixels[..], g, scene, x, y);
        continue;
      }
      StoreOpaque(pixels, g, x, y, idx, s, scene, was);
    }
  }

  method StoreOpaque(pixels: array<u8>, g: Geometry, x: nat, y: nat, idx: nat, s: Color, ghost scene: Layer, ghost was: seq<u8>)
    requires 4 * g.w <= g.stride && x < g.w && y < g.h && |was| == pixels.Length
    requires idx == Offset(g, x, y) && idx + 3 < pixels.Length && scene(x, y) == Some(s.(a := 255))
    requires PaintedUpTo(was, pixels[..], g, scene, x, y)
    modifies pixels
    ensures PaintedUpTo(was, pixels[..], g, scene, x + 1, y)
  {
    hide PaintedUpTo, Offset;
    ghost var mid := pixels[..];
    pixels[idx] := s.b;
    pixels[idx + 1] := s.g;
    pixels[idx + 2] := s.r;
    pixels[idx + 3] := 255;
    Stored(mid, pixels[..], idx, s);
    PutPixel(was, mid, pixels[..], g, scene, x, y, idx);
  }

  // Storing an opaque pixel is blending it.
  lemma Stored(mid: seq<u8>, now: seq<u8>, b: nat, s: Color)
    requires b + 4 <= |mid| && now == mid[b := s.b][b + 1 := s.g][b + 2 := s.r][b + 3 := 255]
    ensures PixelBlended(mid, now, b, s.(a := 255))
  {
    OpaqueIsSource(mid[b], s.b);
    OpaqueIsSource(mid[b + 1], s.g);
    OpaqueIsSource(mid[b + 2], s.r);
  }
}
