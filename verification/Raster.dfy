/**
 The software rasteriser of `wlcommon::shm`: BGRA byte rows, clipping, and
 integer source-over blending.

 A picture operation is specified by a `Layer`: which pixels it inks, and with
 which colour and alpha.  `Painted` blends a layer into a byte buffer once; it
 is the meaning every painting loop of the project is proved against.
 */
module Raster {
  import opened Wrappers

  const I32_MAX := 0x7fff_ffff
  const I32_MIN := -0x8000_0000
  const U32_SIZE := 0x1_0000_0000

  type u8 = x: int | 0 <= x < 256
  type u32 = x: int | 0 <= x < U32_SIZE
  type i32 = x: int | I32_MIN <= x <= I32_MAX

  datatype Color = Color(r: u8, g: u8, b: u8, a: u8)

  // A row-major buffer of h rows of w four-byte pixels, `stride` bytes a row.
  datatype Geometry = Geometry(stride: nat, w: u32, h: u32)

  // What the painters demand of their callers.
  predicate Fits(g: Geometry, len: nat) {
    && g.w <= I32_MAX && g.h <= I32_MAX
    && 4 * g.w <= g.stride
    && g.stride * g.h <= len
  }

  // The `as i32` cast of a u32.
  function AsI32(x: u32): i32 {
    if x <= I32_MAX then x else x - U32_SIZE
  }

  function SaturatingAdd(x: i32, y: i32): i32 {
    if x + y > I32_MAX then I32_MAX else if x + y < I32_MIN then I32_MIN else x + y
  }

  function Min(x: int, y: int): int { if x <= y then x else y }
  function Max(x: int, y: int): int { if x <= y then y else x }

  // ---------- blending one byte ----------

  lemma MulLe(x: int, y: int, k: nat)
    requires x <= y
    ensures x * k <= y * k
  {}

  lemma {:induction false} BlendBounds(dst: u8, src: u8, a: u8)
    ensures 255 * Min(dst, src) <= dst * (255 - a) + src * a <= 255 * Max(dst, src)
  {
    var lo, hi := Min(dst, src), Max(dst, src);
    MulLe(lo, dst, 255 - a); MulLe(lo, src, a);
    MulLe(dst, hi, 255 - a); MulLe(src, hi, a);
    assert lo * (255 - a) + lo * a == 255 * lo;
    assert hi * (255 - a) + hi * a == 255 * hi;
  }

  // (dst * (255 - a) + src * a) / 255: the result lies between its two inputs,
  // so the cast back to a byte loses nothing.
  function BlendByte(dst: u8, src: u8, a: u8): (v: u8)
    ensures Min(dst, src) <= v <= Max(dst, src)
  {
    BlendBounds(dst, src, a);
    (dst * (255 - a) + src * a) / 255
  }

  // The opaque fast path stores what the general path would compute.
  lemma OpaqueIsSource(dst: u8, src: u8)
    ensures BlendByte(dst, src, 255) == src
  {}

  // ---------- layers of blends on one byte ----------

  datatype Blend = Blend(src: u8, a: u8)

  function Stack(d: u8, ls: seq<Blend>): u8 {
    if ls == [] then d
    else var l := ls[|ls| - 1]; BlendByte(Stack(d, ls[..|ls| - 1]), l.src, l.a)
  }

  // Porter-Duff source-over without rounding.
  function ExactOver(e: real, l: Blend): real {
    (e * (255 - l.a) as real + (l.src * l.a) as real) / 255.0
  }

  function ExactStack(d: u8, ls: seq<Blend>): real {
    if ls == [] then d as real
    else ExactOver(ExactStack(d, ls[..|ls| - 1]), ls[|ls| - 1])
  }

  lemma FloorOver(d: u8, l: Blend)
    ensures ExactOver(d as real, l) - 1.0 < BlendByte(d, l.src, l.a) as real <= ExactOver(d as real, l)
  {}

  lemma MulBounds(d: real, k: real)
    requires 0.0 <= d && 0.0 <= k <= 255.0
    ensures 0.0 <= d * k <= d * 255.0
  {}

  lemma ExactOverMonotone(x: real, y: real, slack: real, l: Blend)
    requires 0.0 <= slack && y - slack <= x <= y
    ensures ExactOver(y, l) - slack <= ExactOver(x, l) <= ExactOver(y, l)
  {
    var k := (255 - l.a) as real;
    MulBounds(y - x, k);
    assert y * k - x * k == (y - x) * k;
  }

  // n blends never exceed exact compositing and fall short of it by less than n.
  lemma {:induction false} StackBound(d: u8, ls: seq<Blend>)
    ensures Stack(d, ls) as real <= ExactStack(d, ls)
    ensures ls != [] ==> ExactStack(d, ls) - |ls| as real < Stack(d, ls) as real
    ensures ls == [] ==> Stack(d, ls) as real == ExactStack(d, ls)
  {
    if ls != [] {
      var init, l := ls[..|ls| - 1], ls[|ls| - 1];
      StackBound(d, init);
      ExactOverMonotone(Stack(d, init) as real, ExactStack(d, init), |init| as real, l);
      FloorOver(Stack(d, init), l);
      assert |ls| as real == |init| as real + 1.0;
    }
  }

  // Every intermediate byte stays within the range of the inputs.
  lemma {:induction false} StackRange(d: u8, ls: seq<Blend>, lo: u8, hi: u8)
    requires lo <= d <= hi
    requires forall l :: l in ls ==> lo <= l.src <= hi
    ensures lo <= Stack(d, ls) <= hi
  {
    if ls != [] {
      StackRange(d, ls[..|ls| - 1], lo, hi);
      assert ls[|ls| - 1] in ls;
    }
  }

  // ---------- layers on a picture ----------

  type Layer = (int, int) -> Option<Color>

  function BlendChannel(old_: u8, c: Color, k: int): u8 {
    if k == 0 then BlendByte(old_, c.b, c.a)
    else if k == 1 then BlendByte(old_, c.g, c.a)
    else if k == 2 then BlendByte(old_, c.r, c.a)
    else 255
  }

  // Which channel of which pixel byte i holds.
  datatype Place = Outside | At(x: nat, y: nat, k: nat)

  function PlaceOf(g: Geometry, i: nat): Place {
    if g.stride == 0 || i % g.stride / 4 >= g.w || i / g.stride >= g.h then Outside
    else At(i % g.stride / 4, i / g.stride, i % g.stride % 4)
  }

  function PaintByte(layer: Layer, place: Place, before: u8): u8 {
    match place
    case Outside => before
    case At(x, y, k) => if layer(x, y).Some? then BlendChannel(before, layer(x, y).value, k) else before
  }

  function Painted(p: seq<u8>, g: Geometry, layer: Layer): (q: seq<u8>)
    ensures |q| == |p|
    ensures forall i :: 0 <= i < |p| ==> q[i] == PaintByte(layer, PlaceOf(g, i), p[i])
  {
    seq(|p|, i requires 0 <= i < |p| => PaintByte(layer, PlaceOf(g, i), p[i]))
  }

  lemma RowOf(stride: nat, y: nat, r: nat)
    requires r < stride
    ensures (y * stride + r) / stride == y && (y * stride + r) % stride == r
  {
    var i := y * stride + r;
    var q := i / stride;
    assert i == q * stride + i % stride;
    if q < y { MulLe(q + 1, y, stride); }
    if q > y { MulLe(y + 1, q, stride); }
  }

  // Pixel (x, y) is the four bytes from here.
  function Offset(g: Geometry, x: nat, y: nat): nat { y * g.stride + x * 4 }

  lemma PixelBytes(g: Geometry, x: nat, y: nat, i: nat)
    requires 4 * g.w <= g.stride && x < g.w && y < g.h
    ensures PlaceOf(g, i).At? && PlaceOf(g, i).x == x && PlaceOf(g, i).y == y
       <==> Offset(g, x, y) <= i < Offset(g, x, y) + 4
    ensures Offset(g, x, y) <= i < Offset(g, x, y) + 4 ==> PlaceOf(g, i) == At(x, y, i - Offset(g, x, y))
  {
    var b := Offset(g, x, y);
    if b <= i < b + 4 {
      RowOf(g.stride, y, i - y * g.stride);
    }
  }

  // Pixels of the buffer are in bounds.
  lemma PixelInBounds(g: Geometry, len: nat, x: nat, y: nat)
    requires Fits(g, len) && x < g.w && y < g.h
    ensures Offset(g, x, y) + 4 <= len
  {
    MulLe(y + 1, g.h, g.stride);
    assert (y + 1) * g.stride == y * g.stride + g.stride;
  }

  // Every inked pixel is blended once, to an opaque alpha; the others keep
  // their bytes.
  lemma PaintedPixel(p: seq<u8>, g: Geometry, layer: Layer, x: nat, y: nat)
    requires Fits(g, |p|) && x < g.w && y < g.h
    ensures var b := Offset(g, x, y); var q := Painted(p, g, layer);
      && b + 4 <= |p|
      && match layer(x, y)
         case None => q[b..b + 4] == p[b..b + 4]
         case Some(c) => q[b..b + 4] == [BlendByte(p[b], c.b, c.a), BlendByte(p[b + 1], c.g, c.a),
                                         BlendByte(p[b + 2], c.r, c.a), 255]
  {
    PixelInBounds(g, |p|, x, y);
    var b := Offset(g, x, y);
    PixelBytes(g, x, y, b);
    PixelBytes(g, x, y, b + 1);
    PixelBytes(g, x, y, b + 2);
    PixelBytes(g, x, y, b + 3);
    hide PlaceOf, BlendByte;
    assert PlaceOf(g, b) == At(x, y, 0) && PlaceOf(g, b + 1) == At(x, y, 1);
  }

  // Row padding and bytes after the last row are never touched.
  lemma PaintedPadding(p: seq<u8>, g: Geometry, layer: Layer, i: nat)
    requires Fits(g, |p|) && i < |p|
    requires g.stride == 0 || i % g.stride >= 4 * g.w || i >= g.stride * g.h
    ensures Painted(p, g, layer)[i] == p[i]
  {
    if g.stride > 0 && i >= g.stride * g.h {
      var q := i / g.stride;
      assert i == q * g.stride + i % g.stride;
      if q < g.h { MulLe(q + 1, g.h, g.stride); }
    }
  }

  // ---------- many layers on a picture ----------

  function PaintedAll(p: seq<u8>, g: Geometry, layers: seq<Layer>): (q: seq<u8>)
    ensures |q| == |p|
  {
    if layers == [] then p else Painted(PaintedAll(p, g, layers[..|layers| - 1]), g, layers[|layers| - 1])
  }

  // Blue, green or red.
  function Channel(c: Color, k: nat): u8 { if k == 0 then c.b else if k == 1 then c.g else c.r }

  function InkBlend(ink: Option<Color>, k: nat): seq<Blend> {
    if ink.Some? then [Blend(Channel(ink.value, k), ink.value.a)] else []
  }

  // The blends that reach channel k of pixel (x, y), in order.
  function Hits(layers: seq<Layer>, x: nat, y: nat, k: nat): (bs: seq<Blend>)
    ensures |bs| <= |layers|
  {
    if layers == [] then []
    else
      var ink := layers[|layers| - 1](x, y);
      Hits(layers[..|layers| - 1], x, y, k) + InkBlend(ink, k)
  }

  lemma {:induction false} LayersStack(p: seq<u8>, g: Geometry, layers: seq<Layer>, i: nat, x: nat, y: nat, k: nat)
    requires i < |p| && PlaceOf(g, i) == At(x, y, k) && k < 3
    ensures PaintedAll(p, g, layers)[i] == Stack(p[i], Hits(layers, x, y, k))
  {
    hide PlaceOf, BlendByte;
    if layers != [] {
      var init, last := layers[..|layers| - 1], layers[|layers| - 1];
      LayersStack(p, g, init, i, x, y, k);
      var bs, before := Hits(init, x, y, k), PaintedAll(p, g, init);
      assert PaintedAll(p, g, layers)[i] == PaintByte(last, At(x, y, k), before[i]);
      assert Hits(layers, x, y, k) == bs + InkBlend(last(x, y), k);
      hide PaintedAll, Hits, Painted;
      StackNext(p[i], bs, last(x, y), k);
    }
  }

  lemma StackNext(d: u8, bs: seq<Blend>, ink: Option<Color>, k: nat)
    requires k < 3
    ensures Stack(d, bs + InkBlend(ink, k)) == if ink.Some? then BlendChannel(Stack(d, bs), ink.value, k) else Stack(d, bs)
  {
    hide BlendByte;
    if ink.Some? {
      var b := Blend(Channel(ink.value, k), ink.value.a);
      assert (bs + [b])[..|bs|] == bs;
    } else {
      assert bs + [] == bs;
    }
  }

  lemma PlaceOfChannel(g: Geometry, len: nat, x: nat, y: nat, k: nat)
    requires Fits(g, len) && x < g.w && y < g.h && k < 4
    ensures Offset(g, x, y) + k < len && PlaceOf(g, Offset(g, x, y) + k) == At(x, y, k)
  {
    PixelInBounds(g, len, x, y);
    PixelBytes(g, x, y, Offset(g, x, y) + k);
  }

  // Every colour byte of the buffer, after any layers painted over each other,
  // is exact while no blend reached it, and below exact compositing by less
  // than one step a blend after that.
  lemma LayersBound(p: seq<u8>, g: Geometry, layers: seq<Layer>, x: nat, y: nat, k: nat)
    requires Fits(g, |p|) && x < g.w && y < g.h && k < 3
    ensures var i := Offset(g, x, y) + k; var bs := Hits(layers, x, y, k);
      && i < |p|
      && PaintedAll(p, g, layers)[i] as real <= ExactStack(p[i], bs)
      && (bs != [] ==> ExactStack(p[i], bs) - |bs| as real < PaintedAll(p, g, layers)[i] as real)
      && (bs == [] ==> PaintedAll(p, g, layers)[i] == p[i])
  {
    hide PaintedAll, Hits, ExactStack, PlaceOf, Offset, BlendByte;
    PlaceOfChannel(g, |p|, x, y, k);
    var i := Offset(g, x, y) + k;
    LayersStack(p, g, layers, i, x, y, k);
    StackBound(p[i], Hits(layers, x, y, k));
  }

  // And it stays in the range of the colours that reached it.
  lemma LayersRange(p: seq<u8>, g: Geometry, layers: seq<Layer>, x: nat, y: nat, k: nat, lo: u8, hi: u8)
    requires Fits(g, |p|) && x < g.w && y < g.h && k < 3
    ensures var i := Offset(g, x, y) + k;
      && i < |p|
      && (lo <= p[i] <= hi && (forall b :: b in Hits(layers, x, y, k) ==> lo <= b.src <= hi)
          ==> lo <= PaintedAll(p, g, layers)[i] <= hi)
  {
    hide PaintedAll, Hits, Stack, PlaceOf, Offset;
    PlaceOfChannel(g, |p|, x, y, k);
    var i := Offset(g, x, y) + k;
    LayersStack(p, g, layers, i, x, y, k);
    if lo <= p[i] <= hi && forall b :: b in Hits(layers, x, y, k) ==> lo <= b.src <= hi {
      StackRange(p[i], Hits(layers, x, y, k), lo, hi);
    }
  }

  // ---------- loops that paint pixel by pixel ----------

  // The part of a layer that precedes pixel (x, y) in row-major order.
  function UpTo(layer: Layer, x: int, y: int): Layer {
    (px: int, py: int) => if py < y || (py == y && px < x) then layer(px, py) else None
  }

  ghost predicate PaintedUpTo(before: seq<u8>, now: seq<u8>, g: Geometry, layer: Layer, x: int, y: int) {
    now == Painted(before, g, UpTo(layer, x, y))
  }

  // Layers that agree on the buffer paint the same picture.
  lemma PaintedAgree(p: seq<u8>, g: Geometry, l: Layer, m: Layer)
    requires forall x: nat, y: nat :: x < g.w && y < g.h ==> l(x, y) == m(x, y)
    ensures Painted(p, g, l) == Painted(p, g, m)
  {}

  lemma PaintNothing(p: seq<u8>, g: Geometry, layer: Layer)
    requires forall x: nat, y: nat :: x < g.w && y < g.h ==> layer(x, y) == None
    ensures Painted(p, g, layer) == p
  {}

  // The four bytes from b on blended with c.
  ghost predicate PixelBlended(mid: seq<u8>, now: seq<u8>, b: nat, c: Color) {
    && |now| == |mid| && b + 4 <= |mid|
    && forall i :: 0 <= i < |mid| ==> now[i] == if b <= i < b + 4 then BlendChannel(mid[i], c, i - b) else mid[i]
  }

  // Blending one inked pixel advances the frontier by one.
  lemma PutPixel(before: seq<u8>, mid: seq<u8>, now: seq<u8>, g: Geometry, layer: Layer, x: nat, y: nat, b: nat)
    requires 4 * g.w <= g.stride && x < g.w && y < g.h && b == Offset(g, x, y)
    requires PaintedUpTo(before, mid, g, layer, x, y)
    requires layer(x, y).Some? && PixelBlended(mid, now, b, layer(x, y).value)
    ensures PaintedUpTo(before, now, g, layer, x + 1, y)
  {
    forall i: nat | i < |now| ensures now[i] == Painted(before, g, UpTo(layer, x + 1, y))[i] {
      PutByte(before, mid, now, g, layer, x, y, b, i);
    }
  }

  lemma PutByte(before: seq<u8>, mid: seq<u8>, now: seq<u8>, g: Geometry, layer: Layer, x: nat, y: nat, b: nat, i: nat)
    requires 4 * g.w <= g.stride && x < g.w && y < g.h && b == Offset(g, x, y)
    requires PaintedUpTo(before, mid, g, layer, x, y)
    requires layer(x, y).Some? && PixelBlended(mid, now, b, layer(x, y).value) && i < |now|
    ensures now[i] == Painted(before, g, UpTo(layer, x + 1, y))[i]
  {
    hide PlaceOf, BlendChannel;
    PixelBytes(g, x, y, i);
  }

  // Two layers without a common pixel can be painted as one.
  function Over(l: Layer, m: Layer): Layer {
    (x: int, y: int) => if m(x, y).Some? then m(x, y) else l(x, y)
  }

  lemma PaintDisjoint(p: seq<u8>, g: Geometry, l: Layer, m: Layer)
    requires forall x: nat, y: nat :: x < g.w && y < g.h ==> l(x, y) == None || m(x, y) == None
    ensures Painted(Painted(p, g, l), g, m) == Painted(p, g, Over(l, m))
  {}

  // ---------- fill_rect ----------

  function Rect(x: int, y: int, w: int, h: int, c: Color): Layer {
    (px: int, py: int) => if x <= px < x + w && y <= py < y + h then Some(c) else None
  }

  // `w` and `h` reach the clipper through `as i32`, so a size past i32::MAX
  // becomes negative and paints nothing; every other size is the plain
  // intersection of rectangle and buffer.
  method FillRect(pixels: array<u8>, g: Geometry, x: i32, y: i32, w: u32, h: u32, c: Color)
    requires Fits(g, pixels.Length)
    modifies pixels
    ensures pixels[..] == Painted(old(pixels[..]), g, Rect(x, y, AsI32(w), AsI32(h), c))
  {
    var x0: nat := Max(x, 0);
    var y0: nat := Max(y, 0);
    var x1: nat := Max(Min(SaturatingAdd(x, AsI32(w)), g.w), 0);
    var y1: nat := Max(Min(SaturatingAdd(y, AsI32(h)), g.h), 0);
    ghost var was := pixels[..];
    ghost var layer := Rect(x, y, AsI32(w), AsI32(h), c);
    if x0 >= x1 || y0 >= y1 {
      PaintNothing(was, g, layer);
      return;
    }
    PaintNothing(was, g, UpTo(layer, x0, y0));
    var py := y0;
    while py < y1
      invariant y0 <= py <= y1
      invariant PaintedUpTo(was, pixels[..], g, layer, x0, py)
    {
      FillRow(pixels, g, x0, x1, py, c, was, layer);
      PaintedAgree(was, g, UpTo(layer, x1, py), UpTo(layer, x0, py + 1));
      py := py + 1;
    }
    PaintedAgree(was, g, UpTo(layer, x0, py), layer);
  }

  // One row of the fill: the opaque fast path and the blending path.
  method FillRow(pixels: array<u8>, g: Geometry, x0: nat, x1: nat, py: nat, c: Color, ghost was: seq<u8>, ghost layer: Layer)
    requires Fits(g, pixels.Length) && x0 <= x1 <= g.w && py < g.h && |was| == pixels.Length
    requires forall px :: x0 <= px < x1 ==> layer(px, py) == Some(c)
    requires PaintedUpTo(was, pixels[..], g, layer, x0, py)
    modifies pixels
    ensures PaintedUpTo(was, pixels[..], g, layer, x1, py)
  {
    var row := py * g.stride;
    var px := x0;
    while px < x1
      invariant x0 <= px <= x1
      invariant PaintedUpTo(was, pixels[..], g, layer, px, py)
    {
      PixelInBounds(g, pixels.Length, px, py);
      var i := row + px * 4;
      ghost var mid := pixels[..];
      BlendPixel(pixels, i, c);
      PutPixel(was, mid, pixels[..], g, layer, px, py, i);
      px := px + 1;
    }
  }

  method BlendPixel(pixels: array<u8>, i: nat, c: Color)
    requires i + 4 <= pixels.Length
    modifies pixels
    ensures PixelBlended(old(pixels[..]), pixels[..], i, c)
  {
    hide BlendByte;
    if c.a == 255 {
      OpaqueIsSource(pixels[i], c.b);
      OpaqueIsSource(pixels[i + 1], c.g);
      OpaqueIsSource(pixels[i + 2], c.r);
      pixels[i] := c.b;
      pixels[i + 1] := c.g;
      pixels[i + 2] := c.r;
      pixels[i + 3] := 255;
    } else {
      pixels[i] := BlendByte(pixels[i], c.b, c.a);
      pixels[i + 1] := BlendByte(pixels[i + 1], c.g, c.a);
      pixels[i + 2] := BlendByte(pixels[i + 2], c.r, c.a);
      pixels[i + 3] := 255;
    }
  }

  // A clipped pixel is inked exactly when it is in the rectangle and the
  // sizes survived the cast.
  lemma FillRectClips(x: i32, y: i32, w: u32, h: u32, c: Color, px: nat, py: nat)
    ensures Rect(x, y, AsI32(w), AsI32(h), c)(px, py).Some?
        <==> x <= px < x + w && y <= py < y + h && w <= I32_MAX && h <= I32_MAX
  {}

  // ---------- clear ----------

  // The colour, alpha included, in every whole pixel; up to three trailing
  // bytes keep their value.
  ghost predicate Cleared(before: seq<u8>, after: seq<u8>, c: Color) {
    && |after| == |before|
    && forall i :: 0 <= i < |before| ==>
      after[i] == if i - i % 4 + 3 < |before| then [c.b, c.g, c.r, c.a][i % 4] else before[i]
  }

  // Every whole pixel is blue, green, red, alpha; up to three bytes behind the
  // last one stay.
  lemma ClearedPixel(before: seq<u8>, after: seq<u8>, c: Color, n: nat)
    requires Cleared(before, after, c)
    ensures |after| == |before|
    ensures 4 * n + 4 <= |before| ==> after[4 * n..4 * n + 4] == [c.b, c.g, c.r, c.a]
    ensures |before| / 4 * 4 <= n < |before| ==> after[n] == before[n]
  {
    if 4 * n + 4 <= |before| {
      assert (4 * n) % 4 == 0 && (4 * n + 1) % 4 == 1 && (4 * n + 2) % 4 == 2 && (4 * n + 3) % 4 == 3;
      assert after[4 * n..4 * n + 4] == [after[4 * n], after[4 * n + 1], after[4 * n + 2], after[4 * n + 3]];
    }
  }

  method Clear(pixels: array<u8>, c: Color)
    modifies pixels
    ensures Cleared(old(pixels[..]), pixels[..], c)
  {
    var i := 0;
    while i + 3 < pixels.Length
      invariant 0 <= i <= pixels.Length && i % 4 == 0
      invariant forall j :: 0 <= j < pixels.Length ==>
        pixels[j] == if j < i then [c.b, c.g, c.r, c.a][j % 4] else old(pixels[j])
    {
      pixels[i] := c.b;
      pixels[i + 1] := c.g;
      pixels[i + 2] := c.r;
      pixels[i + 3] := c.a;
      i := i + 4;
    }
  }
}
