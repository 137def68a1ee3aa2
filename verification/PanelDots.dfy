/**
 The workspace indicator strip of the in-process panel: filled discs and rings
 painted by 1x1 rectangle fills into the panel bitmap.
 */
module PanelDots {
  import opened Wrappers
  import opened Raster

  const DOT_ACTIVE := 8
  const DOT_IDLE := 6
  const DOT_GAP := 10
  const START_X := 60
  const DOTS := 9

  function Square(x: int): (s: int)
    ensures s >= 0
  {
    x * x
  }

  // The pixels whose squared distance from the centre is in (inner2, outer2].
  function Annulus(cx: int, cy: int, outer2: int, inner2: int, c: Color): Layer {
    (px: int, py: int) =>
      if inner2 < Square(px - cx) + Square(py - cy) <= outer2 then Some(c) else None
  }

  function Disc(cx: int, cy: int, r: int, c: Color): Layer { Annulus(cx, cy, Square(r), -1, c) }
  function Ring(cx: int, cy: int, r: int, c: Color): Layer { Annulus(cx, cy, Square(r), Square(r - 1), c) }

  lemma SquareGrows(x: int, r: int)
    requires 0 <= r && (x < -r || x > r)
    ensures Square(x) > Square(r)
  {
    var a := if x < 0 then -x else x;
    assert Square(x) == a * a;
    MulLe(r + 1, a, a);
    MulLe(r + 1, a, r + 1);
  }

  // No ink outside the square of side 2r + 1 around the centre.
  lemma AnnulusInside(cx: int, cy: int, r: int, inner2: int, c: Color, px: int, py: int)
    requires 0 <= r
    ensures Annulus(cx, cy, Square(r), inner2, c)(px, py).Some?
        ==> cx - r <= px <= cx + r && cy - r <= py <= cy + r
  {
    assert Square(px - cx) >= 0 && Square(py - cy) >= 0;
    if px - cx < -r || px - cx > r { SquareGrows(px - cx, r); }
    if py - cy < -r || py - cy > r { SquareGrows(py - cy, r); }
  }

  // ---------- one dot ----------

  // The i32 arithmetic of the loops does not overflow.
  predicate InRange(cx: int, cy: int, r: int) {
    0 <= r <= 30_000 && I32_MIN <= cx - r && cx + r <= I32_MAX && I32_MIN <= cy - r && cy + r <= I32_MAX
  }

  // A 1x1 fill of an inked pixel at the frontier advances it.
  lemma OnePixel(was: seq<u8>, g: Geometry, layer: Layer, x: int, y: int, c: Color)
    requires layer(x, y) == Some(c)
    ensures Painted(Painted(was, g, UpTo(layer, x, y)), g, Rect(x, y, 1, 1, c)) == Painted(was, g, UpTo(layer, x + 1, y))
  {
    hide Painted;
    PaintDisjoint(was, g, UpTo(layer, x, y), Rect(x, y, 1, 1, c));
    PaintedAgree(was, g, Over(UpTo(layer, x, y), Rect(x, y, 1, 1, c)), UpTo(layer, x + 1, y));
  }

  // Bounding box of a layer, and the frontier steps it allows.
  ghost predicate Within(layer: Layer, cx: int, cy: int, r: int) {
    forall px, py :: layer(px, py).Some? ==> cx - r <= px <= cx + r && cy - r <= py <= cy + r
  }

  lemma AnnulusWithin(cx: int, cy: int, r: int, inner2: int, c: Color)
    requires 0 <= r
    ensures Within(Annulus(cx, cy, Square(r), inner2, c), cx, cy, r)
  {
    forall px, py { AnnulusInside(cx, cy, r, inner2, c, px, py); }
  }

  lemma BoxStart(was: seq<u8>, g: Geometry, layer: Layer, cx: int, cy: int, r: int)
    requires Within(layer, cx, cy, r)
    ensures was == Painted(was, g, UpTo(layer, cx - r, cy - r))
  {
    PaintNothing(was, g, UpTo(layer, cx - r, cy - r));
  }

  lemma BoxRow(was: seq<u8>, g: Geometry, layer: Layer, cx: int, cy: int, r: int, y: int)
    requires Within(layer, cx, cy, r)
    ensures Painted(was, g, UpTo(layer, cx + r + 1, y)) == Painted(was, g, UpTo(layer, cx - r, y + 1))
  {
    PaintedAgree(was, g, UpTo(layer, cx + r + 1, y), UpTo(layer, cx - r, y + 1));
  }

  lemma BoxEnd(was: seq<u8>, g: Geometry, layer: Layer, cx: int, cy: int, r: int)
    requires Within(layer, cx, cy, r)
    ensures Painted(was, g, UpTo(layer, cx - r, cy + r + 1)) == Painted(was, g, layer)
  {
    PaintedAgree(was, g, UpTo(layer, cx - r, cy + r + 1), layer);
  }

  lemma NotInked(was: seq<u8>, g: Geometry, layer: Layer, x: int, y: int)
    requires layer(x, y) == None
    ensures Painted(was, g, UpTo(layer, x, y)) == Painted(was, g, UpTo(layer, x + 1, y))
  {
    PaintedAgree(was, g, UpTo(layer, x, y), UpTo(layer, x + 1, y));
  }

  // The body of the loops: a 1x1 rectangle.
  method PaintCell(pixels: array<u8>, g: Geometry, x: i32, y: i32, c: Color, ghost layer: Layer, ghost was: seq<u8>)
    requires Fits(g, pixels.Length) && layer(x, y) == Some(c)
    requires pixels[..] == Painted(was, g, UpTo(layer, x, y))
    modifies pixels
    ensures pixels[..] == Painted(was, g, UpTo(layer, x + 1, y))
  {
    hide Painted;
    OnePixel(was, g, layer, x, y, c);
    FillRect(pixels, g, x, y, 1, 1, c);
  }

  method FillCircle(pixels: array<u8>, g: Geometry, cx: i32, cy: i32, r: i32, c: Color)
    requires Fits(g, pixels.Length) && InRange(cx, cy, r)
    modifies pixels
    ensures pixels[..] == Painted(old(pixels[..]), g, Disc(cx, cy, r, c))
  {
    var r2 := Square(r);
    ghost var was, disc := pixels[..], Disc(cx, cy, r, c);
    AnnulusWithin(cx, cy, r, -1, c);
    BoxStart(was, g, disc, cx, cy, r);
    var dy := -r;
    while dy <= r
      invariant -r <= dy <= r + 1
      invariant pixels[..] == Painted(was, g, UpTo(disc, cx - r, cy + dy))
    {
      var dx := -r;
      while dx <= r
        invariant -r <= dx <= r + 1
        invariant pixels[..] == Painted(was, g, UpTo(disc, cx + dx, cy + dy))
      {
        hide Painted, Fits, InRange, Square, UpTo;
        var d2 := Square(dx) + Square(dy);
        assert Square(cx + dx - cx) + Square(cy + dy - cy) == d2;
        if d2 <= r2 {
          PaintCell(pixels, g, cx + dx, cy + dy, c, disc, was);
        } else {
          NotInked(was, g, disc, cx + dx, cy + dy);
        }
        dx := dx + 1;
      }
      BoxRow(was, g, disc, cx, cy, r, cy + dy);
      dy := dy + 1;
    }
    BoxEnd(was, g, disc, cx, cy, r);
  }

  method RingCircle(pixels: array<u8>, g: Geometry, cx: i32, cy: i32, r: i32, c: Color)
    requires Fits(g, pixels.Length) && InRange(cx, cy, r)
    modifies pixels
    ensures pixels[..] == Painted(old(pixels[..]), g, Ring(cx, cy, r, c))
  {
    var ro2 := Square(r);
    var ri2 := Square(r - 1);
    ghost var was, ring := pixels[..], Ring(cx, cy, r, c);
    AnnulusWithin(cx, cy, r, Square(r - 1), c);
    BoxStart(was, g, ring, cx, cy, r);
    var dy := -r;
    while dy <= r
      invariant -r <= dy <= r + 1
      invariant pixels[..] == Painted(was, g, UpTo(ring, cx - r, cy + dy))
    {
      var dx := -r;
      while dx <= r
        invariant -r <= dx <= r + 1
        invariant pixels[..] == Painted(was, g, UpTo(ring, cx + dx, cy + dy))
      {
        hide Painted, Fits, InRange, Square, UpTo;
        var d2 := Square(dx) + Square(dy);
        assert Square(cx + dx - cx) + Square(cy + dy - cy) == d2;
        if d2 <= ro2 && d2 > ri2 {
          PaintCell(pixels, g, cx + dx, cy + dy, c, ring, was);
        } else {
          NotInked(was, g, ring, cx + dx, cy + dy);
        }
        dx := dx + 1;
      }
      BoxRow(was, g, ring, cx, cy, r, cy + dy);
      dy := dy + 1;
    }
    BoxEnd(was, g, ring, cx, cy, r);
  }

  // ---------- the strip ----------

  function Elements(s: seq<nat>): set<nat> { set i | i in s }

  datatype Palette = Palette(active: Color, occupied: Color, empty: Color)

  function CentreX(i: int): int { START_X + i * (DOT_IDLE + DOT_GAP) + DOT_IDLE / 2 }

  // How workspace i is shown: a disc, a ring, or a smaller ring.
  function Dot(i: nat, active: nat, occupied: set<nat>, cy: int, pal: Palette): Layer {
    if i == active then Disc(CentreX(i), cy, DOT_ACTIVE / 2, pal.active)
    else if i in occupied then Ring(CentreX(i), cy, DOT_IDLE / 2, pal.occupied)
    else Ring(CentreX(i), cy, DOT_IDLE / 2 - 1, pal.empty)
  }

  // Dot i is centred 16 pixels right of the one before it, the first at 63: the
  // active one is a disc of radius 4, an occupied one a ring of radius 3, any
  // other a ring of radius 2, each in its own colour.
  lemma DotIs(i: nat, active: nat, occupied: set<nat>, cy: int, pal: Palette, px: int, py: int)
    ensures var dx := px - (63 + 16 * i); var dy := py - cy; var d2 := dx * dx + dy * dy;
      Dot(i, active, occupied, cy, pal)(px, py)
      == if i == active then (if d2 <= 16 then Some(pal.active) else None)
         else if i in occupied then (if 4 < d2 <= 9 then Some(pal.occupied) else None)
         else (if 1 < d2 <= 4 then Some(pal.empty) else None)
  {
    assert CentreX(i) == 63 + 16 * i;
    var dx, dy := px - CentreX(i), py - cy;
    assert Square(dx) == dx * dx && Square(dy) == dy * dy && Square(dx) + Square(dy) >= 0;
    assert Square(4) == 16 && Square(3) == 9 && Square(2) == 4 && Square(1) == 1;
    hide Square, CentreX;
  }

  lemma DotColumns(i: nat, active: nat, occupied: set<nat>, cy: int, pal: Palette)
    ensures Within(Dot(i, active, occupied, cy, pal), CentreX(i), cy, 4)
  {
    forall px, py
      ensures Dot(i, active, occupied, cy, pal)(px, py).Some? ==> CentreX(i) - 4 <= px <= CentreX(i) + 4 && cy - 4 <= py <= cy + 4
    {
      hide Annulus;
      AnnulusInside(CentreX(i), cy, 4, -1, pal.active, px, py);
      AnnulusInside(CentreX(i), cy, 3, Square(2), pal.occupied, px, py);
      AnnulusInside(CentreX(i), cy, 2, Square(1), pal.empty, px, py);
    }
  }

  // Distinct dots have no pixel in common.
  lemma DotsDisjoint(i: nat, j: nat, active: nat, occupied: set<nat>, cy: int, pal: Palette, px: int, py: int)
    requires i != j
    ensures Dot(i, active, occupied, cy, pal)(px, py) == None || Dot(j, active, occupied, cy, pal)(px, py) == None
  {
    DotColumns(i, active, occupied, cy, pal);
    DotColumns(j, active, occupied, cy, pal);
  }

  // The union of the first n dots.
  function Strip(n: nat, active: nat, occupied: set<nat>, cy: int, pal: Palette): Layer {
    if n == 0 then (x: int, y: int) => None
    else Over(Strip(n - 1, active, occupied, cy, pal), Dot(n - 1, active, occupied, cy, pal))
  }

  // A pixel of the strip is inked exactly when one of the dots inks it, and
  // then in the colour of that dot alone.
  lemma {:induction false} StripIsUnion(n: nat, active: nat, occupied: set<nat>, cy: int, pal: Palette, px: int, py: int, c: Color)
    ensures Strip(n, active, occupied, cy, pal)(px, py) == Some(c)
       <==> exists i: nat :: i < n && Dot(i, active, occupied, cy, pal)(px, py) == Some(c)
  {
    if n > 0 {
      StripIsUnion(n - 1, active, occupied, cy, pal, px, py, c);
      forall i: nat | i < n - 1 {
        DotsDisjoint(i, n - 1, active, occupied, cy, pal, px, py);
      }
    }
  }

  lemma {:induction false} StripColumns(n: nat, active: nat, occupied: set<nat>, cy: int, pal: Palette, px: int, py: int)
    requires Strip(n, active, occupied, cy, pal)(px, py).Some?
    ensures n > 0 && px <= CentreX(n - 1) + 4
  {
    DotColumns(n - 1, active, occupied, cy, pal);
    if Dot(n - 1, active, occupied, cy, pal)(px, py) == None {
      StripColumns(n - 1, active, occupied, cy, pal, px, py);
    }
  }

  lemma NextDot(p: seq<u8>, g: Geometry, n: nat, active: nat, occupied: set<nat>, cy: int, pal: Palette)
    ensures Painted(Painted(p, g, Strip(n, active, occupied, cy, pal)), g, Dot(n, active, occupied, cy, pal))
         == Painted(p, g, Strip(n + 1, active, occupied, cy, pal))
  {
    hide Painted, Annulus;
    var strip, dot := Strip(n, active, occupied, cy, pal), Dot(n, active, occupied, cy, pal);
    forall x: nat, y: nat ensures strip(x, y) == None || dot(x, y) == None {
      DotColumns(n, active, occupied, cy, pal);
      if strip(x, y).Some? { StripColumns(n, active, occupied, cy, pal, x, y); }
    }
    PaintDisjoint(p, g, strip, dot);
  }

  // The picture depends only on the set of occupied indices other than the
  // active one.
  lemma {:induction false} OccupiedSetDecides(n: nat, active: nat, o1: set<nat>, o2: set<nat>, cy: int, pal: Palette)
    requires forall i: nat :: i < n && i != active ==> (i in o1 <==> i in o2)
    ensures Strip(n, active, o1, cy, pal) == Strip(n, active, o2, cy, pal)
  {
    if n > 0 {
      OccupiedSetDecides(n - 1, active, o1, o2, cy, pal);
    }
  }

  method DrawStrip(pixels: array<u8>, g: Geometry, active: nat, occupied: seq<nat>, pal: Palette)
    requires Fits(g, pixels.Length)
    modifies pixels
    ensures pixels[..] == Painted(old(pixels[..]), g, Strip(DOTS, active, Elements(occupied), g.h / 2, pal))
  {
    var cy := g.h / 2;
    ghost var occ := Elements(occupied);
    PaintNothing(pixels[..], g, Strip(0, active, occ, cy, pal));
    for i := 0 to DOTS
      invariant pixels[..] == Painted(old(pixels[..]), g, Strip(i, active, occ, cy, pal))
    {
      hide Painted, Fits, Disc, Ring, Strip;
      NextDot(old(pixels[..]), g, i, active, occ, cy, pal);
      var cx := START_X + i * (DOT_IDLE + DOT_GAP) + DOT_IDLE / 2;
      if i == active {
        FillCircle(pixels, g, cx, cy, DOT_ACTIVE / 2, pal.active);
      } else if i in occupied {
        RingCircle(pixels, g, cx, cy, DOT_IDLE / 2, pal.occupied);
      } else {
        RingCircle(pixels, g, cx, cy, DOT_IDLE / 2 - 1, pal.empty);
      }
    }
  }

  // ---------- the bitmap the strip is painted into ----------

  const U64_SIZE := 0x1_0000_0000_0000_0000

  class PanelBitmap {
    var width: u32
    var height: u32
    var pixels: array<u8>
    var dirty: bool
    var generation: nat

    // The pixel vector always covers exactly the panel.
    ghost predicate Valid()
      reads this
    {
      pixels.Length == width * height * 4
    }

    function Stride(): nat
      reads this
    {
      width * 4
    }

    constructor (width: u32, height: u32)
      ensures Valid() && fresh(pixels) && this.width == width && this.height == height
      ensures forall i :: 0 <= i < pixels.Length ==> pixels[i] == 0
      ensures dirty && generation == 0
    {
      this.width, this.height := width, height;
      pixels := new u8[width * height * 4](_ => 0);
      dirty, generation := true, 0;
    }

    // A new size drops the picture; the same size keeps it.  The generation
    // counts sizes and wraps as a u64.
    method Resize(w: u32, h: u32)
      requires Valid()
      modifies this
      ensures Valid() && width == w && height == h
      ensures w == old(width) && h == old(height) ==> pixels == old(pixels) && generation == old(generation) && dirty == old(dirty)
      ensures w != old(width) || h != old(height) ==>
        && fresh(pixels) && dirty && generation == (old(generation) + 1) % U64_SIZE
        && forall i :: 0 <= i < pixels.Length ==> pixels[i] == 0
    {
      if width == w && height == h { return; }
      pixels := new u8[w * h * 4](_ => 0);
      width, height := w, h;
      dirty := true;
      generation := (generation + 1) % U64_SIZE;
    }

    // The dot step of PanelOverlay::render: the bitmap's own stride and size
    // always satisfy the painters.
    method RenderDots(active: nat, occupied: seq<nat>, pal: Palette)
      requires Valid() && width <= I32_MAX && height <= I32_MAX
      modifies pixels
      ensures pixels[..] == Painted(old(pixels[..]), Geometry(Stride(), width, height),
                                    Strip(DOTS, active, Elements(occupied), height / 2, pal))
    {
      assert width * height * 4 == width * 4 * height;
      DrawStrip(pixels, Geometry(Stride(), width, height), active, occupied, pal);
    }
  }
}
