/**
 The text renderer of `theme::text`: glyph cache, glyph blits and advances.

 Rasterisation is an uninterpreted function of font variant, character and
 size; the cache key keeps the size only to half a pixel.
 */
module Text {
  import opened Wrappers
  import opened Raster

  datatype FontVariant = Regular | Medium | Mono

  // Metrics and coverage bitmap of one glyph, one byte a pixel, row by row.
  datatype GlyphData = GlyphData(width: nat, height: nat, xmin: int, ymin: int, advance: int, bitmap: seq<u8>)
  type Glyph = g: GlyphData | |g.bitmap| == g.width * g.height witness GlyphData(0, 0, 0, 0, 0, [])

  type Rasterizer = (FontVariant, char, real) -> Glyph

  datatype GlyphKey = GlyphKey(ch: char, variant: FontVariant, half: nat)
  type Glyphs = map<GlyphKey, Glyph>

  // (px * 2.0).round() as u32
  function HalfPixels(px: real): nat {
    if px <= 0.0 then 0 else Min((2.0 * px + 0.5).Floor, U32_SIZE - 1)
  }

  function KeyOf(variant: FontVariant, ch: char, px: real): GlyphKey {
    GlyphKey(ch, variant, HalfPixels(px))
  }

  // Sizes the key does not round away.
  predicate OnGrid(px: real) {
    px == HalfPixels(px) as real / 2.0
  }

  lemma HalfMultiplesAreOnGrid(k: nat)
    requires k < U32_SIZE
    ensures OnGrid(k as real / 2.0)
  {
    assert (2.0 * (k as real / 2.0) + 0.5).Floor == k;
  }

  // The key's size is the nearest half pixel, upwards from the middle; sizes
  // outside the u32 range go to its ends.
  lemma HalfPixelsIsNearest(px: real)
    ensures 0.0 <= px && 2.0 * px < U32_SIZE as real - 0.5 ==>
      HalfPixels(px) as real - 0.5 <= 2.0 * px < HalfPixels(px) as real + 0.5
    ensures px < 0.0 ==> HalfPixels(px) == 0
    ensures 2.0 * px >= U32_SIZE as real - 0.5 ==> HalfPixels(px) == U32_SIZE - 1
  {}

  // ---------- what a cache does ----------

  // entry(key).or_insert_with(rasterize): a present entry is never replaced.
  function Insert(m: Glyphs, raster: Rasterizer, variant: FontVariant, ch: char, px: real): Glyphs {
    var key := KeyOf(variant, ch, px);
    if key in m then m else m[key := raster(variant, ch, px)]
  }

  function Fill(m: Glyphs, raster: Rasterizer, variant: FontVariant, text: string, px: real): (m': Glyphs)
    ensures forall key :: key in m ==> key in m' && m'[key] == m[key]
    ensures forall i :: 0 <= i < |text| ==> KeyOf(variant, text[i], px) in m'
  {
    if text == [] then m
    else Insert(Fill(m, raster, variant, text[..|text| - 1], px), raster, variant, text[|text| - 1], px)
  }

  function Looked(m: Glyphs, variant: FontVariant, text: string, px: real): (gs: seq<Glyph>)
    requires forall i :: 0 <= i < |text| ==> KeyOf(variant, text[i], px) in m
    ensures |gs| == |text|
  {
    seq(|text|, i requires 0 <= i < |text| => m[KeyOf(variant, text[i], px)])
  }

  function Fresh(raster: Rasterizer, variant: FontVariant, text: string, px: real): (gs: seq<Glyph>)
    ensures |gs| == |text|
  {
    seq(|text|, i requires 0 <= i < |text| => raster(variant, text[i], px))
  }

  // Every entry is what its own size rasterises to.
  ghost predicate Coherent(m: Glyphs, raster: Rasterizer) {
    forall key :: key in m ==> m[key] == raster(key.variant, key.ch, key.half as real / 2.0)
  }

  lemma {:induction false} FillIsFresh(m: Glyphs, raster: Rasterizer, variant: FontVariant, text: string, px: real)
    requires OnGrid(px) && Coherent(m, raster)
    ensures Coherent(Fill(m, raster, variant, text, px), raster)
    ensures Looked(Fill(m, raster, variant, text, px), variant, text, px) == Fresh(raster, variant, text, px)
  {
    if text != [] {
      var init, ch := text[..|text| - 1], text[|text| - 1];
      FillIsFresh(m, raster, variant, init, px);
      var m1, m2 := Fill(m, raster, variant, init, px), Fill(m, raster, variant, text, px);
      assert m2 == Insert(m1, raster, variant, ch, px);
      hide Coherent, Insert, OnGrid, HalfPixels, KeyOf;
      InsertCoherent(m1, raster, variant, ch, px);
      hide Fill;
      forall i | 0 <= i < |text| ensures m2[KeyOf(variant, text[i], px)] == raster(variant, text[i], px) {
        FreshEntry(m2, raster, variant, text[i], px);
      }
    }
  }

  lemma InsertCoherent(m: Glyphs, raster: Rasterizer, variant: FontVariant, ch: char, px: real)
    requires OnGrid(px) && Coherent(m, raster)
    ensures Coherent(Insert(m, raster, variant, ch, px), raster)
  {
    hide HalfPixels;
  }

  lemma FreshEntry(m: Glyphs, raster: Rasterizer, variant: FontVariant, ch: char, px: real)
    requires OnGrid(px) && Coherent(m, raster) && KeyOf(variant, ch, px) in m
    ensures m[KeyOf(variant, ch, px)] == raster(variant, ch, px)
  {
    hide HalfPixels;
  }

  // ---------- what drawing glyphs means ----------

  function Advance(gs: seq<Glyph>): int {
    if gs == [] then 0 else Advance(gs[..|gs| - 1]) + gs[|gs| - 1].advance
  }

  lemma CellIndex(row: nat, col: nat, w: nat, h: nat)
    requires row < h && col < w
    ensures 0 <= row * w + col < w * h
  {
    MulLe(row + 1, h, w);
    assert (row + 1) * w == row * w + w;
  }

  function Coverage(gl: Glyph, row: int, col: int): u8 {
    if 0 <= row < gl.height && 0 <= col < gl.width
    then CellIndex(row, col, gl.width, gl.height); gl.bitmap[row * gl.width + col]
    else 0
  }

  // The glyph's ink with its top-left bitmap cell at (left, top).
  function GlyphInk(gl: Glyph, left: int, top: int, c: Color): Layer {
    (px: int, py: int) =>
      if left <= px < left + gl.width && top <= py < top + gl.height && Coverage(gl, py - top, px - left) != 0
      then Some(c.(a := Coverage(gl, py - top, px - left)))
      else None
  }

  // Glyphs drawn left to right from x on baseline y, each where the advances
  // of those before it put the cursor.
  function Drawn(p: seq<u8>, g: Geometry, x: int, y: int, c: Color, gs: seq<Glyph>): (q: seq<u8>)
    ensures |q| == |p|
  {
    if gs == [] then p
    else
      var init, gl := gs[..|gs| - 1], gs[|gs| - 1];
      Painted(Drawn(p, g, x, y, c, init), g, GlyphInk(gl, x + Advance(init) + gl.xmin, y - gl.ymin - gl.height, c))
  }

  lemma DrawnNext(p: seq<u8>, g: Geometry, x: int, y: int, c: Color, gs: seq<Glyph>, gl: Glyph)
    ensures Advance(gs + [gl]) == Advance(gs) + gl.advance
    ensures Drawn(p, g, x, y, c, gs + [gl]) ==
      Painted(Drawn(p, g, x, y, c, gs), g, GlyphInk(gl, x + Advance(gs) + gl.xmin, y - gl.ymin - gl.height, c))
  {
    assert (gs + [gl])[..|gs|] == gs;
  }

  // Row r, column k of a glyph's bitmap, counted from its top left, inks the
  // pixel that far right of and below its place: the place is the cursor plus
  // xmin, and the baseline less ymin less the height.  The byte there is the
  // coverage, blended once in the text colour; zero leaves the pixel alone.
  lemma GlyphPixel(p: seq<u8>, g: Geometry, x: int, y: int, c: Color, gs: seq<Glyph>, gl: Glyph, row: nat, col: nat)
    requires Fits(g, |p|) && row < gl.height && col < gl.width
    requires 0 <= x + Advance(gs) + gl.xmin + col < g.w && 0 <= y - gl.ymin - gl.height + row < g.h
    ensures row * gl.width + col < |gl.bitmap|
    ensures var b := Offset(g, x + Advance(gs) + gl.xmin + col, y - gl.ymin - gl.height + row);
            var q := Drawn(p, g, x, y, c, gs); var r := Drawn(p, g, x, y, c, gs + [gl]); var a := gl.bitmap[row * gl.width + col];
      && b + 4 <= |p|
      && r[b..b + 4] == if a == 0 then q[b..b + 4]
                        else [BlendByte(q[b], c.b, a), BlendByte(q[b + 1], c.g, a), BlendByte(q[b + 2], c.r, a), 255]
  {
    hide *;
    var left, top := x + Advance(gs) + gl.xmin, y - gl.ymin - gl.height;
    DrawnNext(p, g, x, y, c, gs, gl);
    InkAt(gl, left, top, c, row, col);
    PaintedPixel(Drawn(p, g, x, y, c, gs), g, GlyphInk(gl, left, top, c), left + col, top + row);
  }

  lemma InkAt(gl: Glyph, left: int, top: int, c: Color, row: nat, col: nat)
    requires row < gl.height && col < gl.width
    ensures row * gl.width + col < |gl.bitmap|
    ensures var a := gl.bitmap[row * gl.width + col];
      GlyphInk(gl, left, top, c)(left + col, top + row) == if a == 0 then None else Some(Color(c.r, c.g, c.b, a))
  {
    CellIndex(row, col, gl.width, gl.height);
    var px, py := left + col, top + row;
    assert py - top == row && px - left == col;
    assert Coverage(gl, py - top, px - left) == Coverage(gl, row, col) == gl.bitmap[row * gl.width + col];
    hide Coverage;
    assert c.(a := gl.bitmap[row * gl.width + col]) == Color(c.r, c.g, c.b, gl.bitmap[row * gl.width + col]);
  }

  // A pixel outside the glyph's bitmap is left alone.
  lemma OutsideGlyph(p: seq<u8>, g: Geometry, x: int, y: int, c: Color, gs: seq<Glyph>, gl: Glyph, px: nat, py: nat)
    requires Fits(g, |p|) && px < g.w && py < g.h
    requires var left := x + Advance(gs) + gl.xmin; var top := y - gl.ymin - gl.height;
      !(left <= px < left + gl.width && top <= py < top + gl.height)
    ensures var b := Offset(g, px, py);
      b + 4 <= |p| && Drawn(p, g, x, y, c, gs + [gl])[b..b + 4] == Drawn(p, g, x, y, c, gs)[b..b + 4]
  {
    var left, top := x + Advance(gs) + gl.xmin, y - gl.ymin - gl.height;
    DrawnNext(p, g, x, y, c, gs, gl);
    assert GlyphInk(gl, left, top, c)(px, py) == None;
    PaintedPixel(Drawn(p, g, x, y, c, gs), g, GlyphInk(gl, left, top, c), px, py);
    hide *;
  }

  lemma NoInk(p: seq<u8>, g: Geometry, gl: Glyph, left: int, top: int, c: Color)
    requires gl.width == 0
    ensures Painted(p, g, GlyphInk(gl, left, top, c)) == p
  {
    PaintNothing(p, g, GlyphInk(gl, left, top, c));
  }

  // Text touches pixels of the buffer only, never padding or trailing bytes.
  lemma {:induction false} DrawnStaysInside(p: seq<u8>, g: Geometry, x: int, y: int, c: Color, gs: seq<Glyph>, i: nat)
    requires Fits(g, |p|) && i < |p|
    requires g.stride == 0 || i % g.stride >= 4 * g.w || i >= g.stride * g.h
    ensures Drawn(p, g, x, y, c, gs)[i] == p[i]
  {
    if gs != [] {
      var init, gl := gs[..|gs| - 1], gs[|gs| - 1];
      DrawnStaysInside(p, g, x, y, c, init, i);
      PaintedPadding(Drawn(p, g, x, y, c, init), g, GlyphInk(gl, x + Advance(init) + gl.xmin, y - gl.ymin - gl.height, c), i);
    }
  }

  // ---------- any history of calls ----------

  datatype Call =
    | Draw(x: int, y: int, text: string, px: real, c: Color, variant: FontVariant)
    | Measure(text: string, px: real, variant: FontVariant)

  datatype Outcome = Outcome(pixels: seq<u8>, widths: seq<int>)

  // One call with glyph source gs: pixels and returned width.
  function Perform(o: Outcome, g: Geometry, call: Call, gs: seq<Glyph>): Outcome {
    match call
    case Draw(x, y, _, _, c, _) => Outcome(Drawn(o.pixels, g, x, y, c, gs), o.widths + [Advance(gs)])
    case Measure(_, _, _) => Outcome(o.pixels, o.widths + [Advance(gs)])
  }

  function RunCached(m: Glyphs, o: Outcome, g: Geometry, raster: Rasterizer, calls: seq<Call>): (Glyphs, Outcome)
    decreases |calls|
  {
    if calls == [] then (m, o)
    else
      var c := calls[0];
      var m' := Fill(m, raster, c.variant, c.text, c.px);
      RunCached(m', Perform(o, g, c, Looked(m', c.variant, c.text, c.px)), g, raster, calls[1..])
  }

  function RunFresh(o: Outcome, g: Geometry, raster: Rasterizer, calls: seq<Call>): Outcome
    decreases |calls|
  {
    if calls == [] then o
    else
      var c := calls[0];
      RunFresh(Perform(o, g, c, Fresh(raster, c.variant, c.text, c.px)), g, raster, calls[1..])
  }

  // ---------- when the cache is invisible ----------

  // Call c asks for the glyph cached under this key.
  predicate Uses(c: Call, key: GlyphKey) {
    exists k :: 0 <= k < |c.text| && KeyOf(c.variant, c.text[k], c.px) == key
  }

  // No two calls ask for glyphs of one key at different sizes.
  ghost predicate NoClash(calls: seq<Call>) {
    forall i, j, key :: 0 <= i < |calls| && 0 <= j < |calls| && Uses(calls[i], key) && Uses(calls[j], key) ==> calls[i].px == calls[j].px
  }

  // What the cache already has for call c is what c would rasterise.
  ghost predicate Truthful(m: Glyphs, raster: Rasterizer, c: Call) {
    forall key :: key in m && Uses(c, key) ==> m[key] == raster(key.variant, key.ch, c.px)
  }

  // An entry was there before or is rasterised for this very text.
  lemma {:induction false} FillEntries(m: Glyphs, raster: Rasterizer, c: Call, n: nat, key: GlyphKey)
    requires n <= |c.text| && key in Fill(m, raster, c.variant, c.text[..n], c.px)
    ensures var m' := Fill(m, raster, c.variant, c.text[..n], c.px);
      (key in m && m'[key] == m[key]) || (key !in m && Uses(c, key) && m'[key] == raster(key.variant, key.ch, c.px))
  {
    if n > 0 {
      var init, ch := c.text[..n - 1], c.text[n - 1];
      assert c.text[..n][..n - 1] == init;
      var m1, m2 := Fill(m, raster, c.variant, init, c.px), Fill(m, raster, c.variant, c.text[..n], c.px);
      assert m2 == Insert(m1, raster, c.variant, ch, c.px);
      hide Fill, HalfPixels;
      if key in m1 {
        FillEntries(m, raster, c, n - 1, key);
      } else {
        assert key == KeyOf(c.variant, c.text[n - 1], c.px);
      }
    }
  }

  lemma TruthfulIsFresh(m: Glyphs, raster: Rasterizer, c: Call)
    requires Truthful(m, raster, c)
    ensures var m' := Fill(m, raster, c.variant, c.text, c.px);
      Looked(m', c.variant, c.text, c.px) == Fresh(raster, c.variant, c.text, c.px)
  {
    var m' := Fill(m, raster, c.variant, c.text, c.px);
    assert c.text[..|c.text|] == c.text;
    forall k | 0 <= k < |c.text| ensures m'[KeyOf(c.variant, c.text[k], c.px)] == raster(c.variant, c.text[k], c.px) {
      var key := KeyOf(c.variant, c.text[k], c.px);
      assert Uses(c, key);
      FillEntries(m, raster, c, |c.text|, key);
    }
    hide Fill, HalfPixels;
  }

  lemma TruthfulAfter(m: Glyphs, raster: Rasterizer, c: Call, d: Call)
    requires Truthful(m, raster, d)
    requires forall key :: Uses(c, key) && Uses(d, key) ==> c.px == d.px
    ensures Truthful(Fill(m, raster, c.variant, c.text, c.px), raster, d)
  {
    var m' := Fill(m, raster, c.variant, c.text, c.px);
    assert c.text[..|c.text|] == c.text;
    forall key | key in m' && Uses(d, key) ensures m'[key] == raster(key.variant, key.ch, d.px) {
      FillEntries(m, raster, c, |c.text|, key);
    }
  }

  // From any cache: if no two calls clash, and what is cached is true for the
  // calls that use it, pixels and widths are those of rasterising every glyph
  // afresh.
  lemma {:induction false} CacheRefines(m: Glyphs, o: Outcome, g: Geometry, raster: Rasterizer, calls: seq<Call>)
    requires NoClash(calls)
    requires forall i :: 0 <= i < |calls| ==> Truthful(m, raster, calls[i])
    ensures RunCached(m, o, g, raster, calls).1 == RunFresh(o, g, raster, calls)
    decreases |calls|
  {
    if calls != [] {
      var c, rest := calls[0], calls[1..];
      hide Truthful, Uses;
      assert Truthful(m, raster, c);
      TruthfulIsFresh(m, raster, c);
      var m' := Fill(m, raster, c.variant, c.text, c.px);
      forall i | 0 <= i < |rest| ensures Truthful(m', raster, rest[i]) {
        assert rest[i] == calls[i + 1];
        TruthfulAfter(m, raster, c, calls[i + 1]);
      }
      assert NoClash(rest) by {
        forall i, j, key | 0 <= i < |rest| && 0 <= j < |rest| && Uses(rest[i], key) && Uses(rest[j], key) ensures rest[i].px == rest[j].px {
          assert rest[i] == calls[i + 1] && rest[j] == calls[j + 1];
        }
      }
      hide NoClash;
      CacheRefines(m', Perform(o, g, c, Looked(m', c.variant, c.text, c.px)), g, raster, rest);
    }
  }

  lemma {:induction false} CoherenceStays(m: Glyphs, o: Outcome, g: Geometry, raster: Rasterizer, calls: seq<Call>)
    requires Coherent(m, raster)
    requires forall c :: c in calls ==> OnGrid(c.px)
    ensures Coherent(RunCached(m, o, g, raster, calls).0, raster)
    decreases |calls|
  {
    if calls != [] {
      var c := calls[0];
      assert c in calls;
      FillIsFresh(m, raster, c.variant, c.text, c.px);
      var m' := Fill(m, raster, c.variant, c.text, c.px);
      hide Coherent, OnGrid, Fill;
      CoherenceStays(m', Perform(o, g, c, Looked(m', c.variant, c.text, c.px)), g, raster, calls[1..]);
    }
  }

  // At sizes that are half-pixel multiples no calls clash, and a coherent
  // cache is true for all of them, whatever was drawn and measured before.
  lemma HalfPixelSizesRefine(m: Glyphs, o: Outcome, g: Geometry, raster: Rasterizer, calls: seq<Call>)
    requires Coherent(m, raster)
    requires forall c :: c in calls ==> OnGrid(c.px)
    ensures Coherent(RunCached(m, o, g, raster, calls).0, raster)
    ensures RunCached(m, o, g, raster, calls).1 == RunFresh(o, g, raster, calls)
  {
    hide Coherent, NoClash, Truthful, OnGrid, RunCached, RunFresh;
    CoherenceStays(m, o, g, raster, calls);
    OnGridNoClash(calls);
    forall i | 0 <= i < |calls| ensures Truthful(m, raster, calls[i]) {
      assert calls[i] in calls;
      CoherentIsTruthful(m, raster, calls[i]);
    }
    CacheRefines(m, o, g, raster, calls);
  }

  lemma OnGridNoClash(calls: seq<Call>)
    requires forall c :: c in calls ==> OnGrid(c.px)
    ensures NoClash(calls)
  {
    hide Uses, OnGrid;
    forall i, j, key | 0 <= i < |calls| && 0 <= j < |calls| && Uses(calls[i], key) && Uses(calls[j], key)
      ensures calls[i].px == calls[j].px
    {
      assert calls[i] in calls && calls[j] in calls;
      OnGridUse(calls[i], key);
      OnGridUse(calls[j], key);
    }
  }

  lemma CoherentIsTruthful(m: Glyphs, raster: Rasterizer, c: Call)
    requires Coherent(m, raster) && OnGrid(c.px)
    ensures Truthful(m, raster, c)
  {
    hide Uses, OnGrid;
    forall key | Uses(c, key) ensures c.px == key.half as real / 2.0 {
      OnGridUse(c, key);
    }
  }

  lemma OnGridUse(c: Call, key: GlyphKey)
    requires OnGrid(c.px) && Uses(c, key)
    ensures c.px == key.half as real / 2.0
  {
    hide HalfPixels;
  }

  // ---------- when it is not ----------

  // The cache after the first n calls.
  function CacheAt(m: Glyphs, raster: Rasterizer, calls: seq<Call>, n: nat): Glyphs
    requires n <= |calls|
    decreases n
  {
    if n == 0 then m
    else CacheAt(Fill(m, raster, calls[0].variant, calls[0].text, calls[0].px), raster, calls[1..], n - 1)
  }

  // The glyphs the call after n others draws or measures.
  function LookedAt(m: Glyphs, raster: Rasterizer, calls: seq<Call>, n: nat): seq<Glyph>
    requires n < |calls|
    decreases n
  {
    var c := calls[0];
    var m' := Fill(m, raster, c.variant, c.text, c.px);
    if n == 0 then Looked(m', c.variant, c.text, c.px) else LookedAt(m', raster, calls[1..], n - 1)
  }

  lemma {:induction false} LookedAtIs(m: Glyphs, raster: Rasterizer, calls: seq<Call>, n: nat, k: nat)
    requires n < |calls| && k < |calls[n].text|
    ensures var c := calls[n]; var key := KeyOf(c.variant, c.text[k], c.px); var at := CacheAt(m, raster, calls, n + 1);
      |LookedAt(m, raster, calls, n)| == |c.text| && key in at && LookedAt(m, raster, calls, n)[k] == at[key]
    decreases n
  {
    var c, rest := calls[0], calls[1..];
    var m' := Fill(m, raster, c.variant, c.text, c.px);
    assert CacheAt(m, raster, calls, n + 1) == CacheAt(m', raster, rest, n);
    hide HalfPixels, Fill;
    if n > 0 {
      assert rest[n - 1] == calls[n];
      LookedAtIs(m', raster, rest, n - 1, k);
    }
  }

  lemma {:induction false} LookedAtLength(m: Glyphs, raster: Rasterizer, calls: seq<Call>, n: nat)
    requires n < |calls|
    ensures |LookedAt(m, raster, calls, n)| == |calls[n].text|
    decreases n
  {
    if n > 0 {
      var c := calls[0];
      assert calls[1..][n - 1] == calls[n];
      LookedAtLength(Fill(m, raster, c.variant, c.text, c.px), raster, calls[1..], n - 1);
    }
  }

  // The widths a run returns, call by call.
  lemma {:induction false} CachedWidth(m: Glyphs, o: Outcome, g: Geometry, raster: Rasterizer, calls: seq<Call>, j: nat)
    requires j < |calls|
    ensures var ws := RunCached(m, o, g, raster, calls).1.widths;
      |ws| == |o.widths| + |calls| && ws[..|o.widths|] == o.widths
      && ws[|o.widths| + j] == Advance(LookedAt(m, raster, calls, j))
    decreases |calls|
  {
    var c, rest := calls[0], calls[1..];
    var m' := Fill(m, raster, c.variant, c.text, c.px);
    var gs := Looked(m', c.variant, c.text, c.px);
    var o' := Perform(o, g, c, gs);
    assert o'.widths == o.widths + [Advance(gs)];
    var ws := RunCached(m', o', g, raster, rest).1.widths;
    assert RunCached(m, o, g, raster, calls).1.widths == ws;
    assert LookedAt(m, raster, calls, j) == if j == 0 then gs else LookedAt(m', raster, rest, j - 1);
    assert rest == [] ==> ws == o'.widths;
    hide RunCached, LookedAt, Fill, Looked, Advance, Perform;
    if rest != [] { CachedWidth(m', o', g, raster, rest, if j > 0 then j - 1 else 0); }
    assert ws[..|o'.widths|] == o'.widths;
    FirstOf(ws, o.widths, Advance(gs));
  }

  lemma FirstOf(ws: seq<int>, before: seq<int>, x: int)
    requires |before| < |ws| && ws[..|before| + 1] == before + [x]
    ensures ws[..|before|] == before && ws[|before|] == x
  {
    assert ws[..|before|] == ws[..|before| + 1][..|before|];
    assert ws[|before|] == ws[..|before| + 1][|before|];
  }

  lemma {:induction false} FreshWidth(o: Outcome, g: Geometry, raster: Rasterizer, calls: seq<Call>, j: nat)
    requires j < |calls|
    ensures var ws := RunFresh(o, g, raster, calls).widths; var c := calls[j];
      |ws| == |o.widths| + |calls| && ws[..|o.widths|] == o.widths
      && ws[|o.widths| + j] == Advance(Fresh(raster, c.variant, c.text, c.px))
    decreases |calls|
  {
    var c, rest := calls[0], calls[1..];
    var gs := Fresh(raster, c.variant, c.text, c.px);
    var o' := Perform(o, g, c, gs);
    assert o'.widths == o.widths + [Advance(gs)];
    var ws := RunFresh(o', g, raster, rest).widths;
    assert RunFresh(o, g, raster, calls).widths == ws;
    assert rest == [] ==> ws == o'.widths;
    hide RunFresh, Fresh, Advance, Perform;
    if rest != [] { FreshWidth(o', g, raster, rest, if j > 0 then j - 1 else 0); }
    assert ws[..|o'.widths|] == o'.widths;
    FirstOf(ws, o.widths, Advance(gs));
  }

  lemma {:induction false} EntryStays(m: Glyphs, raster: Rasterizer, calls: seq<Call>, n: nat, key: GlyphKey)
    requires n <= |calls| && key in m
    ensures key in CacheAt(m, raster, calls, n) && CacheAt(m, raster, calls, n)[key] == m[key]
    decreases n
  {
    if n > 0 {
      EntryStays(Fill(m, raster, calls[0].variant, calls[0].text, calls[0].px), raster, calls[1..], n - 1, key);
    }
  }

  // The first call to use a key decides its entry for good.
  lemma {:induction false} FirstUseDecides(m: Glyphs, raster: Rasterizer, calls: seq<Call>, first: nat, n: nat, key: GlyphKey)
    requires first < n <= |calls| && key !in m && Uses(calls[first], key)
    requires forall i :: 0 <= i < first ==> !Uses(calls[i], key)
    ensures var at := CacheAt(m, raster, calls, n); key in at && at[key] == raster(key.variant, key.ch, calls[first].px)
    decreases n
  {
    var c, rest := calls[0], calls[1..];
    var m' := Fill(m, raster, c.variant, c.text, c.px);
    assert c.text[..|c.text|] == c.text;
    if first == 0 {
      assert key in m' by { hide HalfPixels; }
      FillEntries(m, raster, c, |c.text|, key);
      EntryStays(m', raster, rest, n - 1, key);
    } else {
      if key in m' { FillEntries(m, raster, c, |c.text|, key); }
      forall i | 0 <= i < first - 1 ensures !Uses(rest[i], key) { assert rest[i] == calls[i + 1]; }
      assert rest[first - 1] == calls[first];
      FirstUseDecides(m', raster, rest, first - 1, n - 1, key);
    }
  }

  // Blank glyphs, of width 1 at exactly one size.
  function Marker(px0: real): Rasterizer {
    (v: FontVariant, ch: char, px: real) => GlyphData(0, 0, 0, 0, if px == px0 then 1 else 0, [])
  }

  lemma {:induction false} MarkedCache(m: Glyphs, px0: real, calls: seq<Call>, n: nat)
    requires n <= |calls| && forall key :: key in m ==> m[key].advance >= 0
    ensures forall key :: key in CacheAt(m, Marker(px0), calls, n) ==> CacheAt(m, Marker(px0), calls, n)[key].advance >= 0
    decreases n
  {
    if n > 0 {
      var c := calls[0];
      var m' := Fill(m, Marker(px0), c.variant, c.text, c.px);
      assert c.text[..|c.text|] == c.text;
      forall key | key in m' ensures m'[key].advance >= 0 {
        FillEntries(m, Marker(px0), c, |c.text|, key);
      }
      hide Fill;
      MarkedCache(m', px0, calls[1..], n - 1);
    }
  }

  lemma {:induction false} AdvanceAtLeast(gs: seq<Glyph>, k: nat)
    requires forall i :: 0 <= i < |gs| ==> gs[i].advance >= 0
    requires k < |gs|
    ensures Advance(gs) >= gs[k].advance
  {
    if k < |gs| - 1 { AdvanceAtLeast(gs[..|gs| - 1], k); } else { AdvanceNotNegative(gs[..|gs| - 1]); }
  }

  lemma {:induction false} AdvanceNotNegative(gs: seq<Glyph>)
    requires forall i :: 0 <= i < |gs| ==> gs[i].advance >= 0
    ensures Advance(gs) >= 0
  {
    if gs != [] { AdvanceNotNegative(gs[..|gs| - 1]); }
  }

  lemma {:induction false} AdvanceZero(gs: seq<Glyph>)
    requires forall i :: 0 <= i < |gs| ==> gs[i].advance == 0
    ensures Advance(gs) == 0
  {
    if gs != [] { AdvanceZero(gs[..|gs| - 1]); }
  }

  lemma FirstUse(calls: seq<Call>, key: GlyphKey, n: nat) returns (first: nat)
    requires n < |calls| && Uses(calls[n], key)
    ensures first <= n && Uses(calls[first], key) && forall i :: 0 <= i < first ==> !Uses(calls[i], key)
  {
    first := 0;
    while !Uses(calls[first], key)
      invariant first <= n && forall i :: 0 <= i < first ==> !Uses(calls[i], key)
      decreases n - first
    {
      first := first + 1;
    }
  }

  // A later call of another size under a key measures 0 afresh, and at least 1
  // from the cache.
  lemma LaterUseDiffers(o: Outcome, g: Geometry, calls: seq<Call>, first: nat, later: nat, key: GlyphKey)
    requires first < later < |calls| && Uses(calls[first], key) && Uses(calls[later], key)
    requires forall i :: 0 <= i < first ==> !Uses(calls[i], key)
    requires calls[first].px != calls[later].px
    ensures var raster := Marker(calls[first].px); RunCached(map[], o, g, raster, calls).1 != RunFresh(o, g, raster, calls)
  {
    var raster, c := Marker(calls[first].px), calls[later];
    CachedWidth(map[], o, g, raster, calls, later);
    FreshWidth(o, g, raster, calls, later);
    AdvanceZero(Fresh(raster, c.variant, c.text, c.px));
    FirstUseDecides(map[], raster, calls, first, later + 1, key);
    MarkedCache(map[], calls[first].px, calls, later + 1);
    var k :| 0 <= k < |c.text| && KeyOf(c.variant, c.text[k], c.px) == key;
    var gs := LookedAt(map[], raster, calls, later);
    LookedAtLength(map[], raster, calls, later);
    hide CacheAt, RunCached, RunFresh, HalfPixels, LookedAt;
    forall i | 0 <= i < |gs| ensures gs[i].advance >= 0 {
      LookedAtIs(map[], raster, calls, later, i);
    }
    LookedAtIs(map[], raster, calls, later, k);
    AdvanceAtLeast(gs, k);
  }

  // From the empty cache: every rasteriser's run is a fresh run if and only if
  // no two calls clash.
  lemma CacheRefinesIff(o: Outcome, g: Geometry, calls: seq<Call>)
    ensures (forall raster: Rasterizer :: RunCached(map[], o, g, raster, calls).1 == RunFresh(o, g, raster, calls)) <==> NoClash(calls)
  {
    if NoClash(calls) {
      forall raster: Rasterizer ensures RunCached(map[], o, g, raster, calls).1 == RunFresh(o, g, raster, calls) {
        hide NoClash, Uses;
        CacheRefines(map[], o, g, raster, calls);
      }
    } else {
      var i, j, key :| 0 <= i < |calls| && 0 <= j < |calls| && Uses(calls[i], key) && Uses(calls[j], key) && calls[i].px != calls[j].px;
      hide Uses, RunCached, RunFresh, NoClash;
      var first := FirstUse(calls, key, i);
      if j < first { assert false; }
      var later := if calls[i].px == calls[first].px then j else i;
      LaterUseDiffers(o, g, calls, first, later, key);
    }
  }

  // Two sizes a caller can ask for that clash: 10 and 10.1 pixels.
  lemma OffGridSizesCollide(o: Outcome, g: Geometry, variant: FontVariant, ch: char)
    ensures var calls := [Measure([ch], 10.0, variant), Measure([ch], 10.1, variant)];
      exists raster: Rasterizer :: RunCached(map[], o, g, raster, calls).1 != RunFresh(o, g, raster, calls)
  {
    var calls := [Measure([ch], 10.0, variant), Measure([ch], 10.1, variant)];
    assert HalfPixels(10.0) == 20 && HalfPixels(10.1) == 20;
    var key := KeyOf(variant, ch, 10.0);
    assert key == KeyOf(variant, calls[0].text[0], calls[0].px) == KeyOf(variant, calls[1].text[0], calls[1].px);
    assert Uses(calls[0], key) && Uses(calls[1], key);
    assert !NoClash(calls);
    hide *;
    CacheRefinesIff(o, g, calls);
  }

  // ---------- the renderer ----------

  // One more character: one more entry at most, one more glyph looked up.
  lemma NextGlyph(m: Glyphs, raster: Rasterizer, variant: FontVariant, text: string, n: nat, px: real)
    requires n < |text|
    ensures var m1 := Fill(m, raster, variant, text[..n], px);
            var m2 := Insert(m1, raster, variant, text[n], px);
      && m2 == Fill(m, raster, variant, text[..n + 1], px)
      && KeyOf(variant, text[n], px) in m2
      && Looked(m2, variant, text[..n + 1], px) == Looked(m1, variant, text[..n], px) + [m2[KeyOf(variant, text[n], px)]]
      && Advance(Looked(m2, variant, text[..n + 1], px))
         == Advance(Looked(m1, variant, text[..n], px)) + m2[KeyOf(variant, text[n], px)].advance
  {
    assert text[..n + 1][..n] == text[..n];
    var m1 := Fill(m, raster, variant, text[..n], px);
    var gs := Looked(m1, variant, text[..n], px);
    var gl := Insert(m1, raster, variant, text[n], px)[KeyOf(variant, text[n], px)];
    assert (gs + [gl])[..n] == gs;
  }

  class TextRenderer {
    const raster: Rasterizer
    var glyphs: Glyphs

    constructor (raster: Rasterizer)
      ensures this.raster == raster && glyphs == map[]
      ensures Coherent(glyphs, raster)
    {
      this.raster := raster;
      glyphs := map[];
    }

    method GetOrRasterize(variant: FontVariant, ch: char, px: real) returns (gl: Glyph)
      modifies this
      ensures glyphs == Insert(old(glyphs), raster, variant, ch, px)
      ensures KeyOf(variant, ch, px) in glyphs && gl == glyphs[KeyOf(variant, ch, px)]
    {
      var key := KeyOf(variant, ch, px);
      if key !in glyphs {
        glyphs := glyphs[key := raster(variant, ch, px)];
      }
      gl := glyphs[key];
    }

    method MeasureText(text: string, px: real, variant: FontVariant) returns (w: int)
      modifies this
      ensures glyphs == Fill(old(glyphs), raster, variant, text, px)
      ensures w == Advance(Looked(glyphs, variant, text, px))
    {
      w := 0;
      for n := 0 to |text|
        invariant glyphs == Fill(old(glyphs), raster, variant, text[..n], px)
        invariant w == Advance(Looked(glyphs, variant, text[..n], px))
      {
        NextGlyph(old(glyphs), raster, variant, text, n, px);
        var gl := GetOrRasterize(variant, text[n], px);
        w := w + gl.advance;
      }
      assert text[..|text|] == text;
    }

    // One turn of the text loop: blit at the cursor, then advance it.
    method DrawChar(pixels: array<u8>, g: Geometry, cursorX: int, y: int, ch: char, px: real, c: Color, variant: FontVariant)
      returns (next: int)
      requires Fits(g, pixels.Length)
      modifies this, pixels
      ensures glyphs == Insert(old(glyphs), raster, variant, ch, px) && KeyOf(variant, ch, px) in glyphs
      ensures var gl := glyphs[KeyOf(variant, ch, px)];
        && next == cursorX + gl.advance
        && pixels[..] == Painted(old(pixels[..]), g, GlyphInk(gl, cursorX + gl.xmin, y - gl.ymin - gl.height, c))
    {
      hide *;
      var gl := GetOrRasterize(variant, ch, px);
      if gl.width == 0 {
        NoInk(pixels[..], g, gl, cursorX + gl.xmin, y - gl.ymin - gl.height, c);
        return cursorX + gl.advance;
      }
      var glyphTop := y - gl.ymin - gl.height;
      var glyphLeft := cursorX + gl.xmin;
      BlitGlyph(pixels, g, gl, glyphLeft, glyphTop, c);
      next := cursorX + gl.advance;
    }

    method DrawText(pixels: array<u8>, g: Geometry, x: int, y: int, text: string, px: real, c: Color, variant: FontVariant)
      returns (w: int)
      requires Fits(g, pixels.Length)
      modifies this, pixels
      ensures glyphs == Fill(old(glyphs), raster, variant, text, px)
      ensures pixels[..] == Drawn(old(pixels[..]), g, x, y, c, Looked(glyphs, variant, text, px))
      ensures w == Advance(Looked(glyphs, variant, text, px))
    {
      hide *;
      var cursorX := x;
      NothingYet(glyphs, raster, variant, text, px, pixels[..], g, x, y, c);
      for n := 0 to |text|
        invariant glyphs == Fill(old(glyphs), raster, variant, text[..n], px)
        invariant pixels[..] == Drawn(old(pixels[..]), g, x, y, c, Looked(glyphs, variant, text[..n], px))
        invariant cursorX == x + Advance(Looked(glyphs, variant, text[..n], px))
      {
        NextGlyph(old(glyphs), raster, variant, text, n, px);
        DrawnNext(old(pixels[..]), g, x, y, c, Looked(glyphs, variant, text[..n], px),
                  Insert(glyphs, raster, variant, text[n], px)[KeyOf(variant, text[n], px)]);
        cursorX := DrawChar(pixels, g, cursorX, y, text[n], px, c, variant);
      }
      assert text[..|text|] == text;
      w := cursorX - x;
    }
  }

  lemma NothingYet(m: Glyphs, raster: Rasterizer, variant: FontVariant, text: string, px: real,
                   p: seq<u8>, g: Geometry, x: int, y: int, c: Color)
    ensures Fill(m, raster, variant, text[..0], px) == m
    ensures Looked(m, variant, text[..0], px) == []
    ensures Drawn(p, g, x, y, c, []) == p && Advance([]) == 0
  {}

  method BlitGlyph(pixels: array<u8>, g: Geometry, gl: Glyph, left: int, top: int, c: Color)
    requires Fits(g, pixels.Length)
    modifies pixels
    ensures pixels[..] == Painted(old(pixels[..]), g, GlyphInk(gl, left, top, c))
  {
    ghost var was := pixels[..];
    ghost var ink := GlyphInk(gl, left, top, c);
    PaintNothing(was, g, UpTo(ink, left, top));
    for row := 0 to gl.height
      invariant PaintedUpTo(was, pixels[..], g, ink, left, top + row)
    {
      var py := top + row;
      if py < 0 || py >= AsI32(g.h) {
        PaintedAgree(was, g, UpTo(ink, left, py), UpTo(ink, left, py + 1));
        continue;
      }
      BlitRow(pixels, g, gl, left, top, row, c, was);
      PaintedAgree(was, g, UpTo(ink, left + gl.width, py), UpTo(ink, left, py + 1));
    }
    PaintedAgree(was, g, UpTo(ink, left, top + gl.height), ink);
  }

  method BlitRow(pixels: array<u8>, g: Geometry, gl: Glyph, left: int, top: int, row: nat, c: Color, ghost was: seq<u8>)
    requires Fits(g, pixels.Length) && |was| == pixels.Length
    requires row < gl.height && 0 <= top + row < g.h
    requires PaintedUpTo(was, pixels[..], g, GlyphInk(gl, left, top, c), left, top + row)
    modifies pixels
    ensures PaintedUpTo(was, pixels[..], g, GlyphInk(gl, left, top, c), left + gl.width, top + row)
  {
    ghost var ink := GlyphInk(gl, left, top, c);
    var py: nat := top + row;
    for col := 0 to gl.width
      invariant PaintedUpTo(was, pixels[..], g, ink, left + col, py)
    {
      var pxX := left + col;
      CellIndex(row, col, gl.width, gl.height);
      var coverage := gl.bitmap[row * gl.width + col];
      assert py - top == row && pxX - left == col;
      assert Coverage(gl, row, col) == coverage;
      if pxX < 0 || pxX >= AsI32(g.w) {
        PaintedAgree(was, g, UpTo(ink, pxX, py), UpTo(ink, pxX + 1, py));
        continue;
      }
      if coverage == 0 {
        PaintedAgree(was, g, UpTo(ink, pxX, py), UpTo(ink, pxX + 1, py));
        continue;
      }
      BlitPixel(pixels, g, ink, pxX, py, c.(a := coverage), was);
    }
  }

  method BlitPixel(pixels: array<u8>, g: Geometry, ghost ink: Layer, x: nat, y: nat, c: Color, ghost was: seq<u8>)
    requires Fits(g, pixels.Length) && x < g.w && y < g.h && |was| == pixels.Length
    requires ink(x, y) == Some(c)
    requires PaintedUpTo(was, pixels[..], g, ink, x, y)
    modifies pixels
    ensures PaintedUpTo(was, pixels[..], g, ink, x + 1, y)
  {
    hide PaintedUpTo;
    PixelInBounds(g, pixels.Length, x, y);
    var idx := y * g.stride + x * 4;
    ghost var mid := pixels[..];
    BlendPixel(pixels, idx, c);
    PutPixel(was, mid, pixels[..], g, ink, x, y, idx);
  }
}
