/**
 The client-side shared-memory buffer pool `ShmDoubleBuffer` and the
 compositor that holds committed buffers until it releases them.
 */
module ShmPool {
  import opened Wrappers
  import Raster

  type u8 = Raster.u8

  const MAX_BUFFERS := 4

  // ---------- the protocol, on values ----------

  // A buffer is named by its place in the order of creation, for ever.
  datatype Buf = Buf(w: nat, h: nat, released: bool, pixels: seq<u8>)

  // The pool keeps `bufs`; `all` also remembers buffers dropped by a resize,
  // whose release flags the compositor may still flip.  `held` are the
  // committed buffers not yet released.
  datatype Pool = Pool(w: nat, h: nat, bufs: seq<nat>, all: seq<Buf>, held: set<nat>)

  datatype Event =
    | Draw(paint: seq<u8> -> seq<u8>, allocates: bool, commit: bool)
    | Release(serial: nat)
    | Resize(w: nat, h: nat, first: bool, second: bool)

  datatype Outcome = Drawn(serial: nat) | Exhausted | AllocFailed | Done

  function Zeros(n: nat): seq<u8> { seq(n, _ => 0) }

  // Bytes of a w x h buffer of four-byte pixels.
  function Size(w: nat, h: nat): nat { w * h * 4 }

  function New(w: nat, h: nat): Pool { Pool(w, h, [], [], {}) }

  function Allocate(p: Pool, allocates: bool): (Pool, Outcome) {
    if |p.bufs| >= MAX_BUFFERS then (p, Exhausted)
    else if !allocates then (p, AllocFailed)
    else (p.(bufs := p.bufs + [|p.all|], all := p.all + [Buf(p.w, p.h, true, Zeros(Size(p.w, p.h)))]), Drawn(|p.all|))
  }

  predicate Known(bufs: seq<nat>, all: seq<Buf>) {
    forall i :: 0 <= i < |bufs| ==> bufs[i] < |all|
  }

  // Index in bufs of the first released buffer, or |bufs|.
  function FirstFree(bufs: seq<nat>, all: seq<Buf>): (i: nat)
    requires Known(bufs, all)
    ensures i <= |bufs|
    ensures i < |bufs| ==> all[bufs[i]].released
    ensures forall j :: 0 <= j < i ==> !all[bufs[j]].released
  {
    if bufs == [] then 0
    else if all[bufs[0]].released then 0
    else 1 + FirstFree(bufs[1..], all)
  }

  ghost predicate Inv(p: Pool) {
    && |p.bufs| <= MAX_BUFFERS
    && Known(p.bufs, p.all)
    && (forall i :: 0 <= i < |p.bufs| ==> p.all[p.bufs[i]].w == p.w && p.all[p.bufs[i]].h == p.h)
    && (forall i, j :: 0 <= i < j < |p.bufs| ==> p.bufs[i] != p.bufs[j])
    && (forall s :: s in p.held ==> s < |p.all| && !p.all[s].released)
    && (forall s :: 0 <= s < |p.all| ==> |p.all[s].pixels| == Size(p.all[s].w, p.all[s].h))
  }

  // A painter works on a slice in place: it cannot change its length.
  ghost predicate KeepsLength(paint: seq<u8> -> seq<u8>) {
    forall q :: |paint(q)| == |q|
  }

  // The compositor releases only what it holds.
  ghost predicate Enabled(p: Pool, e: Event) {
    (e.Release? ==> e.serial in p.held) && (e.Draw? ==> KeepsLength(e.paint))
  }

  // Painting buffer s marks it busy; a caller that commits hands it over.
  function PaintInto(p: Pool, s: nat, paint: seq<u8> -> seq<u8>, commit: bool): Pool
    requires s < |p.all|
  {
    p.(all := p.all[s := p.all[s].(pixels := paint(p.all[s].pixels), released := false)],
       held := if commit then p.held + {s} else p.held)
  }

  function Step(p: Pool, e: Event): (Pool, Outcome)
    requires Known(p.bufs, p.all)
    requires Enabled(p, e) && forall s :: s in p.held ==> s < |p.all|
  {
    match e
    case Draw(paint, allocates, commit) =>
      var i := FirstFree(p.bufs, p.all);
      if i < |p.bufs| then (PaintInto(p, p.bufs[i], paint, commit), Drawn(p.bufs[i]))
      else
        var (q, r) := Allocate(p, allocates);
        if r.Drawn? then (PaintInto(q, r.serial, paint, commit), r) else (q, r)
    case Release(s) => (p.(all := p.all[s := p.all[s].(released := true)], held := p.held - {s}), Done)
    case Resize(w, h, first, second) =>
      if w == p.w && h == p.h then (p, Done)
      else
        var (q, r) := Allocate(p.(bufs := [], w := w, h := h), first);
        if !r.Drawn? then (q, r)
        else
          var (q2, r2) := Allocate(q, second);
          (q2, if r2.Drawn? then Done else r2)
  }

  lemma AllocateSafe(p: Pool, allocates: bool)
    requires Inv(p)
    ensures var (q, r) := Allocate(p, allocates);
      && Inv(q) && p.all <= q.all && q.held == p.held
      && (r.Drawn? ==> r.serial == |p.all| < |q.all| && r.serial in q.bufs && q.all[r.serial].released)
  {
    var (q, r) := Allocate(p, allocates);
    if r.Drawn? { assert q.bufs[|p.bufs|] == r.serial; }
  }

  lemma PaintSafe(p: Pool, s: nat, paint: seq<u8> -> seq<u8>, commit: bool)
    requires Inv(p) && s < |p.all| && p.all[s].released && KeepsLength(paint)
    ensures var q := PaintInto(p, s, paint, commit);
      && Inv(q) && |q.all| == |p.all| && q.bufs == p.bufs && p.held <= q.held && s !in p.held
      && (forall t :: t in p.held ==> q.all[t] == p.all[t])
  {}

  // What every step keeps, and what it promises about held buffers: not one
  // of their pixels changes, and the buffer painted is not among them.
  lemma StepSafe(p: Pool, e: Event)
    requires Inv(p) && Enabled(p, e)
    ensures var (q, r) := Step(p, e);
      && Inv(q)
      && |q.all| >= |p.all|
      && (forall s :: s in p.held ==> q.all[s].pixels == p.all[s].pixels && (e != Release(s) ==> s in q.held))
      && (e.Draw? && r.Drawn? ==> r.serial in q.bufs && r.serial !in p.held)
  {
    match e
    case Draw(paint, allocates, commit) =>
      var i := FirstFree(p.bufs, p.all);
      if i < |p.bufs| {
        PaintSafe(p, p.bufs[i], paint, commit);
      } else {
        AllocateSafe(p, allocates);
        var (q, r) := Allocate(p, allocates);
        if r.Drawn? { PaintSafe(q, r.serial, paint, commit); }
      }
    case Release(s) =>
    case Resize(w, h, first, second) =>
      var e0 := p.(bufs := [], w := w, h := h);
      AllocateSafe(e0, first);
      AllocateSafe(Allocate(e0, first).0, second);
  }

  // With allocation working, a draw fails exactly when four buffers are busy.
  lemma DrawFailsIffAllBusy(p: Pool, paint: seq<u8> -> seq<u8>, commit: bool)
    requires Inv(p) && KeepsLength(paint)
    ensures Step(p, Draw(paint, true, commit)).1.Exhausted?
       <==> |p.bufs| == MAX_BUFFERS && forall s :: s in p.bufs ==> !p.all[s].released
    ensures !Step(p, Draw(paint, true, commit)).1.AllocFailed?
  {}

  // A release of a buffer dropped by a resize frees no buffer of the pool.
  lemma LateReleaseFreesNothing(p: Pool, s: nat)
    requires Inv(p) && s in p.held && s !in p.bufs
    ensures var q := Step(p, Release(s)).0;
      q.bufs == p.bufs && forall t :: t in p.bufs ==> q.all[t] == p.all[t]
  {}

  // After a resize nothing that was in the pool is in it any more.
  lemma ResizeDropsAll(p: Pool, w: nat, h: nat, first: bool, second: bool)
    requires Inv(p) && (w != p.w || h != p.h)
    ensures var q := Step(p, Resize(w, h, first, second)).0;
      && q.w == w && q.h == h && q.held == p.held
      && (forall s :: s in q.bufs ==> s !in p.bufs && s !in p.held && q.all[s].released)
      && |q.bufs| == if first && second then 2 else if first then 1 else 0
  {}

  // ---------- what each step does ----------

  // A draw paints the first free buffer of the pool, or a new blank one behind
  // the others; that one is then busy, held if it was committed, and no other
  // buffer changes.
  lemma DrawPaints(p: Pool, paint: seq<u8> -> seq<u8>, allocates: bool, commit: bool, i: nat)
    requires Inv(p) && KeepsLength(paint) && i <= |p.bufs|
    requires (forall j :: 0 <= j < i ==> !p.all[p.bufs[j]].released) && (i < |p.bufs| ==> p.all[p.bufs[i]].released)
    ensures var (q, r) := Step(p, Draw(paint, allocates, commit));
      if i < |p.bufs| then
        var s := p.bufs[i];
        && r == Drawn(s) && q.bufs == p.bufs
        && q.all == p.all[s := Buf(p.all[s].w, p.all[s].h, false, paint(p.all[s].pixels))]
        && q.held == (if commit then p.held + {s} else p.held)
      else if |p.bufs| < 4 && allocates then
        var s := |p.all|;
        && r == Drawn(s) && q.bufs == p.bufs + [s]
        && q.all == p.all + [Buf(p.w, p.h, false, paint(seq(p.w * p.h * 4, _ => 0)))]
        && q.held == (if commit then p.held + {s} else p.held)
      else q == p && r == if |p.bufs| < 4 then AllocFailed else Exhausted
  {
    if i < |p.bufs| {
      FirstFreeIs(p.bufs, p.all, i);
      hide FirstFree;
    } else {
      assert FirstFree(p.bufs, p.all) == |p.bufs|;
      hide FirstFree;
      if |p.bufs| < MAX_BUFFERS && allocates { NewBufferPainted(p, paint, commit); }
    }
  }

  lemma NewBufferPainted(p: Pool, paint: seq<u8> -> seq<u8>, commit: bool)
    requires |p.bufs| < MAX_BUFFERS
    ensures var q := Allocate(p, true).0; var s := |p.all|;
      && |q.all| == s + 1
      && PaintInto(q, s, paint, commit).all == p.all + [Buf(p.w, p.h, false, paint(seq(p.w * p.h * 4, _ => 0)))]
  {
    assert Zeros(Size(p.w, p.h)) == seq(p.w * p.h * 4, _ => 0);
  }

  // A release frees exactly the buffer it names.
  lemma ReleaseFrees(p: Pool, s: nat)
    requires Inv(p) && s in p.held
    ensures var q := Step(p, Release(s)).0;
      && q.all == p.all[s := Buf(p.all[s].w, p.all[s].h, true, p.all[s].pixels)]
      && q.held == p.held - {s} && q.bufs == p.bufs && q.w == p.w && q.h == p.h
  {}

  // A resize to the same size does nothing.
  lemma SameSizeKeeps(p: Pool, first: bool, second: bool)
    requires Inv(p)
    ensures Step(p, Resize(p.w, p.h, first, second)) == (p, Done)
  {}

  // ---------- every run ----------

  ghost predicate Runs(p: Pool, es: seq<Event>)
    requires Inv(p)
    decreases |es|
  {
    es == [] || (Enabled(p, es[0]) && (StepSafe(p, es[0]); Runs(Step(p, es[0]).0, es[1..])))
  }

  ghost function After(p: Pool, es: seq<Event>): (q: Pool)
    requires Inv(p) && Runs(p, es)
    ensures Inv(q)
    decreases |es|
  {
    if es == [] then p else StepSafe(p, es[0]); After(Step(p, es[0]).0, es[1..])
  }

  // Whatever is drawn, released or resized meanwhile, a committed buffer
  // shows the same pixels until its own release.
  lemma {:induction false} HeldPixelsStable(p: Pool, es: seq<Event>, s: nat)
    requires Inv(p) && Runs(p, es)
    requires s in p.held && Release(s) !in es
    ensures var q := After(p, es); s in q.held && q.all[s].pixels == p.all[s].pixels
    decreases |es|
  {
    if es != [] {
      StepSafe(p, es[0]);
      assert es[0] in es;
      HeldPixelsStable(Step(p, es[0]).0, es[1..], s);
    }
  }

  // The pool as ShmDoubleBuffer::new leaves it: two free buffers.
  function Opened(w: nat, h: nat): (p: Pool)
    ensures Inv(p) && |p.bufs| == 2 && p.held == {}
  {
    AllocateSafe(New(w, h), true);
    AllocateSafe(Allocate(New(w, h), true).0, true);
    Allocate(Allocate(New(w, h), true).0, true).0
  }

  // Over every run from a new pool, the buffer a draw hands to its painter has
  // the pool's size at that moment and exactly the bytes the painters demand.
  lemma EveryDrawFits(w: nat, h: nat, es: seq<Event>, e: Event)
    requires Runs(Opened(w, h), es)
    requires e.Draw? && KeepsLength(e.paint)
    ensures var p := After(Opened(w, h), es); var (q, r) := Step(p, e);
      r.Drawn? ==>
        && r.serial < |q.all| && |q.bufs| <= MAX_BUFFERS && r.serial !in p.held
        && q.all[r.serial].w == q.w == p.w && q.all[r.serial].h == q.h == p.h
        && |q.all[r.serial].pixels| == Size(p.w, p.h)
        && (p.w <= Raster.I32_MAX && p.h <= Raster.I32_MAX
            ==> Raster.Fits(Raster.Geometry(4 * p.w, p.w, p.h), |q.all[r.serial].pixels|))
  {
    var p := After(Opened(w, h), es);
    StepSafe(p, e);
    var (q, r) := Step(p, e);
    assert q.w == p.w && q.h == p.h;
    hide Step, After, Runs, Opened;
    if r.Drawn? {
      var i :| 0 <= i < |q.bufs| && q.bufs[i] == r.serial;
      assert q.all[q.bufs[i]].w == q.w;
      assert (4 * p.w) * p.h == Size(p.w, p.h) by { hide Inv; }
    }
  }

  // ---------- the pool object ----------

  // One buffer and the release flag the compositor's event handler shares.
  class Buffer {
    ghost const serial: nat
    const w: nat
    const h: nat
    var released: bool
    var pixels: seq<u8>

    constructor (ghost serial: nat, w: nat, h: nat)
      ensures this.serial == serial && this.w == w && this.h == h
      ensures released && pixels == Zeros(Size(w, h))
    {
      this.serial, this.w, this.h := serial, w, h;
      released, pixels := true, Zeros(Size(w, h));
    }

    function View(): Buf
      reads this
    {
      Buf(w, h, released, pixels)
    }
  }

  // What the allocating methods return: an index into the pool, or an error.
  datatype Slot = At(idx: nat) | PoolExhausted | ShmError

  class ShmDoubleBuffer {
    var w: nat
    var h: nat
    var buffers: seq<Buffer>
    ghost var all: seq<Buffer>
    ghost var held: set<nat>

    ghost predicate Valid()
      reads this, all
    {
      && (forall i :: 0 <= i < |all| ==> all[i].serial == i)
      && (forall i :: 0 <= i < |buffers| ==> buffers[i] in all)
      && Inv(View())
    }

    ghost function View(): Pool
      reads this, all
    {
      Pool(w, h, Serials(buffers), Views(all), held)
    }

    static ghost function Serials(bs: seq<Buffer>): seq<nat> {
      seq(|bs|, i requires 0 <= i < |bs| => bs[i].serial)
    }

    static ghost function Views(bs: seq<Buffer>): seq<Buf>
      reads bs
    {
      seq(|bs|, i requires 0 <= i < |bs| reads bs => bs[i].View())
    }

    ghost predicate Returned(r: Slot, o: Outcome)
      reads this
    {
      match r
      case At(i) => i < |buffers| && o == Drawn(buffers[i].serial)
      case PoolExhausted => o == Exhausted
      case ShmError => o == AllocFailed
    }

    constructor Empty(w: nat, h: nat)
      ensures Valid() && View() == New(w, h) && all == []
    {
      this.w, this.h := w, h;
      buffers, all, held := [], [], {};
    }

    // Result::Err leaves no pool; Ok holds two released buffers.
    static method Create(w: nat, h: nat, first: bool, second: bool) returns (r: Option<ShmDoubleBuffer>)
      ensures r.Some? <==> first && second
      ensures r.Some? ==> fresh(r.value) && fresh(r.value.all) && r.value.Valid()
      ensures r.Some? ==> r.value.w == w && r.value.h == h && |r.value.buffers| == 2 && r.value.held == {}
      ensures r.Some? ==> r.value.buffers[0].released && r.value.buffers[1].released
      ensures r.Some? ==> r.value.View() == Opened(w, h)
    {
      var me := new ShmDoubleBuffer.Empty(w, h);
      var a := me.AllocateOne(first);
      if !a.At? { return None; }
      ghost var one := me.all;
      var b := me.AllocateOne(second);
      assert one == one[0..] && me.all == one + me.all[|one|..];
      if !b.At? { return None; }
      assert me.View().bufs == [0, 1];
      assert me.View().all[0] == me.all[0].View() && me.View().all[1] == me.all[1].View();
      return Some(me);
    }

    method AllocateOne(allocates: bool) returns (r: Slot)
      requires Valid()
      modifies this
      ensures Valid() && View() == Allocate(old(View()), allocates).0
      ensures Returned(r, Allocate(old(View()), allocates).1)
      ensures old(all) <= all && fresh(all[|old(all)|..])
      ensures r.At? ==> buffers == old(buffers) + [all[|old(all)|]] && r.idx == |old(buffers)|
    {
      if |buffers| >= MAX_BUFFERS { return PoolExhausted; }
      if !allocates { return ShmError; }
      ghost var before := View();
      var b := new Buffer(|all|, w, h);
      buffers := buffers + [b];
      all := all + [b];
      assert View().bufs == before.bufs + [b.serial];
      assert View().all == before.all + [b.View()];
      return At(|buffers| - 1);
    }

    method FindFreeOrGrow(allocates: bool) returns (r: Slot)
      requires Valid()
      modifies this
      ensures Valid()
      ensures var p := old(View()); var i := FirstFree(p.bufs, p.all);
        if i < |p.bufs| then View() == p && r == At(i)
        else View() == Allocate(p, allocates).0 && Returned(r, Allocate(p, allocates).1)
      ensures old(all) <= all && fresh(all[|old(all)|..])
    {
      ghost var p := View();
      for i := 0 to |buffers|
        invariant forall j :: 0 <= j < i ==> !p.all[p.bufs[j]].released
      {
        assert p.bufs[i] == buffers[i].serial && p.all[p.bufs[i]] == buffers[i].View();
        if buffers[i].released {
          FirstFreeIs(p.bufs, p.all, i);
          return At(i);
        }
      }
      r := AllocateOne(allocates);
    }

    // The closure paints one free buffer; the caller may then commit it.
    method Draw(paint: seq<u8> -> seq<u8>, allocates: bool, ghost commit: bool) returns (r: Slot)
      requires Valid()
      requires KeepsLength(paint)
      modifies this, all
      ensures Valid()
      ensures View() == Step(old(View()), Event.Draw(paint, allocates, commit)).0
      ensures Returned(r, Step(old(View()), Event.Draw(paint, allocates, commit)).1)
      ensures old(all) <= all && fresh(all[|old(all)|..])
    {
      ghost var p := View();
      StepSafe(p, Event.Draw(paint, allocates, commit));
      r := FindFreeOrGrow(allocates);
      if !r.At? { return; }
      PaintBuffer(r.idx, paint, commit);
    }

    method PaintBuffer(i: nat, paint: seq<u8> -> seq<u8>, ghost commit: bool)
      requires Valid() && i < |buffers| && buffers[i].released
      requires KeepsLength(paint)
      modifies this, all
      ensures Valid() && View() == PaintInto(old(View()), old(View()).bufs[i], paint, commit)
      ensures all == old(all) && buffers == old(buffers)
    {
      ghost var q := View();
      var buf := buffers[i];
      assert q.bufs[i] == buf.serial && q.all[buf.serial] == buf.View();
      PaintSafe(q, buf.serial, paint, commit);
      buf.pixels := paint(buf.pixels);
      buf.released := false;
      if commit { held := held + {buf.serial}; }
      assert View().bufs == q.bufs;
      assert View().all == PaintInto(q, buf.serial, paint, commit).all;
    }

    // wl_buffer.release reaches the flag of exactly the buffer it names,
    // whether or not the pool still keeps that buffer.
    method MarkReleased(b: Buffer)
      requires Valid() && b in all && b.serial in held
      modifies this, b
      ensures Valid() && View() == Step(old(View()), Release(b.serial)).0
      ensures all == old(all)
    {
      ghost var p := View();
      StepSafe(p, Release(b.serial));
      b.released := true;
      held := held - {b.serial};
      assert View().all == Step(p, Release(b.serial)).0.all;
    }

    method Resize(w: nat, h: nat, first: bool, second: bool) returns (ok: bool)
      requires Valid()
      modifies this
      ensures Valid() && View() == Step(old(View()), Event.Resize(w, h, first, second)).0
      ensures ok == Step(old(View()), Event.Resize(w, h, first, second)).1.Done?
      ensures old(all) <= all && fresh(all[|old(all)|..])
    {
      if w == this.w && h == this.h { return true; }
      buffers := [];
      this.w, this.h := w, h;
      assert View() == old(View()).(bufs := [], w := w, h := h);
      var a := AllocateOne(first);
      if !a.At? { return false; }
      ghost var one := all;
      var b := AllocateOne(second);
      assert all[|old(all)|..] == one[|old(all)|..] + all[|one|..];
      return b.At?;
    }
  }

  lemma {:induction false} FirstFreeIs(bufs: seq<nat>, all: seq<Buf>, i: nat)
    requires Known(bufs, all)
    requires i < |bufs| && all[bufs[i]].released
    requires forall j :: 0 <= j < i ==> !all[bufs[j]].released
    ensures FirstFree(bufs, all) == i
  {
    var k := FirstFree(bufs, all);
    if k < i {
      assert false;
    }
  }
}
