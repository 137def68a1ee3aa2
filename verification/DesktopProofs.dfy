/**
 What every run of the compositor keeps: windows are conserved, focus slots
 agree with the spaces, and a locked session takes no input.
 */
module DesktopProofs {
  import opened Wrappers
  import opened Workspaces
  import opened IpcMessages
  import opened Desktop

  // ---------- window conservation ----------

  // Each live window is mapped in exactly one workspace, once, and nothing
  // else is mapped.
  ghost predicate Conserved(d: Desk) {
    && (forall i :: 0 <= i < |d.spaces| ==> NoDuplicates(d.spaces[i]))
    && (forall i, w :: 0 <= i < |d.spaces| && w in Members(d.spaces[i]) ==> w in d.live)
    && (forall i, j, w :: 0 <= i < |d.spaces| && 0 <= j < |d.spaces| && w in Members(d.spaces[i]) && w in Members(d.spaces[j]) ==> i == j)
    && (forall w :: w in d.live ==> exists i :: 0 <= i < |d.spaces| && w in Members(d.spaces[i]))
  }

  // No two live windows share a surface.
  ghost predicate SurfacesDistinct(d: Desk) {
    && d.live <= d.used
    && forall u, v :: u in d.live && v in d.live && u.surface == v.surface ==> u == v
  }

  // Every toplevel gets a window object of its own, and xdg-shell gives a
  // surface a new toplevel only once the old one is destroyed.
  predicate Enabled(d: Desk, e: Event) {
    e.NewToplevel? ==> e.window !in d.used && forall u :: u in d.live ==> u.surface != e.window.surface
  }

  // The guard on drags: a motion that moves a window finds it mapped in the
  // workspace that is active at that moment.
  predicate DragInPlace(d: Desk, e: Event)
    requires Shape(d)
  {
    e.Motion? && d.lock.None? && d.grab.Some? ==> d.grab.value.window in Members(ActiveSpace(d))
  }

  // Replacing one space by another with the same windows changes nothing.
  lemma SameMembers(d: Desk, i: nat, s: Space)
    requires Conserved(d) && i < |d.spaces|
    requires NoDuplicates(s) && Members(s) == Members(d.spaces[i])
    ensures Conserved(d.(spaces := d.spaces[i := s]))
  {
    var d' := d.(spaces := d.spaces[i := s]);
    forall w | w in d'.live ensures exists j :: 0 <= j < |d'.spaces| && w in Members(d'.spaces[j]) {
      var j :| 0 <= j < |d.spaces| && w in Members(d.spaces[j]);
      assert w in Members(d'.spaces[j]);
    }
  }

  lemma Added(d: Desk, i: nat, w: Window, loc: Point)
    requires Conserved(d) && i < |d.spaces| && w !in d.live
    ensures Conserved(d.(spaces := d.spaces[i := MapElement(d.spaces[i], w, loc)], live := d.live + {w}))
  {
    MapElementFacts(d.spaces[i], w, loc);
    var d' := d.(spaces := d.spaces[i := MapElement(d.spaces[i], w, loc)], live := d.live + {w});
    forall v | v in d'.live ensures exists j :: 0 <= j < |d'.spaces| && v in Members(d'.spaces[j]) {
      if v == w {
        assert v in Members(d'.spaces[i]);
      } else {
        var j :| 0 <= j < |d.spaces| && v in Members(d.spaces[j]);
        assert v in Members(d'.spaces[j]);
      }
    }
  }

  lemma Removed(d: Desk, i: nat, w: Window)
    requires Conserved(d) && i < |d.spaces| && w in Members(d.spaces[i])
    ensures Conserved(d.(spaces := d.spaces[i := UnmapElem(d.spaces[i], w)], live := d.live - {w}))
  {
    var d' := d.(spaces := d.spaces[i := UnmapElem(d.spaces[i], w)], live := d.live - {w});
    forall v | v in d'.live ensures exists j :: 0 <= j < |d'.spaces| && v in Members(d'.spaces[j]) {
      var j :| 0 <= j < |d.spaces| && v in Members(d.spaces[j]);
      assert v in Members(d'.spaces[j]);
    }
  }

  // What a move does: the window found goes, with its location, to the top of
  // the target; everything else keeps its workspace and its stacking order.
  lemma MoveKeepsOthers(spaces: seq<Space>, plan: Plan)
    requires plan.src < |spaces| && plan.target < |spaces| && plan.src != plan.target
    ensures var r := MoveBetween(spaces, plan);
      && |r| == |spaces|
      && match FindPid(spaces[plan.src], plan.pid)
         case None => r == spaces
         case Some(e) =>
           var w := e.window;
           && w in Members(spaces[plan.src]) && w.pid == plan.pid
           && (forall i :: 0 <= i < |spaces| ==> Without(r[i], w) == Without(spaces[i], w))
           && w !in Members(r[plan.src]) && r[plan.target] != []
           && LocationOf(spaces[plan.src], w).Some?
           && r[plan.target][|r[plan.target]| - 1] == Element(w, LocationOf(spaces[plan.src], w).value)
           && forall i :: 0 <= i < |spaces| && i != plan.src && i != plan.target ==> r[i] == spaces[i]
  {
    if FindPid(spaces[plan.src], plan.pid).Some? {
      var e := FindPid(spaces[plan.src], plan.pid).value;
      MoveShape(spaces, plan, e);
      hide MoveBetween, FindPid, LocationOf, Without, NoDuplicates, MapElement, UnmapElem, Members;
      MapElementFacts(spaces[plan.target], e.window, LocationOf(spaces[plan.src], e.window).value);
      WithoutTwice(spaces[plan.src], e.window);
    }
  }

  lemma MoveShape(spaces: seq<Space>, plan: Plan, e: Element)
    requires plan.src < |spaces| && plan.target < |spaces| && plan.src != plan.target
    requires FindPid(spaces[plan.src], plan.pid) == Some(e)
    ensures e.window in Members(spaces[plan.src]) && e.window.pid == plan.pid
    ensures LocationOf(spaces[plan.src], e.window).Some?
    ensures MoveBetween(spaces, plan) ==
      spaces[plan.src := Without(spaces[plan.src], e.window)]
            [plan.target := MapElement(spaces[plan.target], e.window, LocationOf(spaces[plan.src], e.window).value)]
    ensures e.window !in Members(Without(spaces[plan.src], e.window))
  {
    FindPidFacts(spaces[plan.src], plan.pid);
    LocationOfMember(spaces[plan.src], e.window);
    hide FindPid, LocationOf, Without, Members;
  }

  // In every workspace, any two windows other than the moved one are stacked
  // after a move exactly as they were before.
  lemma MoveKeepsStacking(spaces: seq<Space>, plan: Plan, i: nat, u: Window, v: Window)
    requires plan.src < |spaces| && plan.target < |spaces| && plan.src != plan.target && i < |spaces|
    requires var e := FindPid(spaces[plan.src], plan.pid); e.Some? ==> u != e.value.window && v != e.value.window
    ensures |MoveBetween(spaces, plan)| == |spaces|
    ensures Below(MoveBetween(spaces, plan)[i], u, v) <==> Below(spaces[i], u, v)
  {
    match FindPid(spaces[plan.src], plan.pid)
    case None =>
    case Some(e) =>
      MoveShape(spaces, plan, e);
      WithoutKeepsStacking(spaces[plan.src], e.window, u, v);
      MapKeepsStacking(spaces[plan.target], e.window, LocationOf(spaces[plan.src], e.window).value, u, v);
      hide Below, Without, MapElement, MoveBetween, LocationOf, FindPid;
  }

  lemma WithoutTwice(s: Space, w: Window)
    ensures Without(Without(s, w), w) == Without(s, w)
  {
    assert w !in Members(Without(s, w));
  }

  lemma MoveConserves(d: Desk, plan: Plan)
    requires Conserved(d) && plan.src < |d.spaces| && plan.target < |d.spaces| && plan.src != plan.target
    ensures Conserved(d.(spaces := MoveBetween(d.spaces, plan)))
  {
    MoveKeepsOthers(d.spaces, plan);
    match FindPid(d.spaces[plan.src], plan.pid)
    case None =>
    case Some(e) =>
      var w := e.window;
      var d1 := d.(spaces := d.spaces[plan.src := UnmapElem(d.spaces[plan.src], w)], live := d.live - {w});
      Removed(d, plan.src, w);
      var loc := LocationOf(d.spaces[plan.src], w).value;
      Added(d1, plan.target, w, loc);
      assert d.live == d1.live + {w};
  }

  lemma DestroyConserves(d: Desk, surface: nat)
    requires Shape(d) && Conserved(d) && SurfacesDistinct(d)
    ensures Conserved(OnDestroyed(d, surface))
  {
    var i := SpaceOf(d.spaces, surface);
    if i == |d.spaces| {
      forall w | w in d.live ensures w.surface != surface {
        var j :| 0 <= j < |d.spaces| && w in Members(d.spaces[j]);
        FindSurfaceFacts(d.spaces[j], surface);
      }
      assert OnDestroyed(d, surface).live == d.live;
    } else {
      FindSurfaceFacts(d.spaces[i], surface);
      var w := FindSurface(d.spaces[i], surface).value.window;
      Removed(d, i, w);
      assert OnDestroyed(d, surface).live == d.live - {w};
    }
  }

  // A destroyed surface takes its own window out of its workspace and nothing
  // else; of the focus slots only the active one can change, and only from
  // the dead window's id to empty.
  lemma DestroyTakesOneWindow(d: Desk, surface: nat, u: Window, v: Window, i: nat)
    requires Shape(d) && u.surface != surface && v.surface != surface && i < d.mgr.count
    ensures var r := OnDestroyed(d, surface);
      && (Below(r.spaces[i], u, v) <==> Below(d.spaces[i], u, v))
      && (u in Members(r.spaces[i]) <==> u in Members(d.spaces[i]))
      && r.mgr.active == d.mgr.active && |r.mgr.focused| == |d.mgr.focused|
      && (r.mgr.focused[i] == d.mgr.focused[i]
          || (i == d.mgr.active && r.mgr.focused[i] == None
              && exists j, w: Window ::
                0 <= j < |d.spaces| && w in Members(d.spaces[j]) && w.surface == surface && d.mgr.focused[i] == Some(w.pid)))
  {
    var k := SpaceOf(d.spaces, surface);
    if k < |d.spaces| {
      FindSurfaceFacts(d.spaces[k], surface);
      var w := FindSurface(d.spaces[k], surface).value.window;
      WithoutKeepsStacking(d.spaces[k], w, u, v);
      assert w in Members(d.spaces[k]) && w.surface == surface;
      hide FindSurface, SpaceOf, Without, Members, Below;
    }
  }

  // Mapping a window into a workspace it is not in breaks conservation.
  lemma MotionConservesIff(d: Desk, delta: Point)
    requires Shape(d) && Conserved(d)
    ensures Conserved(OnMotion(d, delta)) <==> DragInPlace(d, Motion(delta))
  {
    if d.lock.None? && d.grab.Some? {
      var w, a := d.grab.value.window, d.mgr.active;
      var loc := Point(d.grab.value.initial.x + delta.x, d.grab.value.initial.y + delta.y);
      var d' := OnMotion(d, delta);
      MapElementFacts(d.spaces[a], w, loc);
      if w in Members(d.spaces[a]) {
        SameMembers(d, a, MapElement(d.spaces[a], w, loc));
      } else if w in d.live {
        var j :| 0 <= j < |d.spaces| && w in Members(d.spaces[j]);
        assert w in Members(d'.spaces[j]) && w in Members(d'.spaces[a]);
      } else {
        assert w in Members(d'.spaces[a]);
      }
    }
  }

  lemma RaiseConserves(d: Desk, w: Window)
    requires Shape(d) && Conserved(d)
    ensures Conserved(SetActiveSpace(d, RaiseElement(ActiveSpace(d), w)))
  {
    var s := ActiveSpace(d);
    LocationOfMember(s, w);
    if LocationOf(s, w).Some? {
      MapElementFacts(s, w, LocationOf(s, w).value);
      SameMembers(d, d.mgr.active, RaiseElement(s, w));
    } else {
      assert d.spaces[d.mgr.active := s] == d.spaces;
    }
  }

  // Steps that touch neither spaces nor the set of live windows.
  lemma ConservedFrame(d: Desk, d': Desk)
    requires d'.spaces == d.spaces && d'.live == d.live
    ensures Conserved(d) <==> Conserved(d')
  {}

  lemma SurfacesStep(d: Desk, e: Event)
    requires Shape(d) && SurfacesDistinct(d) && Enabled(d, e)
    ensures SurfacesDistinct(Step(d, e))
  {
    if !e.NewToplevel? && !e.Destroyed? { LiveFrame(d, e); }
  }

  lemma LiveFrame(d: Desk, e: Event)
    requires Shape(d) && !e.NewToplevel? && !e.Destroyed?
    ensures Step(d, e).live == d.live && Step(d, e).used == d.used
  {
    hide MapElement, RaiseElement, MoveBetween, LocationOf, FindSurface, FindPid, Occupied, Shape;
    if e.Key? || e.Ipc? { hide OnMotion, OnButtonPress, OnMoveRequest, OnUnlock; }
  }

  predicate MovesFocused(d: Desk, e: Event) {
    || (e.Ipc? && e.req.MoveFocused?)
    || (e.Key? && d.lock.None? && !d.shutdown && e.mods.logo && e.mods.shift && e.sym.Digit?)
  }

  lemma SpacesFrame(d: Desk, e: Event)
    requires Shape(d) && !e.NewToplevel? && !e.Destroyed? && !e.Motion? && !e.ButtonPress? && !MovesFocused(d, e)
    ensures Step(d, e).spaces == d.spaces
  {}

  lemma MoveSpaces(d: Desk, e: Event)
    requires Shape(d) && MovesFocused(d, e)
    ensures Step(d, e) == OnMoveFocused(d, if e.Ipc? then e.req.target else e.sym.idx).0
  {}

  // One step keeps conservation exactly when it is not a drag out of place.
  lemma ConservationStep(d: Desk, e: Event)
    requires Shape(d) && Conserved(d) && SurfacesDistinct(d) && Enabled(d, e)
    ensures Conserved(Step(d, e)) <==> DragInPlace(d, e)
  {
    hide Conserved, SurfacesDistinct;
    if e.Motion? {
      MotionConservesIff(d, e.delta);
    } else if e.NewToplevel? {
      NewConserves(d, e.window, e.loc);
    } else if e.Destroyed? {
      DestroyConserves(d, e.surface);
    } else if e.ButtonPress? {
      PressConserves(d, e.hit);
    } else if MovesFocused(d, e) {
      MoveSpaces(d, e);
      MoveFocusedConserves(d, if e.Ipc? then e.req.target else e.sym.idx);
    } else {
      SpacesFrame(d, e);
      LiveFrame(d, e);
      ConservedFrame(d, Step(d, e));
    }
  }

  lemma NewConserves(d: Desk, w: Window, loc: Point)
    requires Shape(d) && Conserved(d) && SurfacesDistinct(d) && Enabled(d, NewToplevel(w, loc))
    ensures Conserved(OnNewToplevel(d, w, loc))
  {
    Added(d, d.mgr.active, w, loc);
  }

  lemma PressConserves(d: Desk, hit: Option<nat>)
    requires Shape(d) && Conserved(d)
    ensures Conserved(OnButtonPress(d, hit))
  {
    if hit.Some? && hit.value < |ActiveSpace(d)| {
      RaiseConserves(d, ActiveSpace(d)[hit.value].window);
    }
  }

  lemma MoveFocusedConserves(d: Desk, target: nat)
    requires Shape(d) && Conserved(d)
    ensures Conserved(OnMoveFocused(d, target).0)
    ensures OnMoveFocused(d, target).0.live == d.live && OnMoveFocused(d, target).0.used == d.used
  {
    match d.mgr.PlanMoveFocused(target).1
    case None =>
    case Some(p) => MoveConserves(d, p);
  }

  // A run of events the clients can cause.
  ghost predicate Legal(d: Desk, es: seq<Event>)
    requires Shape(d)
  {
    forall i :: 0 <= i < |es| ==> Enabled(Run(d, es[..i]), es[i])
  }

  lemma RunNext(d: Desk, es: seq<Event>, i: nat)
    requires Shape(d) && i < |es|
    ensures Run(d, es[..i + 1]) == Step(Run(d, es[..i]), es[i])
  {
    assert es[..i + 1][..i] == es[..i];
  }

  lemma {:induction false} SurfacesStayDistinct(d: Desk, es: seq<Event>, n: nat)
    requires Shape(d) && SurfacesDistinct(d) && Legal(d, es) && n <= |es|
    ensures SurfacesDistinct(Run(d, es[..n]))
  {
    if n > 0 {
      SurfacesStayDistinct(d, es, n - 1);
      RunNext(d, es, n - 1);
      SurfacesStep(Run(d, es[..n - 1]), es[n - 1]);
    } else {
      assert es[..0] == [];
    }
  }

  lemma {:induction false} ConservedWhileInPlace(d: Desk, es: seq<Event>, n: nat)
    requires Shape(d) && Conserved(d) && SurfacesDistinct(d) && Legal(d, es) && n <= |es|
    requires forall i :: 0 <= i < n ==> DragInPlace(Run(d, es[..i]), es[i])
    ensures Conserved(Run(d, es[..n]))
  {
    if n > 0 {
      ConservedWhileInPlace(d, es, n - 1);
      SurfacesStayDistinct(d, es, n - 1);
      RunNext(d, es, n - 1);
      ConservationStep(Run(d, es[..n - 1]), es[n - 1]);
    } else {
      assert es[..0] == [];
    }
  }

  // Over any run of the compositor, every state conserves windows if and only
  // if every drag motion happens where the dragged window is mapped.
  lemma WindowsConserved(count: nat, wrap: bool, es: seq<Event>)
    requires Legal(Initial(count, wrap), es)
    ensures var d := Initial(count, wrap);
      (forall n :: 0 <= n <= |es| ==> Conserved(Run(d, es[..n])))
      <==> (forall i :: 0 <= i < |es| ==> DragInPlace(Run(d, es[..i]), es[i]))
  {
    var d := Initial(count, wrap);
    assert Conserved(d) && SurfacesDistinct(d);
    if forall i :: 0 <= i < |es| ==> DragInPlace(Run(d, es[..i]), es[i]) {
      forall n | 0 <= n <= |es| ensures Conserved(Run(d, es[..n])) {
        ConservedWhileInPlace(d, es, n);
      }
    }
    if forall n :: 0 <= n <= |es| ==> Conserved(Run(d, es[..n])) {
      forall i | 0 <= i < |es| ensures DragInPlace(Run(d, es[..i]), es[i]) {
        SurfacesStayDistinct(d, es, i);
        RunNext(d, es, i);
        assert Conserved(Run(d, es[..i + 1]));
        assert Enabled(Run(d, es[..i]), es[i]);
        ConservationStep(Run(d, es[..i]), es[i]);
      }
    }
  }

  // A run without drags conserves windows.
  lemma NoDragConserves(count: nat, wrap: bool, es: seq<Event>)
    requires Legal(Initial(count, wrap), es)
    requires forall e :: e in es ==> !e.Motion?
    ensures Conserved(Run(Initial(count, wrap), es))
  {
    WindowsConserved(count, wrap, es);
    assert es[..|es|] == es;
  }

  // The guard fails in two ways: the active workspace changes during a drag,
  // or the dragged window itself is moved away by a key.
  function DragAcross(during: Event): seq<Event> {
    [NewToplevel(Window(1, 1, 1), Point(0, 0)), MoveRequest(1), during, Motion(Point(5, 5))]
  }

  lemma SwitchingWhileDraggingDuplicates()
    ensures var es := DragAcross(Key(Mods(true, false), Digit(1)));
      Legal(Initial(2, false), es) && !Conserved(Run(Initial(2, false), es))
  {
    hide *;
    DragDuplicates(Key(Mods(true, false), Digit(1)));
  }

  lemma MovingTheDraggedWindowDuplicates()
    ensures var es := DragAcross(Key(Mods(true, true), Digit(1)));
      Legal(Initial(2, false), es) && !Conserved(Run(Initial(2, false), es))
  {
    hide *;
    DragDuplicates(Key(Mods(true, true), Digit(1)));
  }

  lemma DragDuplicates(during: Event)
    requires during == Key(Mods(true, false), Digit(1)) || during == Key(Mods(true, true), Digit(1))
    ensures Legal(Initial(2, false), DragAcross(during)) && !Conserved(Run(Initial(2, false), DragAcross(during)))
  {
    hide Run, Step, Legal, Conserved;
    OneCreation(2, false, DragAcross(during));
    DragChain(Initial(2, false), DragAcross(during), Window(1, 1, 1));
  }

  lemma OneCreation(count: nat, wrap: bool, es: seq<Event>)
    requires forall i :: 1 <= i < |es| ==> !es[i].NewToplevel?
    ensures Legal(Initial(count, wrap), es)
  {
    hide Step;
    var d := Initial(count, wrap);
    forall i | 0 <= i < |es| ensures Enabled(Run(d, es[..i]), es[i]) {
      if i == 0 { assert es[..0] == []; }
    }
  }

  lemma FourPrefixes(d: Desk, es: seq<Event>)
    requires Shape(d) && |es| == 4
    ensures var d1 := Step(d, es[0]); var d2 := Step(d1, es[1]); var d3 := Step(d2, es[2]);
      && Run(d, es[..0]) == d && Run(d, es[..1]) == d1 && Run(d, es[..2]) == d2 && Run(d, es[..3]) == d3
      && Run(d, es[..4]) == Run(d, es) == Step(d3, es[3])
  {
    hide Step;
    assert Run(d, es[..0]) == d by { assert es[..0] == []; }
    hide Run;
    RunNext(d, es, 0); RunNext(d, es, 1); RunNext(d, es, 2); RunNext(d, es, 3);
    assert es[..4] == es;
  }

  // Two empty workspaces, the first one active, nothing held.
  predicate Blank(d: Desk) {
    d.spaces == [[], []] && d.mgr == Manager(2, 0, [None, None]) && d.lock.None? && !d.shutdown
  }

  lemma DragChain(d: Desk, es: seq<Event>, w: Window)
    requires Blank(d) && w.pid == 1 && |es| == 4
    requires es[0] == NewToplevel(w, Point(0, 0)) && es[1] == MoveRequest(w.surface) && es[3] == Motion(Point(5, 5))
    requires es[2] == Key(Mods(true, false), Digit(1)) || es[2] == Key(Mods(true, true), Digit(1))
    ensures !Conserved(Run(d, es))
  {
    DragStart(d, w);
    hide Step, Conserved;
    FourPrefixes(d, es);
    hide Run;
    var d2 := Step(Step(d, es[0]), es[1]);
    DuringDrag(d2, es[2], w);
    DragEnd(Step(d2, es[2]), w, [Element(w, Point(0, 0))]);
  }

  lemma DragStart(d: Desk, w: Window)
    requires Blank(d)
    ensures var r := Step(Step(d, NewToplevel(w, Point(0, 0))), MoveRequest(w.surface));
      && r.spaces == [[Element(w, Point(0, 0))], []] && r.mgr == Manager(2, 0, [Some(w.pid), None])
      && r.lock.None? && !r.shutdown && r.grab == Some(Grab(w, Point(0, 0)))
  {
    OneWindow(w, Point(0, 0));
    hide MapElement, Without, FindSurface, LocationOf;
  }

  lemma DragEnd(d: Desk, w: Window, one: Space)
    requires Shape(d) && d.mgr.active < 2 == |d.spaces| && d.lock.None? && d.grab == Some(Grab(w, Point(0, 0)))
    requires one == [Element(w, Point(0, 0))]
    requires d.spaces[d.mgr.active] == [] && d.spaces[1 - d.mgr.active] == one
    ensures !Conserved(Step(d, Motion(Point(5, 5))))
  {
    OneWindow(w, Point(5, 5));
    MemberOfOne(w, Point(5, 5));
    MemberOfOne(w, Point(0, 0));
    var a := d.mgr.active;
    hide MapElement, Members, Conserved;
    BothMapped(Step(d, Motion(Point(5, 5))), a, 1 - a, w);
  }

  lemma OneWindow(w: Window, loc: Point)
    ensures MapElement([], w, loc) == [Element(w, loc)]
    ensures Without([Element(w, loc)], w) == []
    ensures FindSurface([Element(w, loc)], w.surface) == Some(Element(w, loc))
    ensures FindPid([Element(w, loc)], w.pid) == Some(Element(w, loc))
    ensures LocationOf([Element(w, loc)], w) == Some(loc)
  {
    assert [Element(w, loc)][..0] == [];
  }

  lemma MemberOfOne(w: Window, loc: Point)
    ensures w in Members([Element(w, loc)])
  {
    assert Element(w, loc) in [Element(w, loc)];
  }

  lemma DuringDrag(d: Desk, during: Event, w: Window)
    requires d.spaces == [[Element(w, Point(0, 0))], []] && w.pid == 1
    requires d.mgr == Manager(2, 0, [Some(1), None]) && d.lock.None? && !d.shutdown && d.grab == Some(Grab(w, Point(0, 0)))
    requires during == Key(Mods(true, false), Digit(1)) || during == Key(Mods(true, true), Digit(1))
    ensures var d' := Step(d, during); var a := d'.mgr.active;
      Shape(d') && a < 2 && d'.lock.None? && d'.grab == d.grab
      && d'.spaces[a] == [] && d'.spaces[1 - a] == [Element(w, Point(0, 0))]
  {
    OneWindow(w, Point(0, 0));
  }

  lemma BothMapped(d: Desk, i: nat, j: nat, w: Window)
    requires i < |d.spaces| && j < |d.spaces| && i != j && w in Members(d.spaces[i]) && w in Members(d.spaces[j])
    ensures !Conserved(d)
  {}

  // ---------- focus slots ----------

  predicate Holds(d: Desk, i: nat, w: Window) { i < |d.spaces| && w in Members(d.spaces[i]) }

  // No id sits in two slots, and a slot naming a live window names one mapped
  // in that slot's own workspace.
  ghost predicate SlotsAgree(d: Desk) {
    && (forall i, j :: 0 <= i < j < |d.mgr.focused| && d.mgr.focused[i].Some? ==> d.mgr.focused[i] != d.mgr.focused[j])
    && (forall i, w :: 0 <= i < |d.mgr.focused| && w in d.live && d.mgr.focused[i] == Some(w.pid) ==> Holds(d, i, w))
  }

  // ---------- exactly when slots agree ----------

  // The two guards, on the state before a step.  A new window needs an id that
  // no other slot holds and whose live bearers are all in the active space.
  predicate IdIsFree(d: Desk, w: Window)
    requires Shape(d)
  {
    && (forall i :: 0 <= i < |d.mgr.focused| && i != d.mgr.active ==> d.mgr.focused[i] != Some(w.pid))
    && (forall u :: u in d.live && u.pid == w.pid && u != w ==> u in Members(ActiveSpace(d)))
  }

  // A move takes one window along, so every other live window with the slot's
  // id must be in the target already.
  predicate BearersFollow(d: Desk, p: Plan)
    requires Shape(d) && p.src < |d.spaces| && p.target < |d.spaces|
  {
    forall u :: u in d.live && u.pid == p.pid
      ==> FindPid(d.spaces[p.src], p.pid).Some? && (FindPid(d.spaces[p.src], p.pid).value.window == u || u in Members(d.spaces[p.target]))
  }

  predicate MoveGuard(d: Desk, target: nat)
    requires Shape(d)
  {
    var plan := d.mgr.PlanMoveFocused(target).1;
    plan.Some? ==> BearersFollow(d, plan.value)
  }

  function MoveTarget(e: Event): nat
    requires e.Ipc? || e.Key?
  {
    if e.Ipc? then (if e.req.MoveFocused? then e.req.target else 0) else if e.sym.Digit? then e.sym.idx else 0
  }

  predicate SlotGuard(d: Desk, e: Event)
    requires Shape(d)
  {
    && (e.NewToplevel? ==> IdIsFree(d, e.window))
    && (MovesFocused(d, e) ==> MoveGuard(d, MoveTarget(e)))
  }

  lemma NewSlotsShape(d: Desk, w: Window, loc: Point)
    requires Shape(d)
    ensures var a := d.mgr.active; var d' := OnNewToplevel(d, w, loc);
      && d'.mgr.focused == d.mgr.focused[a := Some(w.pid)] && d'.live == d.live + {w} && |d'.spaces| == |d.spaces|
      && (forall i :: 0 <= i < |d.spaces| && i != a ==> d'.spaces[i] == d.spaces[i])
      && Members(d'.spaces[a]) == Members(d.spaces[a]) + {w}
  {
    MapElementFacts(d.spaces[d.mgr.active], w, loc);
    hide Members, MapElement;
  }

  lemma FreeIdKeepsSlots(d: Desk, w: Window, loc: Point)
    requires Shape(d) && SlotsAgree(d) && IdIsFree(d, w)
    ensures SlotsAgree(OnNewToplevel(d, w, loc))
  {
    var d' := OnNewToplevel(d, w, loc);
    NewSlotsShape(d, w, loc);
    hide OnNewToplevel, Members;
    forall i, u | 0 <= i < |d'.mgr.focused| && u in d'.live && d'.mgr.focused[i] == Some(u.pid) ensures Holds(d', i, u) {
      if i != d.mgr.active { assert Holds(d, i, u); }
    }
  }

  lemma AgreeingSlotsFreeId(d: Desk, w: Window, loc: Point)
    requires Shape(d) && SlotsAgree(OnNewToplevel(d, w, loc))
    ensures IdIsFree(d, w)
  {
    var a, d' := d.mgr.active, OnNewToplevel(d, w, loc);
    NewSlotsShape(d, w, loc);
    hide OnNewToplevel, Members;
    forall u | u in d.live && u.pid == w.pid && u != w ensures u in Members(ActiveSpace(d)) {
      assert Holds(d', a, u);
    }
    forall i | 0 <= i < |d.mgr.focused| && i != a ensures d.mgr.focused[i] != Some(w.pid) {
      assert d'.mgr.focused[i] == d.mgr.focused[i] && d'.mgr.focused[a] == Some(w.pid);
    }
  }

  lemma NewSlotsIff(d: Desk, w: Window, loc: Point)
    requires Shape(d) && SlotsAgree(d)
    ensures SlotsAgree(OnNewToplevel(d, w, loc)) <==> IdIsFree(d, w)
  {
    hide SlotsAgree, IdIsFree, OnNewToplevel;
    if IdIsFree(d, w) { FreeIdKeepsSlots(d, w, loc); }
    if SlotsAgree(OnNewToplevel(d, w, loc)) { AgreeingSlotsFreeId(d, w, loc); }
  }

  // Planned slot move and executed window move, as a pair.
  lemma MoveSlotsIff(d: Desk, target: nat)
    requires Shape(d) && SlotsAgree(d)
    ensures SlotsAgree(OnMoveFocused(d, target).0) <==> MoveGuard(d, target)
  {
    var (m, plan) := d.mgr.PlanMoveFocused(target);
    if plan.Some? {
      var p, d' := plan.value, OnMoveFocused(d, target).0;
      assert d' == d.(mgr := m, spaces := MoveBetween(d.spaces, p));
      assert m.focused == d.mgr.focused[p.src := None][p.target := Some(p.pid)] && d.mgr.focused[p.src] == Some(p.pid);
      assert p.src == d.mgr.active && p.target == target;
      hide OnMoveFocused, MoveBetween, Members, FindPid;
      if BearersFollow(d, p) {
        forall i, u | 0 <= i < |d'.mgr.focused| && u in d'.live && d'.mgr.focused[i] == Some(u.pid) ensures Holds(d', i, u) {
          MovedMembers(d, p, i, u);
          if i != p.target { assert Holds(d, i, u); }
        }
      } else if SlotsAgree(d') {
        forall u | u in d.live && u.pid == p.pid
          ensures FindPid(d.spaces[p.src], p.pid).Some? && (FindPid(d.spaces[p.src], p.pid).value.window == u || u in Members(d.spaces[p.target]))
        {
          assert Holds(d', p.target, u) && Holds(d, p.src, u);
          MovedMembers(d, p, p.target, u);
          FindPidFacts(d.spaces[p.src], p.pid);
        }
      }
    }
  }

  // Where a window is after the executed half of a move.
  lemma MovedMembers(d: Desk, p: Plan, i: nat, u: Window)
    requires Shape(d) && p.src < |d.spaces| && p.target < |d.spaces| && p.src != p.target && i < |d.spaces|
    ensures |MoveBetween(d.spaces, p)| == |d.spaces|
    ensures var found := FindPid(d.spaces[p.src], p.pid); var r := MoveBetween(d.spaces, p);
      u in Members(r[i]) <==>
        if found.None? then u in Members(d.spaces[i])
        else if i == p.src then u in Members(d.spaces[i]) && u != found.value.window
        else if i == p.target then u in Members(d.spaces[i]) || u == found.value.window
        else u in Members(d.spaces[i])
  {
    match FindPid(d.spaces[p.src], p.pid)
    case None =>
    case Some(e) =>
      MoveShape(d.spaces, p, e);
      MapElementFacts(d.spaces[p.target], e.window, LocationOf(d.spaces[p.src], e.window).value);
      hide MoveBetween, MapElement, LocationOf, Members, FindPid;
  }

  lemma DestroyKeepsSlots(d: Desk, surface: nat)
    requires Shape(d) && SlotsAgree(d)
    ensures SlotsAgree(OnDestroyed(d, surface))
  {
    var i := SpaceOf(d.spaces, surface);
    if i < |d.spaces| {
      FindSurfaceFacts(d.spaces[i], surface);
      var w, d' := FindSurface(d.spaces[i], surface).value.window, OnDestroyed(d, surface);
      assert Members(d'.spaces[i]) == Members(d.spaces[i]) - {w};
      hide FindSurface, SpaceOf, Without, Members;
      forall j, v | 0 <= j < |d'.mgr.focused| && v in d'.live && d'.mgr.focused[j] == Some(v.pid) ensures Holds(d', j, v) {
        assert Holds(d, j, v) && v != w;
      }
    }
  }

  // Restacking or adding windows in the active space disturbs no slot.
  lemma SlotsFrame(d: Desk, d': Desk)
    requires Shape(d) && Shape(d') && SlotsAgree(d)
    requires |d'.spaces| == |d.spaces| && (forall i :: 0 <= i < |d.spaces| ==> Members(d.spaces[i]) <= Members(d'.spaces[i]))
    requires d'.live == d.live && d'.mgr.focused == d.mgr.focused
    ensures SlotsAgree(d')
  {
    hide Members;
    forall i, u | 0 <= i < |d'.mgr.focused| && u in d'.live && d'.mgr.focused[i] == Some(u.pid) ensures Holds(d', i, u) {
      assert Holds(d, i, u);
    }
  }

  lemma FocusedFrame(d: Desk, e: Event)
    requires Shape(d) && !e.NewToplevel? && !e.Destroyed? && !MovesFocused(d, e)
    ensures Step(d, e).mgr.focused == d.mgr.focused
  {}

  // No other step takes a window out of a workspace; only a drag brings one in.
  lemma OtherStepsKeepMembers(d: Desk, e: Event)
    requires Shape(d) && !e.NewToplevel? && !e.Destroyed? && !MovesFocused(d, e)
    ensures |Step(d, e).spaces| == |d.spaces|
    ensures forall i :: 0 <= i < |d.spaces| ==> Members(d.spaces[i]) <= Members(Step(d, e).spaces[i])
    ensures forall i, u ::
      0 <= i < |d.spaces| && u in Members(Step(d, e).spaces[i]) ==> u in Members(d.spaces[i]) || Dragged(d, u)
  {
    var a, r := d.mgr.active, Step(d, e);
    if e.Motion? {
      MotionMembers(d, e.delta);
    } else if e.ButtonPress? {
      PressMembers(d, e.hit);
    } else {
      SpacesFrame(d, e);
    }
    assert r.spaces == d.spaces[a := r.spaces[a]];
    hide Step, Members;
  }

  predicate Dragged(d: Desk, u: Window) { d.grab.Some? && u == d.grab.value.window }

  lemma MotionMembers(d: Desk, delta: Point)
    requires Shape(d)
    ensures var s := OnMotion(d, delta).spaces[d.mgr.active];
      && Members(ActiveSpace(d)) <= Members(s)
      && (forall u :: u in Members(s) ==> u in Members(ActiveSpace(d)) || Dragged(d, u))
      && OnMotion(d, delta).spaces == d.spaces[d.mgr.active := s]
  {
    if d.lock.None? && d.grab.Some? {
      var g := d.grab.value;
      var loc := Point(g.initial.x + delta.x, g.initial.y + delta.y);
      assert OnMotion(d, delta) == SetActiveSpace(d, MapElement(ActiveSpace(d), g.window, loc));
      MapElementFacts(ActiveSpace(d), g.window, loc);
      hide OnMotion, MapElement, Members;
    } else {
      assert OnMotion(d, delta) == d && d.spaces[d.mgr.active := ActiveSpace(d)] == d.spaces;
      hide OnMotion, Members;
    }
  }

  lemma PressMembers(d: Desk, hit: Option<nat>)
    requires Shape(d)
    ensures var s := OnButtonPress(d, hit).spaces[d.mgr.active];
      Members(s) == Members(ActiveSpace(d)) && OnButtonPress(d, hit).spaces == d.spaces[d.mgr.active := s]
  {
    if d.lock.None? && hit.Some? && hit.value < |ActiveSpace(d)| {
      var w := ActiveSpace(d)[hit.value].window;
      LocationOfMember(ActiveSpace(d), w);
      MapElementFacts(ActiveSpace(d), w, LocationOf(ActiveSpace(d), w).value);
    }
  }

  // One step of any kind, drags included, keeps the agreement exactly when
  // its guard holds.
  lemma SlotsStepIff(d: Desk, e: Event)
    requires Shape(d) && SlotsAgree(d)
    ensures SlotsAgree(Step(d, e)) <==> SlotGuard(d, e)
  {
    hide SlotsAgree, IdIsFree, MoveGuard, Members;
    if e.NewToplevel? {
      NewSlotsIff(d, e.window, e.loc);
    } else if e.Destroyed? {
      DestroyKeepsSlots(d, e.surface);
    } else if MovesFocused(d, e) {
      MoveSpaces(d, e);
      MoveSlotsIff(d, MoveTarget(e));
    } else {
      FocusedFrame(d, e);
      LiveFrame(d, e);
      OtherStepsKeepMembers(d, e);
      SlotsFrame(d, Step(d, e));
    }
  }

  lemma {:induction false} SlotsWhileGuarded(d: Desk, es: seq<Event>, n: nat)
    requires Shape(d) && SlotsAgree(d) && n <= |es|
    requires forall i :: 0 <= i < n ==> SlotGuard(Run(d, es[..i]), es[i])
    ensures SlotsAgree(Run(d, es[..n]))
  {
    hide SlotsAgree, SlotGuard, Step;
    if n > 0 {
      SlotsWhileGuarded(d, es, n - 1);
      RunNext(d, es, n - 1);
      SlotsStepIff(Run(d, es[..n - 1]), es[n - 1]);
    } else {
      assert es[..0] == [];
    }
  }

  // Over every run: the slots agree in all its states if and only if every
  // new window's id was free and every moved slot's live bearers followed.
  lemma FocusSlotsAgreeIff(count: nat, wrap: bool, es: seq<Event>)
    ensures var d := Initial(count, wrap);
      (forall n :: 0 <= n <= |es| ==> SlotsAgree(Run(d, es[..n])))
      <==> (forall i :: 0 <= i < |es| ==> SlotGuard(Run(d, es[..i]), es[i]))
  {
    var d := Initial(count, wrap);
    assert SlotsAgree(d);
    hide SlotsAgree, SlotGuard, Step, Run, Initial;
    if forall i :: 0 <= i < |es| ==> SlotGuard(Run(d, es[..i]), es[i]) {
      forall n | 0 <= n <= |es| ensures SlotsAgree(Run(d, es[..n])) {
        SlotsWhileGuarded(d, es, n);
      }
    }
    if forall n :: 0 <= n <= |es| ==> SlotsAgree(Run(d, es[..n])) {
      forall i | 0 <= i < |es| ensures SlotGuard(Run(d, es[..i]), es[i]) {
        assert SlotsAgree(Run(d, es[..i])) && SlotsAgree(Run(d, es[..i + 1]));
        RunNext(d, es, i);
        SlotsStepIff(Run(d, es[..i]), es[i]);
      }
    }
  }

  // ---------- unique ids, never reused ----------

  predicate FreshId(d: Desk, e: Event) {
    e.NewToplevel? ==> forall u :: u in d.used ==> u.pid != e.window.pid
  }

  predicate NamesUsed(d: Desk, slot: Option<nat>) {
    slot.Some? ==> exists u :: u in d.used && u.pid == slot.value
  }

  // Every window and id the compositor holds on to was given out, each id to
  // one window only.
  ghost predicate IdsDistinct(d: Desk) {
    && d.live <= d.used
    && (forall u, v :: u in d.used && v in d.used && u.pid == v.pid ==> u == v)
    && (forall i :: 0 <= i < |d.mgr.focused| ==> NamesUsed(d, d.mgr.focused[i]))
    && (forall i, u :: 0 <= i < |d.spaces| && u in Members(d.spaces[i]) ==> u in d.used)
    && (d.grab.Some? ==> d.grab.value.window in d.used)
  }

  lemma FreshIdsAreGuarded(d: Desk, e: Event)
    requires Shape(d) && SlotsAgree(d) && IdsDistinct(d) && FreshId(d, e)
    ensures SlotGuard(d, e)
  {
    if e.NewToplevel? {
      forall i | 0 <= i < |d.mgr.focused| && i != d.mgr.active ensures d.mgr.focused[i] != Some(e.window.pid) {
        assert NamesUsed(d, d.mgr.focused[i]);
      }
    }
    if MovesFocused(d, e) {
      var plan := d.mgr.PlanMoveFocused(MoveTarget(e)).1;
      if plan.Some? { OnlyBearerFollows(d, plan.value); }
    }
  }

  lemma OnlyBearerFollows(d: Desk, p: Plan)
    requires Shape(d) && SlotsAgree(d) && IdsDistinct(d)
    requires p.src < |d.spaces| && p.target < |d.spaces| && d.mgr.focused[p.src] == Some(p.pid)
    ensures BearersFollow(d, p)
  {
    FindPidFacts(d.spaces[p.src], p.pid);
    hide FindPid;
    forall u | u in d.live && u.pid == p.pid
      ensures FindPid(d.spaces[p.src], p.pid).Some? && FindPid(d.spaces[p.src], p.pid).value.window == u
    {
      assert Holds(d, p.src, u);
    }
  }

  lemma NewShape(d: Desk, w: Window, loc: Point)
    requires Shape(d)
    ensures var d' := OnNewToplevel(d, w, loc);
      && d'.mgr.focused == d.mgr.focused[d.mgr.active := Some(w.pid)]
      && d'.live == d.live + {w} && d'.used == d.used + {w} && d'.grab == d.grab && |d'.spaces| == |d.spaces|
      && forall i :: 0 <= i < |d.spaces| ==> Members(d'.spaces[i]) <= Members(d.spaces[i]) + {w}
  {
    MapElementFacts(d.spaces[d.mgr.active], w, loc);
    hide Members, MapElement;
  }

  lemma NewNames(d: Desk, d': Desk, w: Window)
    requires Shape(d) && d'.mgr.focused == d.mgr.focused[d.mgr.active := Some(w.pid)] && d'.used == d.used + {w}
    requires forall i :: 0 <= i < |d.mgr.focused| ==> NamesUsed(d, d.mgr.focused[i])
    ensures forall i :: 0 <= i < |d'.mgr.focused| ==> NamesUsed(d', d'.mgr.focused[i])
  {
    forall i | 0 <= i < |d'.mgr.focused| ensures NamesUsed(d', d'.mgr.focused[i]) {
      assert NamesUsed(d, d.mgr.focused[i]);
      if i == d.mgr.active { assert w in d'.used; }
    }
  }

  lemma NewKeepsIds(d: Desk, w: Window, loc: Point)
    requires Shape(d) && IdsDistinct(d) && FreshId(d, NewToplevel(w, loc))
    ensures IdsDistinct(OnNewToplevel(d, w, loc))
  {
    hide OnNewToplevel, Members, NamesUsed;
    NewShape(d, w, loc);
    NewNames(d, OnNewToplevel(d, w, loc), w);
  }

  lemma DestroyShape(d: Desk, surface: nat)
    requires Shape(d)
    ensures var d' := OnDestroyed(d, surface);
      && d'.live <= d.live && d'.used == d.used && d'.grab == d.grab && |d'.spaces| == |d.spaces|
      && (forall j :: 0 <= j < |d.spaces| ==> Members(d'.spaces[j]) <= Members(d.spaces[j]))
      && |d'.mgr.focused| == |d.mgr.focused|
      && forall j :: 0 <= j < |d.mgr.focused| ==> d'.mgr.focused[j] == d.mgr.focused[j] || d'.mgr.focused[j] == None
  {
    hide Members, Without, FindSurface, SpaceOf;
  }

  lemma DestroyKeepsIds(d: Desk, surface: nat)
    requires Shape(d) && IdsDistinct(d)
    ensures IdsDistinct(OnDestroyed(d, surface))
  {
    DestroyShape(d, surface);
    hide OnDestroyed, Members;
    assert forall j :: 0 <= j < |d.mgr.focused| ==> NamesUsed(d, d.mgr.focused[j]);
  }

  lemma MoveKeepsIds(d: Desk, target: nat)
    requires Shape(d) && IdsDistinct(d)
    ensures IdsDistinct(OnMoveFocused(d, target).0)
  {
    var (m, plan) := d.mgr.PlanMoveFocused(target);
    if plan.Some? {
      var p, d' := plan.value, OnMoveFocused(d, target).0;
      FindPidFacts(d.spaces[p.src], p.pid);
      assert d' == d.(mgr := m, spaces := MoveBetween(d.spaces, p));
      assert NamesUsed(d, d.mgr.focused[p.src]);
      hide OnMoveFocused, MoveBetween, Members, FindPid;
      forall i, u | 0 <= i < |d'.spaces| && u in Members(d'.spaces[i]) ensures u in d'.used {
        MovedMembers(d, p, i, u);
      }
      forall i | 0 <= i < |d'.mgr.focused| ensures NamesUsed(d', d'.mgr.focused[i]) {
        assert NamesUsed(d, d.mgr.focused[i]);
      }
    }
  }

  // The grab a step leaves is the old one or a window of the active space.
  lemma GrabFrame(d: Desk, e: Event)
    requires Shape(d)
    ensures var g := Step(d, e).grab; g.None? || g == d.grab || g.value.window in Members(ActiveSpace(d))
  {
    if e.MoveRequest? { FindSurfaceFacts(ActiveSpace(d), e.surface); }
  }

  lemma IdsStep(d: Desk, e: Event)
    requires Shape(d) && IdsDistinct(d) && FreshId(d, e)
    ensures IdsDistinct(Step(d, e))
  {
    hide Members, NamesUsed;
    if e.NewToplevel? {
      NewKeepsIds(d, e.window, e.loc);
    } else if e.Destroyed? {
      DestroyKeepsIds(d, e.surface);
    } else if MovesFocused(d, e) {
      MoveSpaces(d, e);
      MoveKeepsIds(d, MoveTarget(e));
    } else {
      FocusedFrame(d, e);
      LiveFrame(d, e);
      OtherStepsKeepMembers(d, e);
      GrabFrame(d, e);
      hide Step, IdsDistinct;
      IdsFrame(d, Step(d, e));
    }
  }

  lemma IdsFrame(d: Desk, d': Desk)
    requires Shape(d) && IdsDistinct(d) && d'.live == d.live && d'.used == d.used && d'.mgr.focused == d.mgr.focused
    requires |d'.spaces| == |d.spaces|
    requires forall i, u ::
      0 <= i < |d.spaces| && u in Members(d'.spaces[i]) ==> u in Members(d.spaces[i]) || Dragged(d, u)
    requires d'.grab.None? || d'.grab == d.grab || d'.grab.value.window in Members(ActiveSpace(d))
    ensures IdsDistinct(d')
  {
    hide Members;
    forall j | 0 <= j < |d'.mgr.focused| ensures NamesUsed(d', d'.mgr.focused[j]) {
      assert NamesUsed(d, d.mgr.focused[j]);
    }
    forall i, u | 0 <= i < |d'.spaces| && u in Members(d'.spaces[i]) ensures u in d'.used {
      assert u in Members(d.spaces[i]) || Dragged(d, u);
    }
    if d'.grab.Some? && d'.grab != d.grab { assert d'.grab.value.window in Members(d.spaces[d.mgr.active]); }
  }

  // In every state reachable with ids unique and never reused - whatever is
  // dragged, moved or destroyed - the focus slots agree with the spaces.
  lemma {:induction false} FocusSlotsAgree(count: nat, wrap: bool, es: seq<Event>, n: nat)
    requires n <= |es| && forall i :: 0 <= i < |es| ==> FreshId(Run(Initial(count, wrap), es[..i]), es[i])
    ensures var r := Run(Initial(count, wrap), es[..n]); SlotsAgree(r) && IdsDistinct(r)
  {
    var d := Initial(count, wrap);
    assert SlotsAgree(d) && IdsDistinct(d);
    hide SlotsAgree, IdsDistinct, SlotGuard, Step, FreshId;
    if n > 0 {
      FocusSlotsAgree(count, wrap, es, n - 1);
      RunNext(d, es, n - 1);
      var r := Run(d, es[..n - 1]);
      FreshIdsAreGuarded(r, es[n - 1]);
      SlotsStepIff(r, es[n - 1]);
      IdsStep(r, es[n - 1]);
    } else {
      assert es[..0] == [];
    }
  }

  // Protocol ids are per client: two clients with one id share two slots.
  lemma SharedIdBreaksSlots()
    ensures var es := [NewToplevel(Window(1, 7, 1), Point(0, 0)), Ipc(SwitchWorkspace(1), false), NewToplevel(Window(2, 7, 2), Point(0, 0))];
      Legal(Initial(2, false), es) && !SlotsAgree(Run(Initial(2, false), es))
  {
    hide Run, Step, Legal, SlotsAgree;
    SharedIdChain(Initial(2, false), Window(1, 7, 1), Window(2, 7, 2),
      [NewToplevel(Window(1, 7, 1), Point(0, 0)), Ipc(SwitchWorkspace(1), false), NewToplevel(Window(2, 7, 2), Point(0, 0))]);
  }

  lemma SharedIdChain(d: Desk, u: Window, v: Window, es: seq<Event>)
    requires Blank(d) && d.used == {} && d.live == {} && u.pid == v.pid && u.surface != v.surface
    requires es == [NewToplevel(u, Point(0, 0)), Ipc(SwitchWorkspace(1), false), NewToplevel(v, Point(0, 0))]
    ensures Legal(d, es) && !SlotsAgree(Run(d, es))
  {
    SharedIdStates(d, u, v, es);
    assert es[..0] == [] && es[..3] == es;
    assert Run(d, es[..0]) == d;
    hide Run, Step, SlotsAgree;
    RunNext(d, es, 0); RunNext(d, es, 1); RunNext(d, es, 2);
    SharedSlot(Run(d, es), 0, 1);
  }

  lemma SharedIdStates(d: Desk, u: Window, v: Window, es: seq<Event>)
    requires Blank(d) && d.used == {} && d.live == {} && u.pid == v.pid
    requires es == [NewToplevel(u, Point(0, 0)), Ipc(SwitchWorkspace(1), false), NewToplevel(v, Point(0, 0))]
    ensures var d2 := Step(Step(d, es[0]), es[1]);
      d2.live == d2.used == {u} && Step(d2, es[2]).mgr.focused == [Some(u.pid), Some(u.pid)]
  {
    var d1 := Step(d, es[0]);
    NewOnBlank(d, u);
    hide OnNewToplevel;
    assert d1 == OnNewToplevel(d, u, Point(0, 0));
    var d2 := Step(d1, es[1]);
    assert d2 == d1.(mgr := Manager(2, 1, [Some(u.pid), None]));
    NewOnSecond(d2, v);
  }

  ghost predicate LiveIdsDistinct(d: Desk) {
    forall u, v :: u in d.live && v in d.live && u.pid == v.pid ==> u == v
  }

  // Unique at every moment is not enough: an id reused after its window died
  // in another workspace meets its own stale slot.
  lemma ReusedIdBreaksSlots()
    ensures var es := [NewToplevel(Window(1, 7, 1), Point(0, 0)), Ipc(SwitchWorkspace(1), false), Destroyed(1),
                       NewToplevel(Window(2, 7, 2), Point(0, 0))];
      && Legal(Initial(2, false), es) && !SlotsAgree(Run(Initial(2, false), es))
      && forall n :: 0 <= n <= |es| ==> LiveIdsDistinct(Run(Initial(2, false), es[..n]))
  {
    hide Run, Step, Legal, SlotsAgree, LiveIdsDistinct;
    ReusedIdChain(Initial(2, false), Window(1, 7, 1), Window(2, 7, 2),
      [NewToplevel(Window(1, 7, 1), Point(0, 0)), Ipc(SwitchWorkspace(1), false), Destroyed(1),
       NewToplevel(Window(2, 7, 2), Point(0, 0))]);
  }

  // A window born, switched away from and destroyed, and its id born again.
  predicate Reuses(d: Desk, u: Window, v: Window, es: seq<Event>) {
    && Blank(d) && d.used == {} && d.live == {} && u.pid == v.pid && u.surface != v.surface
    && es == [NewToplevel(u, Point(0, 0)), Ipc(SwitchWorkspace(1), false), Destroyed(u.surface), NewToplevel(v, Point(0, 0))]
  }

  lemma ReusedIdChain(d: Desk, u: Window, v: Window, es: seq<Event>)
    requires Reuses(d, u, v, es)
    ensures Legal(d, es) && !SlotsAgree(Run(d, es))
    ensures forall n :: 0 <= n <= |es| ==> LiveIdsDistinct(Run(d, es[..n]))
  {
    assert Shape(d) && |es| == 4;
    ReusedIdStates(d, u, v, es);
    FourPrefixes(d, es);
    hide Step, Run, SlotsAgree;
    assert Legal(d, es) by {
      forall i | 0 <= i < |es| ensures Enabled(Run(d, es[..i]), es[i]) {
        assert i == 0 || i == 1 || i == 2 || i == 3;
      }
    }
    forall n | 0 <= n <= |es| ensures LiveIdsDistinct(Run(d, es[..n])) {
      assert n == 0 || n == 1 || n == 2 || n == 3 || n == 4;
    }
    hide Legal, LiveIdsDistinct, Reuses;
    SharedSlot(Run(d, es), 0, 1);
  }

  lemma SharedSlot(d: Desk, i: nat, j: nat)
    requires i < j < |d.mgr.focused| && d.mgr.focused[i].Some? && d.mgr.focused[i] == d.mgr.focused[j]
    ensures !SlotsAgree(d)
  {}

  // The four states: one window, switched away from, dead, and its id again.
  lemma ReusedIdStates(d: Desk, u: Window, v: Window, es: seq<Event>)
    requires Reuses(d, u, v, es)
    ensures var d1 := Step(d, es[0]); var d2 := Step(d1, es[1]); var d3 := Step(d2, es[2]); var d4 := Step(d3, es[3]);
      && d1.live == d2.live == {u} && d3.live == {} && d4.live == {v} && d3.used == {u}
      && d4.mgr.focused == [Some(u.pid), Some(u.pid)]
  {
    var d1 := Step(d, es[0]);
    NewOnBlank(d, u);
    assert d1.spaces == [[Element(u, Point(0, 0))], []] && d1.mgr == Manager(2, 0, [Some(u.pid), None])
      && d1.live == {u} && d1.used == {u};
    hide OnNewToplevel, OnDestroyed;
    var d2 := Step(d1, es[1]);
    assert d2 == d1.(mgr := Manager(2, 1, [Some(u.pid), None]));
    ReusedIdEnd(d2, u);
    NewOnSecond(Step(d2, es[2]), v);
  }

  lemma NewOnBlank(d: Desk, u: Window)
    requires Blank(d) && d.used == {} && d.live == {}
    ensures var r := OnNewToplevel(d, u, Point(0, 0));
      && r.spaces == [[Element(u, Point(0, 0))], []] && r.mgr == Manager(2, 0, [Some(u.pid), None])
      && r.live == {u} && r.used == {u}
  {
    OneWindow(u, Point(0, 0));
  }

  lemma ReusedIdEnd(d: Desk, u: Window)
    requires d.spaces == [[Element(u, Point(0, 0))], []] && d.mgr == Manager(2, 1, [Some(u.pid), None]) && d.live == {u}
    ensures var r := OnDestroyed(d, u.surface);
      r.mgr == d.mgr && r.live == {} && r.used == d.used && |r.spaces| == 2
  {
    OneWindow(u, Point(0, 0));
    assert SpaceOf(d.spaces, u.surface) == 0;
    hide FindSurface, Without;
  }

  lemma NewOnSecond(d: Desk, v: Window)
    requires |d.spaces| == 2 && d.mgr == Manager(2, 1, [Some(v.pid), None])
    ensures var r := OnNewToplevel(d, v, Point(0, 0)); r.mgr.focused == [Some(v.pid), Some(v.pid)] && r.live == d.live + {v}
  {
    hide MapElement;
  }

  // ---------- shortcuts ----------

  // While neither locked nor shutting down: Super with an arrow goes round by
  // one, Super with a digit goes to that workspace if there is one, and a key
  // without Super reaches the focused client only.
  lemma ShortcutsSwitch(d: Desk, shift: bool, k: nat)
    requires Shape(d) && d.lock.None? && !d.shutdown
    ensures var n := d.mgr.count; var a := d.mgr.active;
      && Step(d, Key(Mods(true, shift), ArrowRight)) == d.(mgr := d.mgr.(active := if d.wrap || a < n - 1 then (a + 1) % n else a))
      && Step(d, Key(Mods(true, shift), ArrowLeft)) == d.(mgr := d.mgr.(active := if d.wrap || a > 0 then (a + n - 1) % n else a))
      && Step(d, Key(Mods(true, false), Digit(k))) == d.(mgr := d.mgr.(active := if k < n then k else a))
      && Step(d, Key(Mods(false, shift), Digit(k))) == Emit(d, KeyForwarded(d.kbd))
  {
    SwitchingGoesRound(d.mgr, d.wrap);
    if d.mgr.active == 0 && d.mgr.count == 1 { assert (0 + 1) % 1 == 0; }
  }

  // ---------- requests ----------

  // What a reply tells: Ok to a switch exactly when the active workspace
  // changed, and to it; Ok to a move exactly when a focused id moved; a
  // snapshot exactly of the state.  A refused request changes nothing, and no
  // request but these two touches workspaces or windows.
  lemma RepliesTellTheEffect(d: Desk, req: Request, loadedWrap: bool)
    requires Shape(d)
    ensures var (r, resp) := HandleRequest(d, req, loadedWrap);
      && (resp.Err? ==> r == d)
      && (r.live == d.live && r.lock == d.lock && r.kbd == d.kbd && r.grab == d.grab)
      && (!req.MoveFocused? ==> r.spaces == d.spaces && r.mgr.focused == d.mgr.focused)
      && (req.SwitchWorkspace? ==>
            && (resp == Ok(None) <==> r.mgr.active != d.mgr.active)
            && (resp == Ok(None) <==> req.idx < d.mgr.count && req.idx != d.mgr.active)
            && (resp == Ok(None) ==> r.mgr.active == req.idx))
      && (!req.SwitchWorkspace? ==> r.mgr.active == d.mgr.active)
      && (req.MoveFocused? ==>
            && (resp == Ok(None) <==> r.mgr.focused != d.mgr.focused)
            && (resp == Ok(None) ==> r.mgr.focused[req.target] == d.mgr.focused[d.mgr.active] && r.mgr.focused[d.mgr.active] == None))
      && (req.GetState? ==>
            && r == d && resp.Ok? && resp.data.Some?
            && resp.data.value.workspaceCount == d.mgr.count && resp.data.value.activeWorkspace == d.mgr.active < d.mgr.count
            && resp.data.value.xwaylandReady == d.xwaylandReady && OccupiedList(d.spaces, resp.data.value.occupied))
  {
    hide MoveBetween, Occupied;
  }

  // An Ok to a move says that a slot moved.  A window moved too exactly when
  // one with that id is mapped in the active workspace - always, when slots
  // agree and the slot names a live window.
  lemma OkMovesAWindowIff(d: Desk, target: nat)
    requires Shape(d) && OnMoveFocused(d, target).1
    ensures d.mgr.Focused().Some?
    ensures var moved := OnMoveFocused(d, target).0.spaces != d.spaces; var id := d.mgr.Focused().value;
      && (moved <==> exists w :: w in Members(ActiveSpace(d)) && w.pid == id)
      && (SlotsAgree(d) && (exists w :: w in d.live && w.pid == id) ==> moved)
  {
    var p, r := d.mgr.PlanMoveFocused(target).1.value, OnMoveFocused(d, target).0;
    assert r.spaces == MoveBetween(d.spaces, p) && p.src == d.mgr.active;
    FindPidFacts(d.spaces[p.src], p.pid);
    hide OnMoveFocused, Members, FindPid;
    match FindPid(d.spaces[p.src], p.pid)
    case None =>
      assert MoveBetween(d.spaces, p) == d.spaces;
      NoBearer(d, p);
    case Some(e) =>
      MovedMembers(d, p, p.src, e.window);
      hide MoveBetween;
      assert r.spaces[p.src] != d.spaces[p.src];
  }

  lemma NoBearer(d: Desk, p: Plan)
    requires Shape(d) && p.src < |d.spaces| && d.mgr.focused[p.src] == Some(p.pid)
    requires forall w :: w in Members(d.spaces[p.src]) ==> w.pid != p.pid
    ensures SlotsAgree(d) ==> forall w :: w in d.live ==> w.pid != p.pid
  {
    hide Members;
    if SlotsAgree(d) { assert forall w :: w in d.live && w.pid == p.pid ==> Holds(d, p.src, w); }
  }

  // ---------- the session lock ----------

  // A locked session gives no ordinary window the keyboard.
  lemma {:induction false} LockedMeansUnfocused(count: nat, wrap: bool, es: seq<Event>)
    ensures var d := Run(Initial(count, wrap), es); d.lock.Some? ==> d.kbd.None?
  {
    if es != [] {
      LockedMeansUnfocused(count, wrap, es[..|es| - 1]);
      UnfocusedStep(Run(Initial(count, wrap), es[..|es| - 1]), es[|es| - 1]);
    }
  }

  lemma UnfocusedStep(d: Desk, e: Event)
    requires Shape(d) && (d.lock.Some? ==> d.kbd.None?)
    ensures Step(d, e).lock.Some? ==> Step(d, e).kbd.None?
  {
    hide MapElement, RaiseElement, MoveBetween, SpaceOf;
  }

  // While locked, keys run no shortcut, pointer events do nothing at all, and
  // a second lock request leaves the holder and its surfaces as they were.
  lemma LockedTakesNoInput(count: nat, wrap: bool, es: seq<Event>, e: Event)
    requires Run(Initial(count, wrap), es).lock.Some?
    requires e.Key? || e.Motion? || e.ButtonPress? || e.ButtonRelease? || e.LockRequest?
    ensures var d := Run(Initial(count, wrap), es);
      Step(d, e) == if e.Key? then Emit(d, KeyForwarded(None)) else d
  {
    LockedMeansUnfocused(count, wrap, es);
  }

  // The holder changes only by unlocking, whatever happens in between.
  lemma {:induction false} HolderStays(d: Desk, es: seq<Event>)
    requires Shape(d) && d.lock.Some? && Unlock !in es
    ensures var r := Run(d, es);
      && r.lock.Some? && r.lock.value.holder == d.lock.value.holder
      && d.lock.value.surfaces <= r.lock.value.surfaces
  {
    if es != [] {
      HolderStays(d, es[..|es| - 1]);
      assert es[|es| - 1] in es;
      HolderStep(Run(d, es[..|es| - 1]), es[|es| - 1]);
    }
  }

  lemma HolderStep(d: Desk, e: Event)
    requires Shape(d) && d.lock.Some? && e != Unlock
    ensures var r := Step(d, e);
      && r.lock.Some? && r.lock.value.holder == d.lock.value.holder
      && d.lock.value.surfaces <= r.lock.value.surfaces
  {
    hide MapElement, RaiseElement, MoveBetween, SpaceOf;
  }

  // Right after unlock the focus is None or the topmost window of the
  // workspace active at that moment, even one switched to while locked.
  lemma UnlockFocus(count: nat, wrap: bool, es: seq<Event>)
    requires Run(Initial(count, wrap), es).lock.Some?
    ensures var d := Run(Initial(count, wrap), es); var s := ActiveSpace(d);
      Step(d, Unlock).lock.None?
      && Step(d, Unlock).kbd == if s == [] then None else Some(s[|s| - 1].window.surface)
  {
    LockedMeansUnfocused(count, wrap, es);
  }
}
