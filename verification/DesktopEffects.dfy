/**
 What each event does to the desktop, said of the elements, slots and effects
 before and after it.
 */
module DesktopEffects {
  import opened Wrappers
  import opened Workspaces
  import opened IpcMessages
  import opened Desktop
  import opened DesktopProofs

  // Position n is the lowest element of the space on this surface.
  predicate LowestOn(s: Space, n: nat, surface: nat) {
    && n < |s| && s[n].window.surface == surface
    && forall m :: 0 <= m < n ==> s[m].window.surface != surface
  }

  predicate NoneOn(s: Space, surface: nat) { forall m :: 0 <= m < |s| ==> s[m].window.surface != surface }

  lemma {:induction false} FindsLowest(s: Space, n: nat, surface: nat)
    requires LowestOn(s, n, surface)
    ensures FindSurface(s, surface) == Some(s[n])
  {
    if n > 0 {
      assert s[1..][n - 1] == s[n];
      FindsLowest(s[1..], n - 1, surface);
    }
  }

  lemma {:induction false} FindsNone(s: Space, surface: nat)
    requires NoneOn(s, surface)
    ensures FindSurface(s, surface) == None
  {
    if s != [] {
      forall m | 0 <= m < |s[1..]| ensures s[1..][m].window.surface != surface { assert s[1..][m] == s[m + 1]; }
      FindsNone(s[1..], surface);
    }
  }

  // The desktop starts with one to nine empty workspaces, the first active,
  // unlocked and with no slot filled.
  lemma StartsEmpty(count: nat, wrap: bool)
    ensures var d := Initial(count, wrap);
      && d.mgr.count == |d.spaces| == (if count == 0 then 1 else if count < 9 then count else 9)
      && d.mgr.active == 0 && d.lock == None && d.kbd == None && d.grab == None && d.effects == []
      && forall i :: 0 <= i < d.mgr.count ==> d.spaces[i] == [] && d.mgr.focused[i] == None
  {}

  // ---------- toplevels ----------

  // A new toplevel is the top element of the active workspace, at its place,
  // and the active slot names it; the other workspaces and slots stay.
  lemma NewToplevelIsOnTop(d: Desk, w: Window, loc: Point)
    requires Shape(d)
    ensures var r := Step(d, NewToplevel(w, loc)); var a := d.mgr.active; var s := r.spaces[a];
      && r.mgr.active == a && s != [] && s[|s| - 1] == Element(w, loc) && s[..|s| - 1] == Without(d.spaces[a], w)
      && r.mgr.focused[a] == Some(w.pid) && w in r.live
      && forall i :: 0 <= i < d.mgr.count && i != a ==> r.spaces[i] == d.spaces[i] && r.mgr.focused[i] == d.mgr.focused[i]
  {
    hide Without;
  }

  // A destroyed surface: the lowest element on it in the first workspace that
  // has one goes, and the active slot is emptied exactly if it named that
  // window.
  lemma DestroyClearsTheSlot(d: Desk, surface: nat, k: nat, n: nat)
    requires Shape(d) && k < |d.spaces| && LowestOn(d.spaces[k], n, surface)
    requires forall j :: 0 <= j < k ==> NoneOn(d.spaces[j], surface)
    ensures var r := Step(d, Destroyed(surface)); var a := d.mgr.active; var w := d.spaces[k][n].window;
      && r.mgr.focused[a] == (if d.mgr.focused[a] == Some(w.pid) then None else d.mgr.focused[a])
      && (forall i :: 0 <= i < d.mgr.count && i != a ==> r.mgr.focused[i] == d.mgr.focused[i])
      && r.mgr.active == a && r.spaces == d.spaces[k := Without(d.spaces[k], w)]
      && forall u :: u in r.live <==> u in d.live && u.surface != surface
  {
    FirstHolder(d.spaces, surface, k, n);
    hide Without, FindSurface, SpaceOf;
  }

  lemma FirstHolder(spaces: seq<Space>, surface: nat, k: nat, n: nat)
    requires k < |spaces| && LowestOn(spaces[k], n, surface)
    requires forall j :: 0 <= j < k ==> NoneOn(spaces[j], surface)
    ensures SpaceOf(spaces, surface) == k && FindSurface(spaces[k], surface) == Some(spaces[k][n])
  {
    FindsLowest(spaces[k], n, surface);
    forall j | 0 <= j < k ensures FindSurface(spaces[j], surface) == None { FindsNone(spaces[j], surface); }
    hide FindSurface, LowestOn, NoneOn;
  }

  // A surface mapped nowhere changes no slot and no workspace.
  lemma DestroyOfUnmapped(d: Desk, surface: nat)
    requires Shape(d) && forall j :: 0 <= j < |d.spaces| ==> NoneOn(d.spaces[j], surface)
    ensures var r := Step(d, Destroyed(surface)); r.mgr == d.mgr && r.spaces == d.spaces
  {
    forall j | 0 <= j < |d.spaces| ensures FindSurface(d.spaces[j], surface) == None { FindsNone(d.spaces[j], surface); }
    hide FindSurface, NoneOn;
  }

  // An id is its surface's, so ids never reused are surfaces never reused.
  predicate FreshSurface(d: Desk, e: Event) {
    e.NewToplevel? ==> forall u :: u in d.used ==> u.surface != e.window.surface
  }

  ghost predicate UsedSurfacesDistinct(d: Desk) {
    forall u, v :: u in d.used && v in d.used && u.surface == v.surface ==> u == v
  }

  lemma {:induction false} SurfacesNeverReused(d: Desk, es: seq<Event>, n: nat)
    requires Shape(d) && UsedSurfacesDistinct(d) && n <= |es|
    requires forall i :: 0 <= i < |es| ==> FreshSurface(Run(d, es[..i]), es[i])
    ensures UsedSurfacesDistinct(Run(d, es[..n]))
  {
    hide Step, UsedSurfacesDistinct, FreshSurface;
    if n > 0 {
      SurfacesNeverReused(d, es, n - 1);
      RunNext(d, es, n - 1);
      hide Run;
      UsedStep(Run(d, es[..n - 1]), es[n - 1]);
    } else {
      assert es[..0] == [];
    }
  }

  lemma UsedStep(d: Desk, e: Event)
    requires Shape(d) && UsedSurfacesDistinct(d) && FreshSurface(d, e)
    ensures UsedSurfacesDistinct(Step(d, e))
  {
    if !e.NewToplevel? && !e.Destroyed? { LiveFrame(d, e); }
    hide MapElement, Without, FindSurface, SpaceOf;
  }

  // Over every run with ids never reused: right after a window is destroyed,
  // the active slot does not name it.
  lemma DestroyedIsNotNamed(count: nat, wrap: bool, es: seq<Event>, u: Window)
    requires forall i :: 0 <= i < |es| ==> FreshId(Run(Initial(count, wrap), es[..i]), es[i])
    requires forall i :: 0 <= i < |es| ==> FreshSurface(Run(Initial(count, wrap), es[..i]), es[i])
    requires u in Run(Initial(count, wrap), es).live
    ensures var r := Step(Run(Initial(count, wrap), es), Destroyed(u.surface)); r.mgr.focused[r.mgr.active] != Some(u.pid)
  {
    var d := Initial(count, wrap);
    assert UsedSurfacesDistinct(d);
    SurfacesNeverReused(d, es, |es|);
    FocusSlotsAgree(count, wrap, es, |es|);
    assert es[..|es|] == es;
    hide Run, Initial, Step, SlotsAgree, IdsDistinct, FreshId, FreshSurface;
    DestroyForgets(Run(d, es), u);
  }

  lemma DestroyForgets(d: Desk, u: Window)
    requires Shape(d) && SlotsAgree(d) && IdsDistinct(d) && UsedSurfacesDistinct(d) && u in d.live
    ensures var r := Step(d, Destroyed(u.surface)); r.mgr.active < |r.mgr.focused| && r.mgr.focused[r.mgr.active] != Some(u.pid)
  {
    var a, i := d.mgr.active, SpaceOf(d.spaces, u.surface);
    if d.mgr.focused[a] == Some(u.pid) {
      assert Holds(d, a, u);
      FindSurfaceFacts(d.spaces[a], u.surface);
      assert i <= a;
      FindSurfaceFacts(d.spaces[i], u.surface);
      var w := FindSurface(d.spaces[i], u.surface).value.window;
      assert w in Members(d.spaces[i]) && w in d.used && w == u;
    }
    hide FindSurface, Without, Members, SpaceOf;
  }

  // ---------- moves ----------

  // An accepted move: the lowest window of the active workspace with the
  // slot's id becomes the top of the target, where it was; the slot's id moves
  // with it.  A key and a request do the same.
  lemma MoveTakesTheWindow(d: Desk, target: nat, loadedWrap: bool, n: nat)
    requires Shape(d) && target < d.mgr.count && target != d.mgr.active && d.mgr.focused[d.mgr.active].Some?
    requires var s := d.spaces[d.mgr.active]; var id := d.mgr.focused[d.mgr.active].value;
      n < |s| && s[n].window.pid == id && forall m :: 0 <= m < n ==> s[m].window.pid != id
    ensures var r := Step(d, Ipc(MoveFocused(target), loadedWrap)); var a := d.mgr.active; var e := d.spaces[a][n]; var t := r.spaces[target];
      && r.spaces[a] == Without(d.spaces[a], e.window)
      && t != [] && t[|t| - 1] == e && t[..|t| - 1] == Without(d.spaces[target], e.window)
      && r.mgr.active == a && r.mgr.focused == d.mgr.focused[a := None][target := Some(e.window.pid)]
      && forall i :: 0 <= i < d.mgr.count && i != a && i != target ==> r.spaces[i] == d.spaces[i]
  {
    var a, id := d.mgr.active, d.mgr.focused[d.mgr.active].value;
    var p, e := Plan(a, target, id), d.spaces[a][n];
    FindsLowestId(d.spaces[a], n, id);
    LocatesFirst(d.spaces[a], n);
    MoveRequestShape(d, target, loadedWrap);
    MoveShape(d.spaces, p, e);
    hide FindPid, LocationOf, Without, MoveBetween, Step, Members;
    assert MapElement(d.spaces[target], e.window, e.loc) == Without(d.spaces[target], e.window) + [e];
  }

  lemma MoveRequestShape(d: Desk, target: nat, loadedWrap: bool)
    requires Shape(d) && target < d.mgr.count && target != d.mgr.active && d.mgr.focused[d.mgr.active].Some?
    ensures var r := Step(d, Ipc(MoveFocused(target), loadedWrap)); var a := d.mgr.active; var id := d.mgr.focused[a].value;
      && r.mgr.active == a && r.mgr.focused == d.mgr.focused[a := None][target := Some(id)]
      && r.spaces == MoveBetween(d.spaces, Plan(a, target, id))
  {
    hide MoveBetween;
  }

  lemma {:induction false} FindsLowestId(s: Space, n: nat, pid: nat)
    requires n < |s| && s[n].window.pid == pid && forall m :: 0 <= m < n ==> s[m].window.pid != pid
    ensures FindPid(s, pid) == Some(s[n])
  {
    if n > 0 {
      assert s[1..][n - 1] == s[n];
      FindsLowestId(s[1..], n - 1, pid);
    }
  }

  lemma {:induction false} FindsNoId(s: Space, pid: nat)
    requires forall m :: 0 <= m < |s| ==> s[m].window.pid != pid
    ensures FindPid(s, pid) == None
  {
    if s != [] {
      forall m | 0 <= m < |s[1..]| ensures s[1..][m].window.pid != pid { assert s[1..][m] == s[m + 1]; }
      FindsNoId(s[1..], pid);
    }
  }

  lemma {:induction false} LocatesFirst(s: Space, n: nat)
    requires n < |s| && forall m :: 0 <= m < n ==> s[m].window != s[n].window
    ensures LocationOf(s, s[n].window) == Some(s[n].loc)
  {
    if n > 0 {
      assert s[1..][n - 1] == s[n];
      LocatesFirst(s[1..], n - 1);
    }
  }

  // Super+Shift with a digit is the request with that workspace.
  lemma ShiftDigitMoves(d: Desk, k: nat, loadedWrap: bool)
    requires Shape(d) && d.lock.None? && !d.shutdown
    ensures Step(d, Key(Mods(true, true), Digit(k))) == Step(d, Ipc(MoveFocused(k), loadedWrap))
  {
    hide OnMoveFocused;
  }

  // ---------- drags and clicks ----------

  // A drag starts with the lowest window of the active workspace on the
  // surface, from where it is; without one nothing happens.
  lemma DragStartsWhereItIs(d: Desk, surface: nat, n: nat)
    requires Shape(d)
    requires LowestOn(ActiveSpace(d), n, surface) || NoneOn(ActiveSpace(d), surface)
    ensures Step(d, MoveRequest(surface))
         == if LowestOn(ActiveSpace(d), n, surface) then d.(grab := Some(Grab(ActiveSpace(d)[n].window, ActiveSpace(d)[n].loc))) else d
  {
    var s := ActiveSpace(d);
    if LowestOn(s, n, surface) {
      FindsLowest(s, n, surface);
      LocatesFirst(s, n);
    } else {
      FindsNone(s, surface);
    }
    hide FindSurface, LowestOn, NoneOn, LocationOf;
  }

  // Each motion puts the dragged window on top of the active workspace, at its
  // first place plus the whole way of the pointer; a release ends that.
  lemma DragFollowsThePointer(d: Desk, delta: Point)
    requires Shape(d) && d.lock.None? && d.grab.Some?
    ensures var g := d.grab.value; var r := Step(d, Motion(delta)); var s := r.spaces[d.mgr.active];
      && s != [] && s[|s| - 1] == Element(g.window, Point(g.initial.x + delta.x, g.initial.y + delta.y))
      && s[..|s| - 1] == Without(ActiveSpace(d), g.window)
      && r == d.(spaces := d.spaces[d.mgr.active := s])
    ensures Step(d, ButtonRelease) == d.(grab := None)
  {
    hide Without;
  }

  // A motion or a release without a drag changes nothing.
  lemma NoDragNoMotion(d: Desk, delta: Point)
    requires Shape(d) && d.grab.None?
    ensures Step(d, Motion(delta)) == d && Step(d, ButtonRelease) == d
  {}

  // A click on a window raises it where it is and gives it the keyboard; a
  // click on nothing takes the keyboard away.
  lemma ClickRaisesAndFocuses(d: Desk, n: nat)
    requires Shape(d) && d.lock.None?
    requires n < |ActiveSpace(d)| && NoDuplicates(ActiveSpace(d))
    ensures var e := ActiveSpace(d)[n]; var r := Step(d, ButtonPress(Some(n))); var s := r.spaces[d.mgr.active];
      && s != [] && s[|s| - 1] == e && s[..|s| - 1] == Without(ActiveSpace(d), e.window)
      && r == d.(spaces := d.spaces[d.mgr.active := s], kbd := Some(e.window.surface))
    ensures Step(d, ButtonPress(None)) == d.(kbd := None)
  {
    LocatesFirst(ActiveSpace(d), n);
    hide Without, LocationOf;
  }

  // ---------- effects ----------

  // Which program each shortcut and request starts, what a reload and a quit
  // do.
  lemma ProgramsStarted(d: Desk, shift: bool, loadedWrap: bool)
    requires Shape(d)
    ensures d.lock.None? && !d.shutdown ==>
      && Step(d, Key(Mods(true, shift), KeyL)) == d.(effects := d.effects + [Spawned(LockScreen)])
      && Step(d, Key(Mods(true, shift), Return)) == d.(effects := d.effects + [Spawned(Terminal)])
      && Step(d, Key(Mods(true, shift), SuperKey)) == d.(effects := d.effects + [Spawned(Launcher)])
    ensures HandleRequest(d, SpawnLauncher, loadedWrap) == (d.(effects := d.effects + [Spawned(Launcher)]), Ok(None))
    ensures HandleRequest(d, SessionLock, loadedWrap) == (d.(effects := d.effects + [Spawned(LockScreen)]), Ok(None))
    ensures HandleRequest(d, Quit, loadedWrap) == (d.(effects := d.effects + [LoopStopped]), Ok(None))
    ensures HandleRequest(d, ReloadConfig, loadedWrap) == (d.(wrap := loadedWrap), Ok(None))
  {}

  // Super+Q asks the lowest window of the active workspace with the slot's id
  // to close, and nothing if there is none.
  lemma CloseAsksTheFocused(d: Desk, shift: bool, n: nat)
    requires Shape(d) && d.lock.None? && !d.shutdown
    requires var s := ActiveSpace(d); var slot := d.mgr.focused[d.mgr.active];
      || (n < |s| && slot == Some(s[n].window.pid) && forall m :: 0 <= m < n ==> slot != Some(s[m].window.pid))
      || (forall m :: 0 <= m < |s| ==> slot != Some(s[m].window.pid))
    ensures var s := ActiveSpace(d); var slot := d.mgr.focused[d.mgr.active];
      Step(d, Key(Mods(true, shift), KeyQ))
      == if n < |s| && slot == Some(s[n].window.pid) then d.(effects := d.effects + [CloseSent(s[n].window)]) else d
  {
    var s, slot := ActiveSpace(d), d.mgr.focused[d.mgr.active];
    if n < |s| && slot == Some(s[n].window.pid) {
      FindsLowestId(s, n, s[n].window.pid);
    } else if slot.Some? {
      forall m | 0 <= m < |s| ensures s[m].window.pid != slot.value { assert slot != Some(s[m].window.pid); }
      FindsNoId(s, slot.value);
    }
    hide FindPid;
  }

  // Every other key goes to the focused client: one without Super, an unbound
  // one, and any key while locked or shutting down.
  lemma OtherKeysAreForwarded(d: Desk, mods: Mods, sym: Keysym)
    requires Shape(d) && (d.lock.Some? || d.shutdown || !mods.logo || sym.OtherKey?)
    ensures Step(d, Key(mods, sym)) == d.(effects := d.effects + [KeyForwarded(d.kbd)])
  {}

  // The first lock request sets the holder and takes the keyboard; surfaces
  // are recorded in order of arrival, and only under a lock.
  lemma LockRecordsItsHolder(d: Desk, client: nat, surface: nat)
    requires Shape(d)
    ensures d.lock.None? ==> Step(d, LockRequest(client)) == d.(lock := Some(Lock(client, [])), kbd := None)
    ensures d.lock.None? ==> Step(d, LockSurface(surface)) == d
    ensures d.lock.Some? ==>
      Step(d, LockSurface(surface)) == d.(lock := Some(Lock(d.lock.value.holder, d.lock.value.surfaces + [surface])))
  {}

  // XWayland's readiness and the shutdown signal only set their flags.
  lemma FlagsAreSet(d: Desk, ready: bool)
    requires Shape(d)
    ensures Step(d, Xwayland(ready)) == d.(xwaylandReady := ready) && Step(d, Signal) == d.(shutdown := true)
  {}
}
