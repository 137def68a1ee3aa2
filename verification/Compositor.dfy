/**
 `NullxesState` as the program keeps it: the two workspace objects and the
 fields of the lock, the seat and the configuration, with one method per
 handler.  Each method moves the abstract state by one `Desktop.Step`.
 */
module Compositor {
  import opened Wrappers
  import opened Workspaces
  import opened IpcMessages
  import opened Desktop

  // elements().find(|w| w.wl_surface() == surface)
  method FindBySurface(s: Space, surface: nat) returns (r: Option<Element>)
    ensures r == FindSurface(s, surface)
  {
    for i := 0 to |s|
      invariant FindSurface(s, surface) == FindSurface(s[i..], surface)
    {
      if s[i].window.surface == surface { return Some(s[i]); }
    }
    return None;
  }

  // elements().find(|w| protocol id == pid)
  method FindByPid(s: Space, pid: nat) returns (r: Option<Element>)
    ensures r == FindPid(s, pid)
  {
    for i := 0 to |s|
      invariant FindPid(s, pid) == FindPid(s[i..], pid)
    {
      if s[i].window.pid == pid { return Some(s[i]); }
    }
    return None;
  }

  class NullxesState {
    const workspaces: WorkspaceSet
    const mgr: WorkspaceManager
    var lock: Option<Lock>
    var kbdFocus: Option<nat>
    var grab: Option<Grab>
    var wrap: bool
    var xwaylandReady: bool
    var shutdown: bool
    ghost var effects: seq<Effect>
    ghost var live: set<Window>
    ghost var used: set<Window>

    ghost function View(): Desk
      reads this, workspaces, mgr
    {
      Desk(workspaces.spaces, mgr.View(), lock, kbdFocus, grab, wrap, xwaylandReady, shutdown, effects, live, used)
    }

    ghost predicate Valid()
      reads this, workspaces, mgr
    {
      Shape(View())
    }

    constructor (count: nat, wrap: bool)
      ensures Valid() && View() == Initial(count, wrap)
      ensures fresh(workspaces) && fresh(mgr)
    {
      workspaces := new WorkspaceSet(count);
      mgr := new WorkspaceManager(count);
      lock, kbdFocus, grab := None, None, None;
      this.wrap, xwaylandReady, shutdown := wrap, false, false;
      effects, live, used := [], {}, {};
    }

    method NewToplevel(w: Window, loc: Point)
      requires Valid()
      modifies this, workspaces, mgr
      ensures Valid() && View() == Step(old(View()), Event.NewToplevel(w, loc))
    {
      var activeIdx := mgr.active;
      var space := workspaces.Active(activeIdx);
      workspaces.SetActive(activeIdx, MapElement(space, w, loc));
      mgr.SetFocus(Some(w.pid));
      live, used := live + {w}, used + {w};
    }

    // Scans every workspace; clears the focus slot of the active one only.
    // The scan over all workspaces: unmap the first hit, report its id.
    method UnmapSurface(surface: nat) returns (foundId: Option<nat>)
      requires Valid()
      modifies workspaces
      ensures Valid()
      ensures var was := old(View()); var i := SpaceOf(was.spaces, surface);
        if i == |was.spaces| then View() == was && foundId == None
        else
          var w := FindSurface(was.spaces[i], surface).value.window;
          View() == was.(spaces := was.spaces[i := UnmapElem(was.spaces[i], w)]) && foundId == Some(w.pid)
    {
      ghost var was := View();
      hide FindSurface;
      foundId := None;
      for i := 0 to |workspaces.spaces|
        invariant View() == was && foundId == None
        invariant i + SpaceOf(was.spaces[i..], surface) == SpaceOf(was.spaces, surface)
      {
        var found := FindBySurface(workspaces.spaces[i], surface);
        if found.Some? {
          assert SpaceOf(was.spaces[i..], surface) == 0;
          var w := found.value.window;
          workspaces.spaces := workspaces.spaces[i := UnmapElem(workspaces.spaces[i], w)];
          return Some(w.pid);
        }
      }
      assert was.spaces[|was.spaces|..] == [];
    }

    method ToplevelDestroyed(surface: nat)
      requires Valid()
      modifies this, workspaces, mgr
      ensures Valid() && View() == Step(old(View()), Destroyed(surface))
    {
      hide SpaceOf, FindSurface, UnmapElem;
      live := set w | w in live && w.surface != surface;
      var foundId := UnmapSurface(surface);
      if foundId.Some? && mgr.focused[mgr.active] == foundId {
        mgr.SetFocus(None);
      }
    }

    method OnMoveRequest(surface: nat)
      requires Valid()
      modifies this
      ensures Valid() && View() == Step(old(View()), MoveRequest(surface))
    {
      var space := workspaces.Active(mgr.active);
      var found := FindBySurface(space, surface);
      if found == None { return; }
      var loc := LocationOf(space, found.value.window);
      grab := Some(Grab(found.value.window, if loc.Some? then loc.value else Point(0, 0)));
    }

    // The executing half of a planned move.
    method MoveWindowBetweenWorkspaces(plan: Plan)
      requires Valid()
      modifies workspaces
      ensures Valid() && View() == old(View()).(spaces := MoveBetween(old(View()).spaces, plan))
    {
      if plan.src >= |workspaces.spaces| { return; }
      var src := workspaces.spaces[plan.src];
      var found := FindByPid(src, plan.pid);
      if found == None { return; }
      var w := found.value.window;
      var at := LocationOf(src, w);
      var loc := if at.Some? then at.value else Point(0, 0);
      workspaces.spaces := workspaces.spaces[plan.src := UnmapElem(src, w)];
      if plan.target < |workspaces.spaces| {
        workspaces.spaces := workspaces.spaces[plan.target := MapElement(workspaces.spaces[plan.target], w, loc)];
      }
    }

    method MoveFocusedTo(target: nat) returns (ok: bool)
      requires Valid()
      modifies workspaces, mgr
      ensures Valid() && (View(), ok) == OnMoveFocused(old(View()), target)
    {
      var plan := mgr.PlanMoveFocused(target);
      if plan == None { return false; }
      MoveWindowBetweenWorkspaces(plan.value);
      return true;
    }

    method CloseFocusedWindow()
      requires Valid()
      modifies this
      ensures Valid() && View() == OnCloseFocused(old(View()))
    {
      var focused := mgr.focused[mgr.active];
      if focused == None { return; }
      var found := FindByPid(workspaces.spaces[mgr.active], focused.value);
      if found.Some? {
        effects := effects + [CloseSent(found.value.window)];
      }
    }

    method HandleKeybind(mods: Mods, sym: Keysym) returns (intercepted: bool)
      requires Valid()
      modifies this, workspaces, mgr
      ensures Valid()
      ensures match Keybind(old(View()), mods, sym)
        case None => !intercepted && View() == old(View())
        case Some(d) => intercepted && View() == d
    {
      if !mods.logo { return false; }
      match sym
      case Digit(idx) =>
        if mods.shift {
          var _ := MoveFocusedTo(idx);
        } else {
          var _ := mgr.SwitchTo(idx);
        }
        return true;
      case ArrowRight =>
        var _ := mgr.SwitchNext(wrap);
        return true;
      case ArrowLeft =>
        var _ := mgr.SwitchPrev(wrap);
        return true;
      case KeyQ =>
        CloseFocusedWindow();
        return true;
      case KeyL =>
        effects := effects + [Spawned(LockScreen)];
        return true;
      case Return =>
        effects := effects + [Spawned(Terminal)];
        return true;
      case SuperKey =>
        effects := effects + [Spawned(Launcher)];
        return true;
      case OtherKey =>
        return false;
    }

    method HandleKeyboard(mods: Mods, sym: Keysym)
      requires Valid()
      modifies this, workspaces, mgr
      ensures Valid() && View() == Step(old(View()), Key(mods, sym))
    {
      var intercepted := false;
      if lock == None && !shutdown {
        intercepted := HandleKeybind(mods, sym);
      }
      if !intercepted {
        effects := effects + [KeyForwarded(kbdFocus)];
      }
    }

    // PointerMotion, dropped while locked; a drag re-maps its window.
    method HandlePointerMotion(delta: Point)
      requires Valid()
      modifies workspaces
      ensures Valid() && View() == Step(old(View()), Motion(delta))
    {
      if lock.Some? || grab == None { return; }
      var g := grab.value;
      var newLoc := Point(g.initial.x + delta.x, g.initial.y + delta.y);
      workspaces.SetActive(mgr.active, MapElement(workspaces.Active(mgr.active), g.window, newLoc));
    }

    method HandlePointerButton(pressed: bool, hit: Option<nat>)
      requires Valid()
      modifies this, workspaces
      ensures Valid() && View() == Step(old(View()), if pressed then ButtonPress(hit) else ButtonRelease)
    {
      if lock.Some? { return; }
      if pressed {
        var space := workspaces.Active(mgr.active);
        if hit.Some? && hit.value < |space| {
          var w := space[hit.value].window;
          workspaces.SetActive(mgr.active, RaiseElement(space, w));
          kbdFocus := Some(w.surface);
        } else {
          kbdFocus := None;
        }
      } else {
        grab := None;
      }
    }

    method LockSession(client: nat)
      requires Valid()
      modifies this
      ensures Valid() && View() == Step(old(View()), LockRequest(client))
    {
      if lock.Some? { return; }
      lock := Some(Lock(client, []));
      kbdFocus := None;
    }

    method UnlockSession()
      requires Valid()
      modifies this
      ensures Valid() && View() == Step(old(View()), Unlock)
    {
      lock := None;
      var space := workspaces.Active(mgr.active);
      if space != [] {
        kbdFocus := Some(space[|space| - 1].window.surface);
      }
    }

    method NewLockSurface(surface: nat)
      requires Valid()
      modifies this
      ensures Valid() && View() == Step(old(View()), LockSurface(surface))
    {
      if lock == None { return; }
      lock := Some(lock.value.(surfaces := lock.value.surfaces + [surface]));
    }

    method HandleRequestOnMain(req: Request, loadedWrap: bool) returns (resp: Response)
      requires Valid()
      modifies this, workspaces, mgr
      ensures Valid() && (View(), resp) == HandleRequest(old(View()), req, loadedWrap)
    {
      match req
      case SwitchWorkspace(idx) =>
        var ok := mgr.SwitchTo(idx);
        resp := if ok then Ok(None) else Err(WorkspaceOutOfRange(idx));
      case MoveFocused(target) =>
        var ok := MoveFocusedTo(target);
        resp := if ok then Ok(None) else Err(NoFocusedWindow);
      case ReloadConfig =>
        wrap := loadedWrap;
        resp := Ok(None);
      case GetState =>
        var occupied := workspaces.OccupiedIndices();
        resp := Ok(Some(StateSnapshot(mgr.count, mgr.active, occupied, xwaylandReady)));
      case SpawnLauncher =>
        effects := effects + [Spawned(Launcher)];
        resp := Ok(None);
      case SessionLock =>
        effects := effects + [Spawned(LockScreen)];
        resp := Ok(None);
      case Quit =>
        effects := effects + [LoopStopped];
        resp := Ok(None);
    }
  }
}
