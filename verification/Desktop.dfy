/**
 The compositor's main-loop state and the handlers that change it: toplevels,
 keybindings, drags, pointer buttons, the session lock and IPC requests.

 `Desk` is the state as a value and `Step` one handler call.  The class
 `NullxesState` is the state as the program keeps it, with the handlers as
 methods proved against `Step`.
 */
module Desktop {
  import opened Wrappers
  import opened Workspaces
  import opened IpcMessages

  datatype Keysym = Digit(idx: nat) | ArrowRight | ArrowLeft | KeyQ | KeyL | Return | SuperKey | OtherKey
  datatype Mods = Mods(logo: bool, shift: bool)

  datatype Program = Launcher | LockScreen | Terminal
  datatype Effect =
    | Spawned(program: Program)
    | CloseSent(window: Window)
    | KeyForwarded(focus: Option<nat>)
    | LoopStopped

  datatype Grab = Grab(window: Window, initial: Point)
  datatype Lock = Lock(holder: nat, surfaces: seq<nat>)

  // `live` and `used` record what the clients did: the toplevels that exist,
  // and those that ever existed.
  datatype Desk = Desk(
    spaces: seq<Space>, mgr: Manager,
    lock: Option<Lock>, kbd: Option<nat>, grab: Option<Grab>,
    wrap: bool, xwaylandReady: bool, shutdown: bool,
    effects: seq<Effect>,
    live: set<Window>, used: set<Window>)

  datatype Event =
    | NewToplevel(window: Window, loc: Point)
    | Destroyed(surface: nat)
    | MoveRequest(surface: nat)
    | Key(mods: Mods, sym: Keysym)
    | Motion(delta: Point)
    | ButtonPress(hit: Option<nat>)
    | ButtonRelease
    | LockRequest(client: nat)
    | Unlock
    | LockSurface(surface: nat)
    | Ipc(req: Request, loadedWrap: bool)
    | Xwayland(ready: bool)
    | Signal

  predicate Shape(d: Desk) { d.mgr.Valid() && |d.spaces| == d.mgr.count }

  function Initial(count: nat, wrap: bool): (d: Desk)
    ensures Shape(d)
  {
    var n := ClampCount(count);
    Desk(seq(n, _ => []), Manager(n, 0, seq(n, _ => None)), None, None, None, wrap, false, false, [], {}, {})
  }

  function ActiveSpace(d: Desk): Space
    requires Shape(d)
  {
    d.spaces[d.mgr.active]
  }

  function SetActiveSpace(d: Desk, s: Space): Desk
    requires Shape(d)
  {
    d.(spaces := d.spaces[d.mgr.active := s])
  }

  function Emit(d: Desk, e: Effect): Desk { d.(effects := d.effects + [e]) }

  // ---------- toplevels ----------

  function OnNewToplevel(d: Desk, w: Window, loc: Point): (r: Desk)
    requires Shape(d)
    ensures Shape(r) && r.mgr.count == d.mgr.count
  {
    var d' := SetActiveSpace(d, MapElement(ActiveSpace(d), w, loc));
    d'.(mgr := d.mgr.SetFocus(Some(w.pid)), live := d.live + {w}, used := d.used + {w})
  }

  // The first workspace holding the surface, or the number of workspaces.
  function SpaceOf(spaces: seq<Space>, surface: nat): (i: nat)
    ensures i <= |spaces|
    ensures i < |spaces| ==> FindSurface(spaces[i], surface).Some?
    ensures forall j :: 0 <= j < i ==> FindSurface(spaces[j], surface).None?
  {
    if spaces == [] || FindSurface(spaces[0], surface).Some? then 0 else 1 + SpaceOf(spaces[1..], surface)
  }

  function OnDestroyed(d: Desk, surface: nat): (r: Desk)
    requires Shape(d)
    ensures Shape(r) && r.mgr.count == d.mgr.count
  {
    var d0 := d.(live := set w | w in d.live && w.surface != surface);
    var i := SpaceOf(d.spaces, surface);
    if i == |d.spaces| then d0
    else
      var w := FindSurface(d.spaces[i], surface).value.window;
      d0.(spaces := d.spaces[i := UnmapElem(d.spaces[i], w)],
          mgr := if d.mgr.Focused() == Some(w.pid) then d.mgr.SetFocus(None) else d.mgr)
  }

  // A window may be dragged only out of the active workspace.
  function OnMoveRequest(d: Desk, surface: nat): Desk
    requires Shape(d)
  {
    match FindSurface(ActiveSpace(d), surface)
    case None => d
    case Some(e) =>
      var loc := LocationOf(ActiveSpace(d), e.window);
      d.(grab := Some(Grab(e.window, if loc.Some? then loc.value else Point(0, 0))))
  }

  // ---------- moving between workspaces ----------

  function MoveBetween(spaces: seq<Space>, plan: Plan): seq<Space> {
    if plan.src >= |spaces| then spaces
    else
      match FindPid(spaces[plan.src], plan.pid)
      case None => spaces
      case Some(e) =>
        var found := LocationOf(spaces[plan.src], e.window);
        var loc := if found.Some? then found.value else Point(0, 0);
        var spaces' := spaces[plan.src := UnmapElem(spaces[plan.src], e.window)];
        if plan.target >= |spaces'| then spaces'
        else spaces'[plan.target := MapElement(spaces'[plan.target], e.window, loc)]
  }

  function OnMoveFocused(d: Desk, target: nat): (r: (Desk, bool))
    requires Shape(d)
    ensures Shape(r.0) && r.0.mgr.count == d.mgr.count
  {
    var (m, plan) := d.mgr.PlanMoveFocused(target);
    match plan
    case None => (d, false)
    case Some(p) => (d.(mgr := m, spaces := MoveBetween(d.spaces, p)), true)
  }

  // ---------- keyboard ----------

  function OnCloseFocused(d: Desk): Desk
    requires Shape(d)
  {
    match d.mgr.Focused()
    case None => d
    case Some(pid) =>
      match FindPid(ActiveSpace(d), pid)
      case None => d
      case Some(e) => Emit(d, CloseSent(e.window))
  }

  // The compositor shortcuts; None means the key is the client's.
  function Keybind(d: Desk, mods: Mods, sym: Keysym): Option<Desk>
    requires Shape(d)
  {
    if !mods.logo then None
    else
      match sym
      case Digit(idx) => Some(if mods.shift then OnMoveFocused(d, idx).0 else d.(mgr := d.mgr.SwitchTo(idx).0))
      case ArrowRight => Some(d.(mgr := d.mgr.SwitchNext(d.wrap).0))
      case ArrowLeft => Some(d.(mgr := d.mgr.SwitchPrev(d.wrap).0))
      case KeyQ => Some(OnCloseFocused(d))
      case KeyL => Some(Emit(d, Spawned(LockScreen)))
      case Return => Some(Emit(d, Spawned(Terminal)))
      case SuperKey => Some(Emit(d, Spawned(Launcher)))
      case OtherKey => None
  }

  function OnKey(d: Desk, mods: Mods, sym: Keysym): (r: Desk)
    requires Shape(d)
    ensures Shape(r) && r.mgr.count == d.mgr.count
  {
    var bound := if d.lock.Some? || d.shutdown then None else Keybind(d, mods, sym);
    match bound
    case Some(d') => d'
    case None => Emit(d, KeyForwarded(d.kbd))
  }

  // ---------- pointer ----------

  // While a drag is on, every motion re-maps the dragged window into the
  // workspace that is active now.
  function OnMotion(d: Desk, delta: Point): (r: Desk)
    requires Shape(d)
    ensures Shape(r) && r.mgr.count == d.mgr.count
  {
    if d.lock.Some? || d.grab.None? then d
    else
      var g := d.grab.value;
      SetActiveSpace(d, MapElement(ActiveSpace(d), g.window, Point(g.initial.x + delta.x, g.initial.y + delta.y)))
  }

  // `hit` is the element under the pointer, as an index into the active space.
  function OnButtonPress(d: Desk, hit: Option<nat>): (r: Desk)
    requires Shape(d)
    ensures Shape(r) && r.mgr.count == d.mgr.count
  {
    if d.lock.Some? then d
    else if hit.Some? && hit.value < |ActiveSpace(d)| then
      var w := ActiveSpace(d)[hit.value].window;
      SetActiveSpace(d, RaiseElement(ActiveSpace(d), w)).(kbd := Some(w.surface))
    else d.(kbd := None)
  }

  // ---------- session lock ----------

  function OnLock(d: Desk, client: nat): Desk {
    if d.lock.Some? then d else d.(lock := Some(Lock(client, [])), kbd := None)
  }

  function OnUnlock(d: Desk): Desk
    requires Shape(d)
  {
    var d' := d.(lock := None);
    var s := ActiveSpace(d);
    if s == [] then d' else d'.(kbd := Some(s[|s| - 1].window.surface))
  }

  function OnLockSurface(d: Desk, surface: nat): Desk {
    match d.lock
    case None => d
    case Some(l) => d.(lock := Some(l.(surfaces := l.surfaces + [surface])))
  }

  // ---------- IPC requests on the main loop ----------

  // `loadedWrap` is what a configuration reload finds on disk.
  function HandleRequest(d: Desk, req: Request, loadedWrap: bool): (r: (Desk, Response))
    requires Shape(d)
    ensures Shape(r.0) && r.0.mgr.count == d.mgr.count
  {
    match req
    case SwitchWorkspace(idx) =>
      var (m, ok) := d.mgr.SwitchTo(idx);
      (d.(mgr := m), if ok then Ok(None) else Err(WorkspaceOutOfRange(idx)))
    case MoveFocused(target) =>
      var (d', ok) := OnMoveFocused(d, target);
      (d', if ok then Ok(None) else Err(NoFocusedWindow))
    case ReloadConfig => (d.(wrap := loadedWrap), Ok(None))
    case GetState => (d, Ok(Some(StateSnapshot(d.mgr.count, d.mgr.active, Occupied(d.spaces), d.xwaylandReady))))
    case SpawnLauncher => (Emit(d, Spawned(Launcher)), Ok(None))
    case SessionLock => (Emit(d, Spawned(LockScreen)), Ok(None))
    case Quit => (Emit(d, LoopStopped), Ok(None))
  }

  // Both workspace counts stay equal and the active index in range.
  function Step(d: Desk, e: Event): (r: Desk)
    requires Shape(d)
    ensures Shape(r) && r.mgr.count == d.mgr.count
  {
    match e
    case NewToplevel(w, loc) => OnNewToplevel(d, w, loc)
    case Destroyed(surface) => OnDestroyed(d, surface)
    case MoveRequest(surface) => OnMoveRequest(d, surface)
    case Key(mods, sym) => OnKey(d, mods, sym)
    case Motion(delta) => OnMotion(d, delta)
    case ButtonPress(hit) => OnButtonPress(d, hit)
    case ButtonRelease => if d.lock.Some? then d else d.(grab := None)
    case LockRequest(client) => OnLock(d, client)
    case Unlock => OnUnlock(d)
    case LockSurface(surface) => OnLockSurface(d, surface)
    case Ipc(req, loadedWrap) => HandleRequest(d, req, loadedWrap).0
    case Xwayland(ready) => d.(xwaylandReady := ready)
    case Signal => d.(shutdown := true)
  }

  // ---------- runs ----------

  function Run(d: Desk, es: seq<Event>): (r: Desk)
    requires Shape(d)
    ensures Shape(r) && r.mgr.count == d.mgr.count
  {
    if es == [] then d
    else Step(Run(d, es[..|es| - 1]), es[|es| - 1])
  }
}
