/**
 Workspaces of the compositor: one stack of windows each (`Workspaces`), and
 the separate index and focus-slot bookkeeping (`WorkspaceManager`).
 */
module Workspaces {
  import opened Wrappers

  // A toplevel: its surface object, the protocol id its client gave that, and
  // the window object made for it, which is what spaces compare.
  datatype Window = Window(surface: nat, pid: nat, handle: nat)
  datatype Point = Point(x: int, y: int)
  datatype Element = Element(window: Window, loc: Point)

  // A space lists its elements from bottom to top.
  type Space = seq<Element>

  // ---------- spaces, on values ----------

  function Members(s: Space): set<Window> { set e | e in s :: e.window }

  lemma MembersAppend(s: Space, e: Element)
    ensures Members(s + [e]) == Members(s) + {e.window}
    ensures NoDuplicates(s + [e]) <==> NoDuplicates(s) && e.window !in Members(s)
  {
    assert (s + [e])[..|s|] == s && (s + [e])[|s|] == e;
    forall i | 0 <= i < |s| ensures (s + [e])[i] == s[i] {}
    if e.window in Members(s) {
      var i :| 0 <= i < |s| && s[i].window == e.window;
      assert (s + [e])[i].window == (s + [e])[|s|].window;
    }
    if NoDuplicates(s + [e]) {
      forall i, j | 0 <= i < j < |s| ensures s[i].window != s[j].window {
        assert (s + [e])[i].window != (s + [e])[j].window;
      }
    }
  }

  // The elements other than w, in order.
  function Without(s: Space, w: Window): (r: Space)
    ensures Members(r) == Members(s) - {w}
    ensures w !in Members(s) ==> r == s
    ensures NoDuplicates(s) ==> NoDuplicates(r)
  {
    if s == [] then []
    else
      var rest := Without(s[..|s| - 1], w);
      var last := s[|s| - 1];
      assert s == s[..|s| - 1] + [last];
      MembersAppend(s[..|s| - 1], last);
      if last.window == w then rest
      else
        MembersAppend(rest, last);
        rest + [last]
  }

  ghost predicate NoDuplicates(s: Space) {
    forall i, j :: 0 <= i < j < |s| ==> s[i].window != s[j].window
  }

  // u lies somewhere below v.
  ghost predicate Below(s: Space, u: Window, v: Window) {
    exists i, j :: 0 <= i < j < |s| && s[i].window == u && s[j].window == v
  }

  lemma BelowAppend(s: Space, e: Element, u: Window, v: Window)
    ensures Below(s + [e], u, v) <==> Below(s, u, v) || (u in Members(s) && v == e.window)
  {
    var t := s + [e];
    if Below(s, u, v) {
      var i, j :| 0 <= i < j < |s| && s[i].window == u && s[j].window == v;
      assert t[i].window == u && t[j].window == v;
    }
    if u in Members(s) && v == e.window {
      var i :| 0 <= i < |s| && s[i].window == u;
      assert t[i].window == u && t[|s|].window == v;
    }
    if Below(t, u, v) {
      var i, j :| 0 <= i < j < |t| && t[i].window == u && t[j].window == v;
      assert t[i] == s[i] && s[i] in s;
      if j < |s| { assert s[j].window == v; }
    }
  }

  // Taking w out leaves the stacking of all other windows as it was.
  lemma {:induction false} WithoutKeepsStacking(s: Space, w: Window, u: Window, v: Window)
    requires u != w && v != w
    ensures Below(Without(s, w), u, v) <==> Below(s, u, v)
  {
    if s != [] {
      var init, last := s[..|s| - 1], s[|s| - 1];
      WithoutKeepsStacking(init, w, u, v);
      assert s == init + [last];
      assert Without(s, w) == if last.window == w then Without(init, w) else Without(init, w) + [last];
      BelowAppend(init, last, u, v);
      if last.window != w { BelowAppend(Without(init, w), last, u, v); }
      hide Below;
    }
  }

  // So does mapping it, and it ends up on top.
  lemma MapKeepsStacking(s: Space, w: Window, loc: Point, u: Window, v: Window)
    requires u != w && v != w
    ensures Below(MapElement(s, w, loc), u, v) <==> Below(s, u, v)
  {
    WithoutKeepsStacking(s, w, u, v);
    BelowAppend(Without(s, w), Element(w, loc), u, v);
    hide Below, Without;
  }

  // map_element: re-mapping an element first takes it out; it lands on top.
  function MapElement(s: Space, w: Window, loc: Point): Space { Without(s, w) + [Element(w, loc)] }

  function UnmapElem(s: Space, w: Window): Space { Without(s, w) }

  function LocationOf(s: Space, w: Window): Option<Point> {
    if s == [] then None
    else if s[0].window == w then Some(s[0].loc)
    else LocationOf(s[1..], w)
  }

  // raise_element: to the top, at its own location, if it is there.
  function RaiseElement(s: Space, w: Window): Space {
    match LocationOf(s, w) case None => s case Some(loc) => MapElement(s, w, loc)
  }

  lemma {:induction false} LocationOfMember(s: Space, w: Window)
    ensures LocationOf(s, w).Some? <==> w in Members(s)
    ensures LocationOf(s, w).Some? ==> Element(w, LocationOf(s, w).value) in s
  {
    if s != [] && s[0].window != w {
      LocationOfMember(s[1..], w);
      assert s == [s[0]] + s[1..];
      assert Members(s) == {s[0].window} + Members(s[1..]);
    }
  }

  lemma MapElementFacts(s: Space, w: Window, loc: Point)
    ensures Members(MapElement(s, w, loc)) == Members(s) + {w}
    ensures NoDuplicates(s) ==> NoDuplicates(MapElement(s, w, loc))
    ensures Without(MapElement(s, w, loc), w) == Without(s, w)
    ensures var t := MapElement(s, w, loc); t != [] && t[|t| - 1] == Element(w, loc)
  {
    var rest := Without(s, w);
    var t := rest + [Element(w, loc)];
    assert t[..|t| - 1] == rest;
    assert Members(t) == Members(rest) + {w};
    assert w !in Members(rest);
    forall i, j | 0 <= i < j < |t| && NoDuplicates(s) ensures t[i].window != t[j].window {
      if j == |t| - 1 { assert rest[i].window in Members(rest); }
    }
    assert Without(rest, w) == rest;
  }

  // First element of a surface or of a protocol id, as the iterator `find`s it.
  function FindSurface(s: Space, surface: nat): Option<Element> {
    if s == [] then None
    else if s[0].window.surface == surface then Some(s[0])
    else FindSurface(s[1..], surface)
  }

  function FindPid(s: Space, pid: nat): Option<Element> {
    if s == [] then None
    else if s[0].window.pid == pid then Some(s[0])
    else FindPid(s[1..], pid)
  }

  lemma {:induction false} FindPidFacts(s: Space, pid: nat)
    ensures match FindPid(s, pid)
      case None => forall w :: w in Members(s) ==> w.pid != pid
      case Some(e) => e in s && e.window.pid == pid && e.window in Members(s)
  {
    if s != [] && s[0].window.pid != pid {
      FindPidFacts(s[1..], pid);
      assert s == [s[0]] + s[1..];
    }
  }

  lemma {:induction false} FindSurfaceFacts(s: Space, surface: nat)
    ensures match FindSurface(s, surface)
      case None => forall w :: w in Members(s) ==> w.surface != surface
      case Some(e) => e in s && e.window.surface == surface && e.window in Members(s)
  {
    if s != [] && s[0].window.surface != surface {
      FindSurfaceFacts(s[1..], surface);
      assert s == [s[0]] + s[1..];
    }
  }

  // Increasing list of the non-empty spaces.
  predicate OccupiedList(spaces: seq<Space>, occ: seq<nat>) {
    && (forall i, j :: 0 <= i < j < |occ| ==> occ[i] < occ[j])
    && (forall i :: 0 <= i < |occ| ==> occ[i] < |spaces| && spaces[occ[i]] != [])
    && (forall k :: 0 <= k < |spaces| && spaces[k] != [] ==> k in occ)
  }

  function Occupied(spaces: seq<Space>): (occ: seq<nat>)
    ensures OccupiedList(spaces, occ)
  {
    if spaces == [] then []
    else
      var n := |spaces| - 1;
      var occ := Occupied(spaces[..n]);
      assert forall i :: 0 <= i < |occ| ==> occ[i] < n && spaces[..n][occ[i]] == spaces[occ[i]];
      if spaces[n] == [] then
        assert forall k :: 0 <= k < |spaces| && spaces[k] != [] ==> k < n && spaces[..n][k] != [];
        occ
      else
        assert forall k :: 0 <= k < n && spaces[k] != [] ==> spaces[..n][k] != [];
        occ + [n]
  }

  // ---------- the manager, on values ----------

  datatype Plan = Plan(src: nat, target: nat, pid: nat)

  function ClampCount(count: nat): nat { if count < 1 then 1 else if count > 9 then 9 else count }

  datatype Manager = Manager(count: nat, active: nat, focused: seq<Option<nat>>) {
    predicate Valid() {
      1 <= count <= 9 && active < count && |focused| == count
    }

    function SwitchTo(idx: nat): (Manager, bool) {
      if idx >= count || idx == active then (this, false) else (this.(active := idx), true)
    }

    function SwitchNext(wrap: bool): (Manager, bool) {
      if active + 1 < count then SwitchTo(active + 1)
      else if wrap then SwitchTo(0)
      else (this, false)
    }

    function SwitchPrev(wrap: bool): (Manager, bool)
      requires Valid()
    {
      if active > 0 then SwitchTo(active - 1)
      else if wrap then SwitchTo(count - 1)
      else (this, false)
    }

    function Focused(): Option<nat> {
      if active < |focused| then focused[active] else None
    }

    function SetFocus(id: Option<nat>): Manager {
      if active < |focused| then this.(focused := focused[active := id]) else this
    }

    function PlanMoveFocused(target: nat): (Manager, Option<Plan>)
      requires Valid()
    {
      if target >= count || target == active || Focused().None? then (this, None)
      else
        var id := Focused().value;
        (this.(focused := focused[active := None][target := Some(id)]), Some(Plan(active, target, id)))
    }
  }

  // Next and previous go round by one; without wrapping they stop at the ends.
  lemma SwitchingGoesRound(m: Manager, wrap: bool)
    requires m.Valid()
    ensures m.SwitchNext(wrap).1 <==> m.count > 1 && (wrap || m.active < m.count - 1)
    ensures m.SwitchPrev(wrap).1 <==> m.count > 1 && (wrap || m.active > 0)
    ensures var (n, ok) := m.SwitchNext(wrap); n == m.(active := if ok then (m.active + 1) % m.count else m.active)
    ensures var (n, ok) := m.SwitchPrev(wrap); n == m.(active := if ok then (m.active + m.count - 1) % m.count else m.active)
  {
    if m.active > 0 {
      assert (m.active + m.count - 1) % m.count == m.active - 1 by { assert m.active + m.count - 1 == m.count + (m.active - 1); }
    }
  }

  // A planned move carries the active slot's id to the target slot and
  // empties the slot it came from; every other slot and the active index stay.
  lemma PlanCarriesTheSlot(m: Manager, target: nat)
    requires m.Valid()
    ensures var (n, plan) := m.PlanMoveFocused(target);
      && (plan.Some? <==> target < m.count && target != m.active && m.focused[m.active].Some?)
      && (plan.None? ==> n == m)
      && (plan.Some? ==>
        && plan.value.src == m.active && plan.value.target == target && Some(plan.value.pid) == m.focused[m.active]
        && n.Valid() && n.count == m.count && n.active == m.active
        && n.focused[m.active] == None && n.focused[target] == m.focused[m.active]
        && forall i :: 0 <= i < m.count && i != m.active && i != target ==> n.focused[i] == m.focused[i])
  {}

  // Next and previous are each other's inverse wherever both move.
  lemma NextPrevInverse(m: Manager, wrap: bool)
    requires m.Valid()
    ensures m.SwitchNext(wrap).1 ==> m.SwitchNext(wrap).0.SwitchPrev(wrap) == (m, true)
    ensures m.SwitchPrev(wrap).1 ==> m.SwitchPrev(wrap).0.SwitchNext(wrap) == (m, true)
  {}

  // ---------- the objects ----------

  class WorkspaceManager {
    const count: nat
    var active: nat
    var focused: seq<Option<nat>>

    function View(): Manager
      reads this
    {
      Manager(count, active, focused)
    }

    ghost predicate Valid()
      reads this
    {
      View().Valid()
    }

    constructor (n: nat)
      ensures Valid() && count == ClampCount(n) && active == 0
      ensures focused == seq(count, _ => None)
    {
      count := ClampCount(n);
      active := 0;
      focused := seq(ClampCount(n), _ => None);
    }

    method SwitchTo(idx: nat) returns (ok: bool)
      requires Valid()
      modifies this
      ensures Valid()
      ensures ok <==> idx < count && idx != old(active)
      ensures active == if ok then idx else old(active)
      ensures focused == old(focused)
    {
      if idx >= count || idx == active { return false; }
      active := idx;
      return true;
    }

    method SwitchNext(wrap: bool) returns (ok: bool)
      requires Valid()
      modifies this
      ensures Valid() && (View(), ok) == old(View()).SwitchNext(wrap)
    {
      var next := active + 1;
      if next < count { ok := SwitchTo(next); }
      else if wrap { ok := SwitchTo(0); }
      else { ok := false; }
    }

    method SwitchPrev(wrap: bool) returns (ok: bool)
      requires Valid()
      modifies this
      ensures Valid() && (View(), ok) == old(View()).SwitchPrev(wrap)
    {
      if active > 0 { ok := SwitchTo(active - 1); }
      else if wrap { ok := SwitchTo(count - 1); }
      else { ok := false; }
    }

    method SetFocus(id: Option<nat>)
      requires Valid()
      modifies this
      ensures Valid() && active == old(active)
      ensures focused == old(focused)[active := id]
    {
      if active < |focused| {
        focused := focused[active := id];
      }
    }

    // Moves the focus slot's id along with the window the caller will move.
    method PlanMoveFocused(target: nat) returns (plan: Option<Plan>)
      requires Valid()
      modifies this
      ensures Valid() && (View(), plan) == old(View()).PlanMoveFocused(target)
    {
      if target >= count || target == active { return None; }
      if focused[active] == None { return None; }
      var id := focused[active].value;
      var src := active;
      focused := focused[src := None];
      focused := focused[target := Some(id)];
      return Some(Plan(src, target, id));
    }
  }

  class WorkspaceSet {
    var spaces: seq<Space>

    constructor (n: nat)
      ensures spaces == seq(ClampCount(n), _ => [])
    {
      spaces := seq(ClampCount(n), _ => []);
    }

    // An out-of-range index reads space 0 but writes the last space.
    function Active(idx: nat): Space
      requires spaces != []
      reads this
    {
      if idx < |spaces| then spaces[idx] else spaces[0]
    }

    method SetActive(idx: nat, s: Space)
      requires spaces != []
      modifies this
      ensures spaces == old(spaces)[if idx < |old(spaces)| then idx else |old(spaces)| - 1 := s]
    {
      var i := if idx <= |spaces| - 1 then idx else |spaces| - 1;
      spaces := spaces[i := s];
    }

    method OccupiedIndices() returns (occ: seq<nat>)
      ensures occ == Occupied(spaces)
    {
      occ := [];
      for i := 0 to |spaces|
        invariant occ == Occupied(spaces[..i])
      {
        assert spaces[..i + 1][..i] == spaces[..i];
        if spaces[i] != [] {
          occ := occ + [i];
        }
      }
      assert spaces[..|spaces|] == spaces;
    }
  }
}
