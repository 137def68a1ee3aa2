/** XWayland start, exit and bounded respawn (`XwmState`). */
module Xwayland {
  import opened Wrappers

  // RESPAWN_DELAYS, in seconds.
  const DELAYS: seq<nat> := [1, 2, 5]
  const BUDGET := 8

  datatype Event = BootStart | Ready(wmStarts: bool) | Exited

  // `created` counts XWayland processes created, `respawns` the respawns
  // scheduled, `slept` the seconds slept, `readys` the successful Readys.
  datatype Xwm = Xwm(running: bool, wm: bool, respawnCount: nat, disabled: bool,
                     created: nat, respawns: nat, slept: nat, readys: nat)

  const NEW := Xwm(false, false, 0, false, 0, 0, 0, 0)

  function Start(x: Xwm): Xwm {
    if x.disabled then x else x.(running := true, created := x.created + 1)
  }

  function ScheduleRespawn(x: Xwm): Xwm {
    if x.respawnCount >= |DELAYS| then x.(disabled := true)
    else Start(x.(respawnCount := x.respawnCount + 1, respawns := x.respawns + 1, slept := x.slept + DELAYS[x.respawnCount]))
  }

  function Step(x: Xwm, e: Event): Xwm {
    match e
    case BootStart => Start(x)
    case Ready(true) => x.(wm := true, respawnCount := 0, readys := x.readys + 1)
    case Ready(false) => ScheduleRespawn(x)
    case Exited => ScheduleRespawn(x.(wm := false))
  }

  function Run(es: seq<Event>): Xwm {
    if es == [] then NEW else Step(Run(es[..|es| - 1]), es[|es| - 1])
  }

  // Seconds the current streak of failures has slept.
  function StreakSlept(count: nat): nat {
    if count == 0 then 0 else if count == 1 then 1 else if count == 2 then 3 else BUDGET
  }

  // Each successful Ready buys one streak: three respawns and eight seconds.
  ghost predicate Inv(x: Xwm) {
    && x.respawnCount <= |DELAYS|
    && x.respawns <= 3 * x.readys + x.respawnCount
    && x.slept <= BUDGET * x.readys + StreakSlept(x.respawnCount)
  }

  lemma {:induction false} RespawnBudget(es: seq<Event>)
    ensures var x := Run(es);
      && x.respawnCount <= 3
      && x.respawns <= 3 * (1 + x.readys)
      && x.slept <= 8 * (1 + x.readys)
    ensures Inv(Run(es))
  {
    if es != [] { RespawnBudget(es[..|es| - 1]); }
  }

  // Both bounds are met: three exits, and three more after each successful
  // Ready, spend every respawn and every second of the budget.
  function Full(n: nat): seq<Event> {
    if n == 0 then [Exited, Exited, Exited] else Full(n - 1) + [Ready(true), Exited, Exited, Exited]
  }

  lemma {:induction false} BudgetIsTight(n: nat)
    ensures var x := Run(Full(n));
      x.readys == n && x.respawns == 3 * (1 + n) && x.slept == 8 * (1 + n) && !x.disabled
  {
    if n == 0 {
      FirstStreak();
    } else {
      BudgetIsTight(n - 1);
      assert Full(n) == Full(n - 1) + [Ready(true), Exited, Exited, Exited];
      RunStreak(Full(n - 1));
      hide Run, Full, Step;
      StreakSpends(Run(Full(n - 1)));
    }
  }

  lemma FirstStreak()
    ensures var x := Run([Exited, Exited, Exited]); x.readys == 0 && x.respawns == 3 && x.slept == 8 && !x.disabled
  {
    RunAppend([], Exited);
    RunAppend([] + [Exited], Exited);
    RunAppend([] + [Exited] + [Exited], Exited);
    assert [] + [Exited] + [Exited] + [Exited] == [Exited, Exited, Exited];
  }

  lemma RunStreak(es: seq<Event>)
    ensures Run(es + [Ready(true), Exited, Exited, Exited])
         == Step(Step(Step(Step(Run(es), Ready(true)), Exited), Exited), Exited)
  {
    RunAppend(es, Ready(true));
    RunAppend(es + [Ready(true)], Exited);
    RunAppend(es + [Ready(true)] + [Exited], Exited);
    RunAppend(es + [Ready(true)] + [Exited] + [Exited], Exited);
    assert es + [Ready(true), Exited, Exited, Exited] == es + [Ready(true)] + [Exited] + [Exited] + [Exited];
    hide Run, Step;
  }

  lemma StreakSpends(x: Xwm)
    requires !x.disabled
    ensures var y := Step(Step(Step(Step(x, Ready(true)), Exited), Exited), Exited);
      && y.readys == x.readys + 1 && y.respawns == x.respawns + 3 && y.slept == x.slept + 8
      && y.respawnCount == 3 && !y.disabled
  {}

  lemma RunAppend(es: seq<Event>, e: Event)
    ensures Run(es + [e]) == Step(Run(es), e)
  {
    assert (es + [e])[..|es|] == es;
  }

  // Once disabled, no XWayland is ever created again, even if a process that
  // was already starting still becomes ready and exits.
  lemma {:induction false} DisabledForGood(es: seq<Event>, more: seq<Event>)
    requires Run(es).disabled
    ensures Run(es + more).disabled && Run(es + more).created == Run(es).created
  {
    if more == [] {
      assert es + more == es;
    } else {
      var init := more[..|more| - 1];
      DisabledForGood(es, init);
      assert es + more == (es + init) + [more[|more| - 1]];
      RunAppend(es + init, more[|more| - 1]);
    }
  }

  // Every exit, and every start of the window manager that fails, costs one
  // respawn after one, two, then five seconds; the fourth in a row disables
  // XWayland instead.  A start that succeeds forgives them all.
  lemma FailuresAreCounted(x: Xwm, e: Event)
    requires e == Exited || e == Ready(false)
    ensures var y := Step(x, e);
      && (e == Exited ==> !y.wm) && (e == Ready(false) ==> y.wm == x.wm)
      && (x.respawnCount >= 3 ==> y.disabled && y.created == x.created && y.slept == x.slept && y.respawnCount == x.respawnCount)
      && (x.respawnCount < 3 ==>
            && y.respawnCount == x.respawnCount + 1 && y.disabled == x.disabled
            && y.slept == x.slept + (if x.respawnCount == 0 then 1 else if x.respawnCount == 1 then 2 else 5)
            && y.created == x.created + if x.disabled then 0 else 1)
    ensures Step(x, Ready(true)) == x.(wm := true, respawnCount := 0, readys := x.readys + 1)
    ensures Step(x, BootStart) == if x.disabled then x else x.(running := true, created := x.created + 1)
  {}

  class XwmState {
    var xwayland: bool
    var wm: bool
    var respawnCount: nat
    var disabled: bool
    ghost var created: nat
    ghost var respawns: nat
    ghost var readys: nat
    ghost var slept: nat

    ghost function View(): Xwm
      reads this
    {
      Xwm(xwayland, wm, respawnCount, disabled, created, respawns, slept, readys)
    }

    constructor ()
      ensures View() == NEW
    {
      xwayland, wm, respawnCount, disabled := false, false, 0, false;
      created, respawns, readys, slept := 0, 0, 0, 0;
    }

    method StartXwayland()
      modifies this
      ensures View() == Start(old(View()))
    {
      if disabled { return; }
      xwayland := true;
      created := created + 1;
    }

    method HandleEvent(e: Event)
      requires !e.BootStart?
      modifies this
      ensures View() == Step(old(View()), e)
    {
      match e
      case Ready(wmStarts) =>
        if wmStarts {
          wm := true;
          respawnCount := 0;
          readys := readys + 1;
        } else {
          Respawn();
        }
      case Exited =>
        wm := false;
        Respawn();
    }

    method Respawn()
      modifies this
      ensures View() == ScheduleRespawn(old(View()))
    {
      if respawnCount >= |DELAYS| {
        disabled := true;
        return;
      }
      var delay := DELAYS[respawnCount];
      respawnCount := respawnCount + 1;
      respawns := respawns + 1;
      slept := slept + delay;
      StartXwayland();
    }
  }
}
