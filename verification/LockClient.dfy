/**
 The lock-screen client: keys, `ext-session-lock-v1` and output events, and the
 PAM worker thread behind two channels.  PAM is an oracle.
 */
module LockClient {
  import opened Wrappers

  datatype Verdict = AuthOk | AuthFail
  datatype Output = Output(id: nat, hasSurface: bool, width: nat, height: nat)

  // The worker's side: request channel, the request being checked, result
  // channel.
  datatype Worker = Worker(requests: seq<string>, current: Option<string>, results: seq<Verdict>, alive: bool)

  // `done` is set when the event loop has returned.  The last fields record
  // what was sent and drained; `early` counts the unlocks sent before the
  // compositor had said Locked.
  datatype Client = Client(
    password: string, pending: bool, failCount: nat,
    locked: bool, outputs: seq<Output>, shouldQuit: bool, exitCode: int, done: bool,
    worker: Worker,
    submitted: seq<string>, oks: nat, fails: nat, unlocks: nat, early: nat, surfacesFor: seq<nat>)

  // The state LockState::new leaves.
  predicate IsNew(c: Client) {
    && c.password == "" && !c.pending && c.failCount == 0
    && !c.locked && c.outputs == [] && !c.shouldQuit && c.exitCode == 0 && !c.done
    && c.worker == Worker([], None, [], true)
    && c.submitted == [] && c.oks == 0 && c.fails == 0 && c.unlocks == 0 && c.early == 0 && c.surfacesFor == []
  }

  datatype Event =
    | Enter | Backspace | Escape | Text(text: string)
    | Locked | Finished | OutputMode(id: nat, w: int, h: int)
    | Poll
    | WorkerTakes | WorkerAnswers(verdict: Verdict) | WorkerDies

  predicate Enabled(c: Client, e: Event) {
    match e
    case WorkerTakes => c.worker.alive && c.worker.current.None? && c.worker.requests != []
    case WorkerAnswers(_) => c.worker.alive && c.worker.current.Some?
    case WorkerDies => c.worker.alive
    case _ => !c.done
  }

  // A dead worker's channel refuses the request; the password is gone anyway.
  function Submit(c: Client): Client {
    if c.password == "" || c.pending then c
    else
      c.(pending := true, password := "", submitted := c.submitted + [c.password],
         worker := if c.worker.alive then c.worker.(requests := c.worker.requests + [c.password]) else c.worker)
  }

  function Accepted(c: Client): Client {
    c.(oks := c.oks + 1, unlocks := c.unlocks + 1, early := if c.locked then c.early else c.early + 1,
       shouldQuit := true, exitCode := 0)
  }

  function Rejected(c: Client): Client {
    c.(fails := c.fails + 1, failCount := c.failCount + 1, password := "")
  }

  function DrainOne(c: Client): Client
    requires c.worker.results != []
  {
    var c' := c.(pending := false, worker := c.worker.(results := c.worker.results[1..]));
    match c.worker.results[0]
    case AuthOk => Accepted(c')
    case AuthFail => Rejected(c')
  }

  function Drain(c: Client): Client
    decreases |c.worker.results|
  {
    if c.worker.results == [] then c else Drain(DrainOne(c))
  }

  // create_lock_surface_for: at most once an output.
  function CreateSurface(c: Client, i: nat): Client {
    if i >= |c.outputs| || c.outputs[i].hasSurface then c
    else c.(outputs := c.outputs[i := c.outputs[i].(hasSurface := true)], surfacesFor := c.surfacesFor + [c.outputs[i].id])
  }

  function CreateUpTo(c: Client, n: nat): Client {
    if n == 0 then c else CreateSurface(CreateUpTo(c, n - 1), n - 1)
  }

  predicate Known(outputs: seq<Output>, id: nat) {
    exists i :: 0 <= i < |outputs| && outputs[i].id == id
  }

  // `as u32` of an i32.
  function AsU32(x: int): nat { x % 0x1_0000_0000 }

  // The first output with this id, or the number of outputs.
  function Position(outputs: seq<Output>, id: nat): (i: nat)
    ensures i <= |outputs|
    ensures i < |outputs| ==> outputs[i].id == id
    ensures forall j :: 0 <= j < i ==> outputs[j].id != id
  {
    if outputs == [] || outputs[0].id == id then 0 else 1 + Position(outputs[1..], id)
  }

  // Find or insert, with the new size.
  function Sized(outputs: seq<Output>, id: nat, w: int, h: int): (r: seq<Output>)
    ensures r != []
  {
    var i := Position(outputs, id);
    if i < |outputs| then outputs[i := outputs[i].(width := AsU32(w), height := AsU32(h))]
    else outputs + [Output(id, false, AsU32(w), AsU32(h))]
  }

  // A locked session covers the last output at once.
  function OnOutputMode(c: Client, id: nat, w: int, h: int): Client {
    var c' := c.(outputs := Sized(c.outputs, id, w, h));
    if c.locked then CreateSurface(c', |c'.outputs| - 1) else c'
  }

  lemma ModeShape(c: Client, id: nat, w: int, h: int)
    ensures var c' := c.(outputs := Sized(c.outputs, id, w, h));
      OnOutputMode(c, id, w, h) == if c.locked then CreateSurface(c', |c'.outputs| - 1) else c'
    ensures !c.done ==> Step(c, OutputMode(id, w, h)) == OnOutputMode(c, id, w, h)
  {}

  function Step(c: Client, e: Event): Client
    requires Enabled(c, e)
  {
    match e
    case Enter => Submit(c)
    case Backspace => c.(password := if c.password == "" then "" else c.password[..|c.password| - 1])
    case Escape => c.(password := "")
    case Text(t) => if c.pending then c else c.(password := c.password + t)
    case Locked => CreateUpTo(c.(locked := true), |c.outputs|)
    case Finished => c.(shouldQuit := true, exitCode := 1)
    case OutputMode(id, w, h) => OnOutputMode(c, id, w, h)
    case Poll => var d := Drain(c); d.(done := d.shouldQuit)
    case WorkerTakes => c.(worker := c.worker.(requests := c.worker.requests[1..], current := Some(c.worker.requests[0])))
    case WorkerAnswers(v) => c.(worker := c.worker.(current := None, results := c.worker.results + [v]))
    case WorkerDies => c.(worker := c.worker.(alive := false, requests := [], current := None))
  }

  // ---------- what every run keeps ----------

  function InFlight(c: Client): nat {
    |c.worker.requests| + (if c.worker.current.Some? then 1 else 0) + |c.worker.results|
  }

  // Keys typed while a request is out change nothing, so a pending request
  // always goes with an empty password; while the worker lives, pending means
  // one request in exactly one of the two channels or the worker.
  ghost predicate AuthInv(c: Client) {
    && InFlight(c) <= (if c.pending then 1 else 0)
    && (c.worker.alive ==> InFlight(c) == if c.pending then 1 else 0)
    && (!c.worker.alive ==> c.worker.requests == [] && c.worker.current.None?)
    && (c.pending ==> c.password == "")
    && c.failCount == c.fails
    && c.unlocks == c.oks <= 1
    && (c.unlocks == 1 ==> c.done)
    && (c.shouldQuit ==> (c.exitCode == 0 <==> c.unlocks == 1))
    && (c.worker.alive ==> |c.submitted| == c.oks + c.fails + InFlight(c))
  }

  ghost predicate AllSurfaced(c: Client, n: nat) {
    forall i :: 0 <= i < n && i < |c.outputs| ==> c.outputs[i].hasSurface
  }

  ghost predicate Identities(c: Client) {
    && (forall i, j :: 0 <= i < j < |c.outputs| ==> c.outputs[i].id != c.outputs[j].id)
    && (forall i :: 0 <= i < |c.outputs| ==> (c.outputs[i].hasSurface <==> c.outputs[i].id in c.surfacesFor))
    && (forall id :: id in c.surfacesFor ==> Known(c.outputs, id))
    && (forall i, j :: 0 <= i < j < |c.surfacesFor| ==> c.surfacesFor[i] != c.surfacesFor[j])
  }

  ghost predicate SurfaceInv(c: Client) {
    Identities(c) && (c.locked ==> AllSurfaced(c, |c.outputs|))
  }

  lemma CreateKeeps(c: Client, i: nat)
    requires Identities(c)
    ensures var d := CreateSurface(c, i);
      && Identities(d) && |d.outputs| == |c.outputs| && (i < |c.outputs| ==> d.outputs[i].hasSurface)
      && (forall j :: 0 <= j < |c.outputs| && c.outputs[j].hasSurface ==> d.outputs[j].hasSurface)
      && d == c.(outputs := d.outputs, surfacesFor := d.surfacesFor)
  {
    if i < |c.outputs| && !c.outputs[i].hasSurface {
      var d, id := CreateSurface(c, i), c.outputs[i].id;
      assert d.outputs == c.outputs[i := c.outputs[i].(hasSurface := true)] && d.surfacesFor == c.surfacesFor + [id];
      hide CreateSurface;
      forall o | o in d.surfacesFor ensures Known(d.outputs, o) {
        if o in c.surfacesFor {
          var k :| 0 <= k < |c.outputs| && c.outputs[k].id == o;
          assert d.outputs[k].id == o;
        } else {
          assert d.outputs[i].id == o;
        }
      }
      hide Known;
      forall j | 0 <= j < |d.outputs| ensures d.outputs[j].hasSurface <==> d.outputs[j].id in d.surfacesFor {
        assert d.outputs[j].id == c.outputs[j].id;
      }
    }
  }

  lemma {:induction false} CreateUpToKeeps(c: Client, n: nat)
    requires Identities(c) && n <= |c.outputs|
    ensures var d := CreateUpTo(c, n);
      && Identities(d) && |d.outputs| == |c.outputs| && AllSurfaced(d, n)
      && d == c.(outputs := d.outputs, surfacesFor := d.surfacesFor)
  {
    if n > 0 {
      CreateUpToKeeps(c, n - 1);
      CreateKeeps(CreateUpTo(c, n - 1), n - 1);
    }
  }

  lemma ModeKeeps(c: Client, id: nat, w: int, h: int)
    requires SurfaceInv(c)
    ensures var d := OnOutputMode(c, id, w, h); SurfaceInv(d) && d == c.(outputs := d.outputs, surfacesFor := d.surfacesFor)
  {
    var c' := c.(outputs := Sized(c.outputs, id, w, h));
    ModeShape(c, id, w, h);
    SizedKeeps(c, c', id, Position(c.outputs, id));
    CreateKeeps(c', |c'.outputs| - 1);
    hide Identities, CreateSurface, OnOutputMode, Position, Sized;
  }

  // Storing a size, or a new output, disturbs no identity.
  lemma SizedKeeps(c: Client, c': Client, id: nat, i: nat)
    requires Identities(c) && c' == c.(outputs := c'.outputs) && i == Position(c.outputs, id)
    requires |c'.outputs| == if i < |c.outputs| then |c.outputs| else |c.outputs| + 1
    requires forall j :: 0 <= j < |c.outputs| ==> c'.outputs[j].id == c.outputs[j].id && c'.outputs[j].hasSurface == c.outputs[j].hasSurface
    requires i == |c.outputs| ==> c'.outputs[i].id == id && !c'.outputs[i].hasSurface
    ensures Identities(c')
  {
    forall o | o in c'.surfacesFor ensures Known(c'.outputs, o) {
      var k :| 0 <= k < |c.outputs| && c.outputs[k].id == o;
      assert c'.outputs[k].id == o;
    }
    assert i == |c.outputs| ==> id !in c.surfacesFor;
    hide Known, Position;
  }

  lemma DrainKeeps(c: Client)
    requires AuthInv(c) && !c.done
    ensures var d := Drain(c);
      && d == c.(pending := d.pending, password := d.password, failCount := d.failCount, fails := d.fails, oks := d.oks,
                 unlocks := d.unlocks, early := d.early, shouldQuit := d.shouldQuit, exitCode := d.exitCode, worker := d.worker)
      && AuthInv(d.(done := d.shouldQuit))
  {
    if c.worker.results != [] {
      assert c.worker.results[1..] == [];
      assert Drain(DrainOne(c)) == DrainOne(c);
    }
  }

  lemma StepKeeps(c: Client, e: Event)
    requires Enabled(c, e) && AuthInv(c) && SurfaceInv(c) && (c.done ==> c.shouldQuit)
    ensures var d := Step(c, e); AuthInv(d) && SurfaceInv(d) && (d.done ==> d.shouldQuit)
  {
    match e
    case Locked => CreateUpToKeeps(c.(locked := true), |c.outputs|);
    case OutputMode(id, w, h) => ModeKeeps(c, id, w, h);
    case Poll => DrainKeeps(c);
    case _ =>
  }

  ghost predicate Possible(c: Client, es: seq<Event>)
    decreases |es|
  {
    es == [] || (Enabled(c, es[0]) && Possible(Step(c, es[0]), es[1..]))
  }

  ghost function After(c: Client, es: seq<Event>): Client
    requires Possible(c, es)
    decreases |es|
  {
    if es == [] then c else After(Step(c, es[0]), es[1..])
  }

  lemma {:induction false} Always(c: Client, es: seq<Event>)
    requires Possible(c, es) && AuthInv(c) && SurfaceInv(c) && (c.done ==> c.shouldQuit)
    ensures var d := After(c, es); AuthInv(d) && SurfaceInv(d) && (d.done ==> d.shouldQuit)
    decreases |es|
  {
    if es != [] {
      StepKeeps(c, es[0]);
      Always(Step(c, es[0]), es[1..]);
    }
  }

  lemma NewKeeps(c: Client)
    requires IsNew(c)
    ensures AuthInv(c) && SurfaceInv(c) && !c.done
  {}

  // Over every interleaving of keys, compositor events and the worker thread.
  lemma LockProtocol(start: Client, es: seq<Event>)
    requires IsNew(start) && Possible(start, es)
    ensures var c := After(start, es);
      && (c.worker.alive ==> (c.pending <==> InFlight(c) == 1) && InFlight(c) <= 1)
      && (c.pending ==> c.password == "")
      && c.failCount == c.fails
      && c.unlocks <= 1 && c.unlocks == c.oks
      && (c.done ==> (c.exitCode == 0 <==> c.unlocks == 1))
      && (c.worker.alive ==> |c.submitted| == c.oks + c.fails + InFlight(c))
  {
    NewKeeps(start);
    Always(start, es);
    hide After, Possible, SurfaceInv;
  }

  // ---------- unlocking in order ----------

  // Event n of the run is the Poll that drains an Ok.
  ghost predicate DrainsOk(c: Client, es: seq<Event>, n: nat) {
    n < |es| && es[n].Poll? && Possible(c, es[..n]) && AuthOk in After(c, es[..n]).worker.results
  }

  lemma EarlyStep(c: Client, e: Event)
    requires Enabled(c, e) && AuthInv(c)
    ensures Step(c, e).early == c.early + if e.Poll? && AuthOk in c.worker.results && !c.locked then 1 else 0
    ensures Step(c, e).locked <==> c.locked || e.Locked?
  {
    match e
    case Poll =>
      if c.worker.results != [] {
        assert c.worker.results == [c.worker.results[0]];
        assert Drain(DrainOne(c)) == DrainOne(c);
      }
    case Locked => CreateUpToFrame(c.(locked := true), |c.outputs|);
    case _ =>
  }

  lemma {:induction false} CreateUpToFrame(c: Client, n: nat)
    ensures var d := CreateUpTo(c, n); d == c.(outputs := d.outputs, surfacesFor := d.surfacesFor)
  {
    if n > 0 { CreateUpToFrame(c, n - 1); }
  }

  // Every drained Ok was preceded by Locked.
  ghost predicate InOrder(c: Client, es: seq<Event>) {
    forall n: nat :: DrainsOk(c, es, n) ==> c.locked || Locked in es[..n]
  }

  lemma DrainShift(c: Client, es: seq<Event>, n: nat)
    requires es != [] && Enabled(c, es[0]) && n < |es| - 1
    ensures DrainsOk(c, es, n + 1) <==> DrainsOk(Step(c, es[0]), es[1..], n)
    ensures Locked in es[..n + 1] <==> es[0].Locked? || Locked in es[1..][..n]
  {
    assert es[..n + 1] == [es[0]] + es[1..][..n];
    assert es[..n + 1][1..] == es[1..][..n];
    hide Step, Enabled;
  }

  lemma InOrderNext(c: Client, es: seq<Event>)
    requires es != [] && Enabled(c, es[0]) && (Step(c, es[0]).locked <==> c.locked || es[0].Locked?)
    ensures InOrder(c, es) <==> (DrainsOk(c, es, 0) ==> c.locked) && InOrder(Step(c, es[0]), es[1..])
  {
    var d, rest := Step(c, es[0]), es[1..];
    assert Locked !in es[..0];
    assert forall n: nat :: DrainsOk(c, es, n) ==> n < |es|;
    assert forall n: nat :: DrainsOk(d, rest, n) ==> n < |rest|;
    hide Step, Enabled, DrainsOk;
    if InOrder(c, es) {
      forall n: nat | DrainsOk(d, rest, n) ensures d.locked || Locked in rest[..n] {
        DrainShift(c, es, n);
        assert DrainsOk(c, es, n + 1);
      }
    }
    if (DrainsOk(c, es, 0) ==> c.locked) && InOrder(d, rest) {
      forall n: nat | DrainsOk(c, es, n) ensures c.locked || Locked in es[..n] {
        if n > 0 {
          DrainShift(c, es, n - 1);
          assert DrainsOk(d, rest, n - 1);
        }
      }
    }
  }

  lemma {:induction false} EarlyIff(c: Client, es: seq<Event>)
    requires Possible(c, es) && AuthInv(c) && SurfaceInv(c) && (c.done ==> c.shouldQuit)
    ensures After(c, es).early >= c.early
    ensures After(c, es).early == c.early <==> InOrder(c, es)
    decreases |es|
  {
    if es != [] {
      StepKeeps(c, es[0]);
      EarlyStep(c, es[0]);
      EarlyIff(Step(c, es[0]), es[1..]);
      InOrderNext(c, es);
      assert es[..0] == [];
      assert DrainsOk(c, es, 0) <==> es[0].Poll? && AuthOk in c.worker.results;
      hide InOrder, DrainsOk, AuthInv, SurfaceInv, Step, Enabled;
    }
  }

  // Over every run: no unlock is sent before the compositor said Locked, as
  // ext-session-lock-v1 requires (invalid_unlock), if and only if Locked came
  // before each Poll that drained an Ok.  The code itself never looks.
  lemma UnlockInOrderIff(start: Client, es: seq<Event>)
    requires IsNew(start) && Possible(start, es)
    ensures After(start, es).early == 0
       <==> forall n: nat :: DrainsOk(start, es, n) ==> Locked in es[..n]
  {
    NewKeeps(start);
    EarlyIff(start, es);
    hide DrainsOk, After, Possible;
  }

  // A password typed and accepted before Locked arrives.
  lemma UnlockBeforeLocked(start: Client)
    requires IsNew(start)
    ensures var es := [Text("x"), Enter, WorkerTakes, WorkerAnswers(AuthOk), Poll];
      Possible(start, es) && After(start, es).unlocks == 1 && After(start, es).early == 1 && !After(start, es).locked
  {
    var es := [Text("x"), Enter, WorkerTakes, WorkerAnswers(AuthOk), Poll];
    var c3 := Step(Step(Step(start, es[0]), es[1]), es[2]);
    PasswordTaken(start);
    PasswordAccepted(c3);
    hide Step, Enabled, IsNew;
    assert es[5..] == [] && es[0..] == es;
    Unfold(Step(c3, es[3]), es, 4);
    Unfold(c3, es, 3);
    Unfold(Step(Step(start, es[0]), es[1]), es, 2);
    Unfold(Step(start, es[0]), es, 1);
    Unfold(start, es, 0);
  }

  lemma PasswordTaken(start: Client)
    requires IsNew(start)
    ensures var c1 := Step(start, Text("x")); var c2 := Step(c1, Enter);
      && Enabled(start, Text("x")) && Enabled(c1, Enter) && Enabled(c2, WorkerTakes)
      && var c3 := Step(c2, WorkerTakes);
         c3.worker == Worker([], Some("x"), [], true) && !c3.locked && c3.unlocks == 0 && c3.early == 0 && !c3.done
  {
    var c1 := Step(start, Text("x"));
    assert c1.password == "" + "x" == "x";
    assert Step(c1, Enter).worker == Worker(["x"], None, [], true);
  }

  lemma PasswordAccepted(c: Client)
    requires c.worker == Worker([], Some("x"), [], true) && !c.locked && c.unlocks == 0 && c.early == 0 && !c.done
    ensures Enabled(c, WorkerAnswers(AuthOk)) && Enabled(Step(c, WorkerAnswers(AuthOk)), Poll)
    ensures var d := Step(Step(c, WorkerAnswers(AuthOk)), Poll); d.unlocks == 1 && d.early == 1 && !d.locked
  {
    var c4 := Step(c, WorkerAnswers(AuthOk));
    assert c4.worker == Worker([], None, [AuthOk], true);
    assert Drain(DrainOne(c4)) == DrainOne(c4);
  }

  lemma Unfold(c: Client, es: seq<Event>, n: nat)
    requires n < |es| && Enabled(c, es[n]) && Possible(Step(c, es[n]), es[n + 1..])
    ensures Possible(c, es[n..]) && After(c, es[n..]) == After(Step(c, es[n]), es[n + 1..])
  {
    assert es[n..][1..] == es[n + 1..];
    hide Step, Enabled;
  }

  // Never two lock surfaces for one output, and once locked every known
  // output has one.
  lemma OneSurfacePerOutput(start: Client, es: seq<Event>)
    requires IsNew(start) && Possible(start, es)
    ensures var c := After(start, es);
      && (forall i, j :: 0 <= i < j < |c.surfacesFor| ==> c.surfacesFor[i] != c.surfacesFor[j])
      && (c.locked ==> forall i :: 0 <= i < |c.outputs| ==> c.outputs[i].id in c.surfacesFor)
      && (forall id :: id in c.surfacesFor ==> Known(c.outputs, id))
  {
    hide AuthInv, Known, Step, Enabled;
    NewKeeps(start);
    Always(start, es);
    SurfacesMeet(After(start, es));
    hide *;
  }

  lemma SurfacesMeet(c: Client)
    requires SurfaceInv(c)
    ensures forall i, j :: 0 <= i < j < |c.surfacesFor| ==> c.surfacesFor[i] != c.surfacesFor[j]
    ensures c.locked ==> forall i :: 0 <= i < |c.outputs| ==> c.outputs[i].id in c.surfacesFor
    ensures forall id :: id in c.surfacesFor ==> Known(c.outputs, id)
  {
    hide Known;
  }

  // If the worker thread is gone and no result is left, no password unlocks
  // the session any more.
  lemma {:induction false} DeadWorkerNeverUnlocks(c: Client, es: seq<Event>)
    requires Possible(c, es) && AuthInv(c) && SurfaceInv(c) && (c.done ==> c.shouldQuit)
    requires !c.worker.alive && c.worker.results == []
    ensures After(c, es).unlocks == c.unlocks
    decreases |es|
  {
    if es != [] {
      StepKeeps(c, es[0]);
      if es[0].Locked? { CreateUpToKeeps(c.(locked := true), |c.outputs|); }
      if es[0].OutputMode? { ModeKeeps(c, es[0].id, es[0].w, es[0].h); }
      DeadWorkerNeverUnlocks(Step(c, es[0]), es[1..]);
    }
  }

  // ---------- what is typed and what is sent ----------

  function DropLast(s: string): string { if s == "" then "" else s[..|s| - 1] }

  // The field told from the events alone: texts typed while no request is
  // pending, less a character for each Backspace, since it was last emptied -
  // by Escape, by a submission, or by a failure coming back.
  function KeyStep(c: Client, field: string, e: Event): string {
    match e
    case Text(t) => if c.pending then field else field + t
    case Backspace => DropLast(field)
    case Escape => ""
    case Enter => if c.pending then field else ""
    case Poll => if AuthFail in c.worker.results then "" else field
    case _ => field
  }

  ghost function Typed(c: Client, field: string, es: seq<Event>): string
    requires Possible(c, es)
    decreases |es|
  {
    if es == [] then field else Typed(Step(c, es[0]), KeyStep(c, field, es[0]), es[1..])
  }

  lemma KeyStepIs(c: Client, e: Event)
    requires Enabled(c, e) && AuthInv(c)
    ensures Step(c, e).password == KeyStep(c, c.password, e)
  {
    match e
    case Poll =>
      if c.worker.results != [] {
        assert c.worker.results == [c.worker.results[0]];
        assert Drain(DrainOne(c)) == DrainOne(c);
      }
    case Locked => CreateUpToFrame(c.(locked := true), |c.outputs|);
    case _ =>
  }

  lemma {:induction false} FieldIsTyped(c: Client, es: seq<Event>)
    requires Possible(c, es) && AuthInv(c) && SurfaceInv(c) && (c.done ==> c.shouldQuit)
    ensures After(c, es).password == Typed(c, c.password, es)
    decreases |es|
  {
    if es != [] {
      StepKeeps(c, es[0]);
      KeyStepIs(c, es[0]);
      hide Step, Enabled, AuthInv, SurfaceInv, KeyStep;
      FieldIsTyped(Step(c, es[0]), es[1..]);
    }
  }

  // Over every run: Enter on a free, non-empty field submits exactly what was
  // typed, to the worker's channel while the worker lives; any other Enter
  // changes nothing.
  lemma TypedIsSubmitted(start: Client, es: seq<Event>)
    requires IsNew(start) && Possible(start, es) && Enabled(After(start, es), Enter)
    ensures var c := After(start, es); var d := Step(c, Enter); var typed := Typed(start, "", es);
      if c.pending || typed == "" then d == c
      else
        && d.submitted == c.submitted + [typed] && d.pending && d.password == ""
        && d.worker == if c.worker.alive then c.worker.(requests := c.worker.requests + [typed]) else c.worker
  {
    NewKeeps(start);
    FieldIsTyped(start, es);
    assert start.password == "";
    hide After, Possible, Typed, IsNew, AuthInv, SurfaceInv;
  }

  // ---------- what the worker does ----------

  // The worker takes the oldest request and checks it; its verdict comes last
  // in the result channel.
  lemma WorkerIsFifo(c: Client, v: Verdict)
    ensures Enabled(c, WorkerTakes) ==>
      Step(c, WorkerTakes).worker == Worker(c.worker.requests[1..], Some(c.worker.requests[0]), c.worker.results, true)
    ensures Enabled(c, WorkerAnswers(v)) ==>
      Step(c, WorkerAnswers(v)).worker == Worker(c.worker.requests, None, c.worker.results + [v], true)
  {}

  function Count(vs: seq<Verdict>, v: Verdict): nat {
    if vs == [] then 0 else Count(vs[..|vs| - 1], v) + if vs[|vs| - 1] == v then 1 else 0
  }

  // Verdicts the worker gave in a run.
  function Given(es: seq<Event>, v: Verdict): nat {
    if es == [] then 0 else (if es[0] == WorkerAnswers(v) then 1 else 0) + Given(es[1..], v)
  }

  lemma VerdictStep(c: Client, e: Event)
    requires Enabled(c, e) && AuthInv(c)
    ensures var d := Step(c, e);
      && d.oks + Count(d.worker.results, AuthOk) == c.oks + Count(c.worker.results, AuthOk) + (if e == WorkerAnswers(AuthOk) then 1 else 0)
      && d.fails + Count(d.worker.results, AuthFail) == c.fails + Count(c.worker.results, AuthFail) + (if e == WorkerAnswers(AuthFail) then 1 else 0)
  {
    match e
    case Poll =>
      if c.worker.results != [] {
        assert c.worker.results == [c.worker.results[0]] && c.worker.results[..0] == [];
        assert Drain(DrainOne(c)) == DrainOne(c) && DrainOne(c).worker.results == [];
      }
    case WorkerAnswers(v) => assert (c.worker.results + [v])[..|c.worker.results|] == c.worker.results;
    case Locked => CreateUpToFrame(c.(locked := true), |c.outputs|);
    case _ =>
  }

  lemma {:induction false} VerdictRun(c: Client, es: seq<Event>)
    requires Possible(c, es) && AuthInv(c) && SurfaceInv(c) && (c.done ==> c.shouldQuit)
    ensures var d := After(c, es);
      && d.oks + Count(d.worker.results, AuthOk) == c.oks + Count(c.worker.results, AuthOk) + Given(es, AuthOk)
      && d.fails + Count(d.worker.results, AuthFail) == c.fails + Count(c.worker.results, AuthFail) + Given(es, AuthFail)
    decreases |es|
  {
    if es != [] {
      StepKeeps(c, es[0]);
      VerdictStep(c, es[0]);
      hide Step, Enabled, AuthInv, SurfaceInv, Count;
      VerdictRun(Step(c, es[0]), es[1..]);
    }
  }

  // Over every run the unlocks sent are the Ok verdicts drained and the
  // failures counted are the Fail verdicts drained, each given by the worker
  // and drained once.
  lemma VerdictsAreDrainedOnce(start: Client, es: seq<Event>)
    requires IsNew(start) && Possible(start, es)
    ensures var c := After(start, es);
      && c.unlocks + Count(c.worker.results, AuthOk) == Given(es, AuthOk)
      && c.failCount + Count(c.worker.results, AuthFail) == Given(es, AuthFail)
  {
    NewKeeps(start);
    VerdictRun(start, es);
    Always(start, es);
    hide After, Possible, Given, SurfaceInv;
  }

  // ---------- ending and outputs ----------

  // A refused lock ends the loop at the next poll, with code 1 unless that
  // poll drains an Ok.
  lemma RefusalEnds(c: Client)
    requires AuthInv(c) && !c.done
    ensures Step(c, Finished) == c.(shouldQuit := true, exitCode := 1)
    ensures var d := Step(Step(c, Finished), Poll); d.done && d.exitCode == if AuthOk in c.worker.results then 0 else 1
  {
    var f := Step(c, Finished);
    if f.worker.results != [] {
      assert f.worker.results == [f.worker.results[0]];
      assert Drain(DrainOne(f)) == DrainOne(f);
    }
  }

  // A mode event stores its size with the first output of that id, or with a
  // new last one, and disturbs no other output's size.
  lemma ModeStoresTheSize(c: Client, id: nat, w: int, h: int, n: nat)
    requires !c.done && n <= |c.outputs|
    requires (forall j :: 0 <= j < n ==> c.outputs[j].id != id) && (n < |c.outputs| ==> c.outputs[n].id == id)
    ensures var d := Step(c, OutputMode(id, w, h));
      && |d.outputs| == (if n < |c.outputs| then |c.outputs| else |c.outputs| + 1)
      && d.outputs[n].id == id && d.outputs[n].width == w % 0x1_0000_0000 && d.outputs[n].height == h % 0x1_0000_0000
      && forall j :: 0 <= j < |c.outputs| && j != n ==>
        d.outputs[j].id == c.outputs[j].id && d.outputs[j].width == c.outputs[j].width && d.outputs[j].height == c.outputs[j].height
  {
    PositionIs(c.outputs, id, n);
    ModeShape(c, id, w, h);
    hide Position, OnOutputMode, Step;
  }

  lemma PositionIs(outputs: seq<Output>, id: nat, n: nat)
    requires n <= |outputs| && (forall j :: 0 <= j < n ==> outputs[j].id != id) && (n < |outputs| ==> outputs[n].id == id)
    ensures Position(outputs, id) == n
  {}

  // ---------- the objects ----------

  class AuthWorker {
    var requests: seq<string>
    var current: Option<string>
    var results: seq<Verdict>
    var alive: bool

    function View(): Worker
      reads this
    {
      Worker(requests, current, results, alive)
    }

    constructor ()
      ensures View() == Worker([], None, [], true)
    {
      requests, current, results, alive := [], None, [], true;
    }

    // tx.send: dropped when the receiving thread is gone.
    method Send(password: string)
      modifies this
      ensures View() == if old(alive) then old(View()).(requests := old(requests) + [password]) else old(View())
    {
      if alive { requests := requests + [password]; }
    }

    // One turn of worker_loop: receive, authenticate, respond.
    method Turn(verdict: Verdict)
      requires alive && current.None? && requests != []
      modifies this
      ensures View() == Worker(old(requests)[1..], None, old(results) + [verdict], true)
    {
      current := Some(requests[0]);
      requests := requests[1..];
      results := results + [verdict];
      current := None;
    }
  }

  class LockState {
    const auth: AuthWorker
    var password: string
    var pending: bool
    var failCount: nat
    var locked: bool
    var outputs: seq<Output>
    var shouldQuit: bool
    var exitCode: int
    ghost var done: bool
    ghost var submitted: seq<string>
    ghost var oks: nat
    ghost var fails: nat
    ghost var unlocks: nat
    ghost var early: nat
    ghost var surfacesFor: seq<nat>

    ghost function View(): Client
      reads this, auth
    {
      Client(password, pending, failCount, locked, outputs, shouldQuit, exitCode, done, auth.View(),
             submitted, oks, fails, unlocks, early, surfacesFor)
    }

    constructor ()
      ensures IsNew(View()) && fresh(auth)
    {
      auth := new AuthWorker();
      password, pending, failCount, locked, outputs := "", false, 0, false, [];
      shouldQuit, exitCode, done := false, 0, false;
      submitted, oks, fails, unlocks, early, surfacesFor := [], 0, 0, 0, 0, [];
    }

    method SubmitPassword()
      requires !done
      modifies this, auth
      ensures View() == Step(old(View()), Enter)
    {
      if password == "" || pending { return; }
      pending := true;
      submitted := submitted + [password];
      auth.Send(password);
      password := "";
    }

    method HandleText(text: string)
      requires !done
      modifies this
      ensures View() == Step(old(View()), Text(text))
    {
      if !pending { password := password + text; }
    }

    method HandleBackspace()
      requires !done
      modifies this
      ensures View() == Step(old(View()), Backspace)
    {
      if password != "" { password := password[..|password| - 1]; }
    }

    method HandleEscape()
      requires !done
      modifies this
      ensures View() == Step(old(View()), Escape)
    {
      password := "";
    }

    method CreateLockSurfaceFor(i: nat)
      modifies this
      ensures View() == CreateSurface(old(View()), i)
    {
      if i >= |outputs| || outputs[i].hasSurface { return; }
      surfacesFor := surfacesFor + [outputs[i].id];
      outputs := outputs[i := outputs[i].(hasSurface := true)];
    }

    method OnLocked()
      requires !done
      modifies this
      ensures View() == Step(old(View()), Locked)
    {
      locked := true;
      var n := |outputs|;
      for i := 0 to n
        invariant View() == CreateUpTo(old(View()).(locked := true), i)
      {
        CreateLockSurfaceFor(i);
      }
    }

    method OnOutputModeEvent(id: nat, w: int, h: int)
      requires !done
      modifies this
      ensures View() == Step(old(View()), OutputMode(id, w, h))
    {
      hide Step, OnOutputMode, Sized, Position, CreateSurface;
      ModeShape(View(), id, w, h);
      var i := FindOutput(id);
      StoreSize(i, id, w, h);
      if locked {
        CreateLockSurfaceFor(|outputs| - 1);
      }
    }

    method FindOutput(id: nat) returns (i: nat)
      ensures i == Position(outputs, id)
    {
      i := 0;
      while i < |outputs| && outputs[i].id != id
        invariant i <= |outputs| && Position(outputs, id) == i + Position(outputs[i..], id)
      {
        i := i + 1;
      }
    }

    method StoreSize(i: nat, id: nat, w: int, h: int)
      requires i == Position(outputs, id)
      modifies this`outputs
      ensures outputs == Sized(old(outputs), id, w, h) && outputs != []
    {
      if i < |outputs| {
        outputs := outputs[i := outputs[i].(width := AsU32(w), height := AsU32(h))];
      } else {
        outputs := outputs + [Output(id, false, AsU32(w), AsU32(h))];
      }
    }

    method OnFinished()
      requires !done
      modifies this
      ensures View() == Step(old(View()), Finished)
    {
      shouldQuit := true;
      exitCode := 1;
    }

    // The loop body of poll_auth.
    method TakeResult()
      requires auth.results != []
      modifies this, auth
      ensures View() == DrainOne(old(View()))
    {
      var result := auth.results[0];
      auth.results := auth.results[1..];
      pending := false;
      hide Accepted, Rejected;
      match result
      case AuthOk => UnlockAndQuit();
      case AuthFail => CountFailure();
    }

    method UnlockAndQuit()
      modifies this
      ensures View() == Accepted(old(View()))
    {
      oks, unlocks := oks + 1, unlocks + 1;
      if !locked { early := early + 1; }
      shouldQuit := true;
      exitCode := 0;
    }

    method CountFailure()
      modifies this
      ensures View() == Rejected(old(View()))
    {
      fails := fails + 1;
      failCount := failCount + 1;
      password := "";
    }

    // poll_auth, and the loop condition of `run` right after it.
    method PollAuth()
      requires !done
      modifies this, auth
      ensures View() == Step(old(View()), Poll)
    {
      while auth.results != []
        invariant Drain(View()) == Drain(old(View()))
        decreases |auth.results|
      {
        TakeResult();
      }
      done := shouldQuit;
    }
  }

  // A worker turn is a take followed by an answer.
  lemma TurnIsTwoSteps(c: Client, v: Verdict)
    requires Enabled(c, WorkerTakes)
    ensures Enabled(Step(c, WorkerTakes), WorkerAnswers(v))
    ensures Step(Step(c, WorkerTakes), WorkerAnswers(v)).worker
         == Worker(c.worker.requests[1..], None, c.worker.results + [v], true)
  {}
}
