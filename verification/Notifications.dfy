/**
 The notification daemon's surface thread: at most five visible toasts in front
 of a FIFO queue, with replacement, expiry and closing.

 Every show message gets a serial number on arrival.  A toast keeps the serial
 of the message that opened its slot (`birth`) and of the message it shows now
 (`serial`); the program reads neither.
 */
module Notifications {
  import opened Wrappers

  const MAX_VISIBLE := 5

  datatype Notif = Notif(id: nat, summary: string, body: string, timeoutMs: nat)
  datatype Queued = Queued(notif: Notif, serial: nat)
  datatype Toast = Toast(notif: Notif, birth: nat, serial: nat, expiresAt: nat)
  datatype Signal = Signal(id: nat, serial: nat)

  // `arrivals`, `replaced` and `signals` are the history of the thread.
  datatype Daemon = Daemon(visible: seq<Toast>, queue: seq<Queued>,
                           arrivals: seq<Notif>, replaced: seq<nat>, signals: seq<Signal>)

  const NEW := Daemon([], [], [], [], [])

  // at(s) is the clock reading taken when the message with serial s opens or
  // takes over a slot.
  type Clock = nat -> nat

  datatype Event =
    | Message(n: Notif, at: Clock)
    | Tick(now: nat)
    | LayerClosed(layer: nat)

  // The message form that `close_for` builds: nothing to show, due at once.
  predicate IsClose(n: Notif) { n.summary == "" && n.body == "" && n.timeoutMs <= 1 }

  function Lifetime(n: Notif): nat { if n.timeoutMs < 1 then 1 else n.timeoutMs }

  // Index of the first visible toast with this id, or |v|.
  function Position(v: seq<Toast>, id: nat): (i: nat)
    ensures i <= |v|
    ensures i < |v| ==> v[i].notif.id == id
    ensures forall j :: 0 <= j < i ==> v[j].notif.id != id
  {
    if v == [] || v[0].notif.id == id then 0 else 1 + Position(v[1..], id)
  }

  // pump_visible: queued messages open slots while there is room.
  function Pump(d: Daemon, at: Clock): Daemon
    decreases |d.queue|
  {
    if |d.visible| >= MAX_VISIBLE || d.queue == [] then d
    else
      var q := d.queue[0];
      Pump(d.(queue := d.queue[1..], visible := d.visible + [Toast(q.notif, q.serial, q.serial, at(q.serial) + Lifetime(q.notif))]), at)
  }

  function Enqueue(d: Daemon, n: Notif, at: Clock): Daemon {
    var s := |d.arrivals|;
    var d0 := d.(arrivals := d.arrivals + [n]);
    var i := Position(d.visible, n.id);
    if i < |d.visible| then
      d0.(visible := d.visible[i := Toast(n, d.visible[i].birth, s, at(s) + Lifetime(n))],
          replaced := d.replaced + [d.visible[i].serial])
    else Pump(d0.(queue := d.queue + [Queued(n, s)]), at)
  }

  // A toast leaves the visible set and its closing is signalled.
  function CloseAt(d: Daemon, i: nat): Daemon
    requires i < |d.visible|
  {
    d.(visible := d.visible[..i] + d.visible[i + 1..],
       signals := d.signals + [Signal(d.visible[i].notif.id, d.visible[i].serial)])
  }

  function Kept(v: seq<Toast>, now: nat): seq<Toast> {
    if v == [] then []
    else
      var t := v[|v| - 1];
      Kept(v[..|v| - 1], now) + if now >= t.expiresAt then [] else [t]
  }

  function Expired(v: seq<Toast>, now: nat): seq<Signal> {
    if v == [] then []
    else
      var t := v[|v| - 1];
      Expired(v[..|v| - 1], now) + if now >= t.expiresAt then [Signal(t.notif.id, t.serial)] else []
  }

  function Step(d: Daemon, e: Event): Daemon {
    match e
    case Message(n, at) =>
      if IsClose(n) then
        var i := Position(d.visible, n.id);
        if i < |d.visible| then CloseAt(d, i) else d
      else Enqueue(d, n, at)
    case Tick(now) => d.(visible := Kept(d.visible, now), signals := d.signals + Expired(d.visible, now))
    case LayerClosed(layer) => if layer < |d.visible| then CloseAt(d, layer) else d
  }

  function Run(es: seq<Event>): Daemon {
    if es == [] then NEW else Step(Run(es[..|es| - 1]), es[|es| - 1])
  }

  // ---------- conservation ----------

  function Shown(v: seq<Toast>): seq<nat> { seq(|v|, i requires 0 <= i < |v| => v[i].serial) }
  function Waiting(q: seq<Queued>): seq<nat> { seq(|q|, i requires 0 <= i < |q| => q[i].serial) }
  function Signalled(g: seq<Signal>): seq<nat> { seq(|g|, i requires 0 <= i < |g| => g[i].serial) }

  function UpTo(n: nat): (m: multiset<nat>)
    ensures |m| == n
  {
    if n == 0 then multiset{} else UpTo(n - 1) + multiset{n - 1}
  }

  // Every show message is in exactly one place: queued, visible, replaced in
  // place, or closed with a signal.
  ghost predicate Conserved(d: Daemon) {
    multiset(Shown(d.visible)) + multiset(Waiting(d.queue)) + multiset(d.replaced) + multiset(Signalled(d.signals))
    == UpTo(|d.arrivals|)
  }

  lemma {:induction false} PumpConserves(d: Daemon, at: Clock)
    requires Conserved(d)
    ensures Conserved(Pump(d, at)) && Pump(d, at).arrivals == d.arrivals
    decreases |d.queue|
  {
    hide Conserved;
    if |d.visible| < MAX_VISIBLE && d.queue != [] {
      var q := d.queue[0];
      var t := Toast(q.notif, q.serial, q.serial, at(q.serial) + Lifetime(q.notif));
      OpenConserves(d, t);
      PumpConserves(d.(queue := d.queue[1..], visible := d.visible + [t]), at);
    }
  }

  lemma OpenConserves(d: Daemon, t: Toast)
    requires Conserved(d) && d.queue != [] && t.serial == d.queue[0].serial
    ensures Conserved(d.(queue := d.queue[1..], visible := d.visible + [t]))
  {
    assert Waiting(d.queue) == [t.serial] + Waiting(d.queue[1..]);
    assert Shown(d.visible + [t]) == Shown(d.visible) + [t.serial];
    hide Shown, Signalled, Waiting, UpTo;
  }

  lemma QueueConserves(d: Daemon, n: Notif)
    requires Conserved(d)
    ensures Conserved(d.(arrivals := d.arrivals + [n], queue := d.queue + [Queued(n, |d.arrivals|)]))
  {
    var s := |d.arrivals|;
    assert Waiting(d.queue + [Queued(n, s)]) == Waiting(d.queue) + [s];
    hide Shown, Signalled, Waiting;
  }

  lemma CloseConserves(d: Daemon, i: nat)
    requires Conserved(d) && i < |d.visible|
    ensures Conserved(CloseAt(d, i))
  {
    var v, s := d.visible, d.visible[i].serial;
    var g := Signal(v[i].notif.id, s);
    var rest := v[..i] + v[i + 1..];
    assert CloseAt(d, i) == d.(visible := rest, signals := d.signals + [g]);
    SignalledAppend(d.signals, g);
    ShownCut(v, i);
    hide Shown, Signalled, Waiting, UpTo, CloseAt;
    Regroup(multiset(Shown(rest)), multiset{s}, multiset(Waiting(d.queue)), multiset(d.replaced), multiset(Signalled(d.signals)));
  }

  lemma ShownCut(v: seq<Toast>, i: nat)
    requires i < |v|
    ensures multiset(Shown(v)) == multiset(Shown(v[..i] + v[i + 1..])) + multiset{v[i].serial}
  {
    assert Shown(v) == Shown(v[..i]) + [v[i].serial] + Shown(v[i + 1..]);
    assert Shown(v[..i] + v[i + 1..]) == Shown(v[..i]) + Shown(v[i + 1..]);
    hide Shown;
  }

  lemma EnqueueConserves(d: Daemon, n: Notif, at: Clock)
    requires Conserved(d)
    ensures Conserved(Enqueue(d, n, at))
  {
    hide Conserved, Pump;
    var i, s := Position(d.visible, n.id), |d.arrivals|;
    if i < |d.visible| {
      ReplaceConserves(d, i, Toast(n, d.visible[i].birth, s, at(s) + Lifetime(n)), n);
    } else {
      QueueConserves(d, n);
      PumpConserves(d.(arrivals := d.arrivals + [n], queue := d.queue + [Queued(n, s)]), at);
    }
  }

  lemma ReplaceConserves(d: Daemon, i: nat, t: Toast, n: Notif)
    requires Conserved(d) && i < |d.visible| && t.serial == |d.arrivals|
    ensures Conserved(d.(arrivals := d.arrivals + [n], visible := d.visible[i := t], replaced := d.replaced + [d.visible[i].serial]))
  {
    var v, old_ := d.visible, d.visible[i].serial;
    assert UpTo(|d.arrivals| + 1) == UpTo(|d.arrivals|) + multiset{t.serial};
    ShownSwap(v, i, t);
    assert |d.arrivals + [n]| == |d.arrivals| + 1;
    assert multiset(d.replaced + [old_]) == multiset(d.replaced) + multiset{old_};
    hide Shown, Signalled, Waiting, UpTo;
    Swap(multiset(Shown(v)), multiset(Shown(v[i := t])), old_, t.serial,
         multiset(Waiting(d.queue)), multiset(d.replaced), multiset(Signalled(d.signals)));
  }

  lemma ShownSwap(v: seq<Toast>, i: nat, t: Toast)
    requires i < |v|
    ensures multiset(Shown(v[i := t])) + multiset{v[i].serial} == multiset(Shown(v)) + multiset{t.serial}
  {
    assert Shown(v) == Shown(v[..i]) + [v[i].serial] + Shown(v[i + 1..]);
    assert Shown(v[i := t]) == Shown(v[..i]) + [t.serial] + Shown(v[i + 1..]);
    hide Shown;
  }

  lemma Swap(a: multiset<nat>, b: multiset<nat>, x: nat, y: nat, q: multiset<nat>, r: multiset<nat>, g: multiset<nat>)
    requires b + multiset{x} == a + multiset{y}
    ensures b + q + (r + multiset{x}) + g == a + q + r + g + multiset{y}
  {
    assert b + q + (r + multiset{x}) + g == (b + multiset{x}) + q + r + g;
    assert a + q + r + g + multiset{y} == (a + multiset{y}) + q + r + g;
  }

  lemma {:induction false} TickSplits(v: seq<Toast>, now: nat)
    ensures multiset(Shown(v)) == multiset(Shown(Kept(v, now))) + multiset(Signalled(Expired(v, now)))
  {
    if v != [] {
      var init, t := v[..|v| - 1], v[|v| - 1];
      TickSplits(init, now);
      var due := now >= t.expiresAt;
      assert Kept(v, now) == Kept(init, now) + if due then [] else [t];
      assert Expired(v, now) == Expired(init, now) + if due then [Signal(t.notif.id, t.serial)] else [];
      hide Kept, Expired;
      assert v == init + [t];
      ShownAppend(init, t);
      if due {
        SignalledAppend(Expired(init, now), Signal(t.notif.id, t.serial));
        assert Kept(init, now) + [] == Kept(init, now);
      } else {
        ShownAppend(Kept(init, now), t);
        assert Expired(init, now) + [] == Expired(init, now);
      }
      hide Shown, Signalled;
      AddOne(Shown(init), Shown(Kept(init, now)), Signalled(Expired(init, now)), t.serial);
    }
  }

  lemma AddOne(s: seq<nat>, a: seq<nat>, b: seq<nat>, x: nat)
    requires multiset(s) == multiset(a) + multiset(b)
    ensures multiset(s + [x]) == multiset(a + [x]) + multiset(b) == multiset(a) + multiset(b + [x])
  {}

  lemma ShownAppend(v: seq<Toast>, t: Toast)
    ensures Shown(v + [t]) == Shown(v) + [t.serial]
  {}

  lemma SignalledAppend(g: seq<Signal>, x: Signal)
    ensures Signalled(g + [x]) == Signalled(g) + [x.serial]
  {}

  lemma TickConserves(d: Daemon, now: nat)
    requires Conserved(d)
    ensures Conserved(Step(d, Tick(now)))
  {
    var gone, kept := Expired(d.visible, now), Kept(d.visible, now);
    assert Signalled(d.signals + gone) == Signalled(d.signals) + Signalled(gone);
    assert Step(d, Tick(now)) == d.(visible := kept, signals := d.signals + gone);
    TickSplits(d.visible, now);
    hide Shown, Signalled, Waiting, UpTo, Kept, Expired, Step;
    Regroup(multiset(Shown(kept)), multiset(Signalled(gone)), multiset(Waiting(d.queue)), multiset(d.replaced), multiset(Signalled(d.signals)));
  }

  lemma Regroup(kept: multiset<nat>, gone: multiset<nat>, q: multiset<nat>, r: multiset<nat>, g: multiset<nat>)
    ensures kept + q + r + (g + gone) == (kept + gone) + q + r + g
  {}

  lemma ConservedStep(d: Daemon, e: Event)
    requires Conserved(d)
    ensures Conserved(Step(d, e))
  {
    hide Conserved;
    match e
    case Message(n, at) =>
      if IsClose(n) {
        var i := Position(d.visible, n.id);
        if i < |d.visible| { CloseConserves(d, i); }
      } else {
        EnqueueConserves(d, n, at);
      }
    case Tick(now) =>
      TickConserves(d, now);
    case LayerClosed(layer) =>
      if layer < |d.visible| { CloseConserves(d, layer); }
  }

  // Over every run, show messages = queued + visible + replaced + signals,
  // message by message and hence in number.
  lemma {:induction false} NothingLost(es: seq<Event>)
    ensures var d := Run(es);
      && Conserved(d)
      && |d.arrivals| == |d.queue| + |d.visible| + |d.replaced| + |d.signals|
  {
    if es != [] {
      NothingLost(es[..|es| - 1]);
      ConservedStep(Run(es[..|es| - 1]), es[|es| - 1]);
    }
    var d := Run(es);
    assert Conserved(d);
    assert |UpTo(|d.arrivals|)| == |Shown(d.visible)| + |Waiting(d.queue)| + |d.replaced| + |Signalled(d.signals)|;
  }

  // ---------- order ----------

  // Slots, then queue, in order of arrival.
  function Births(d: Daemon): seq<nat> {
    seq(|d.visible|, i requires 0 <= i < |d.visible| => d.visible[i].birth)
    + seq(|d.queue|, i requires 0 <= i < |d.queue| => d.queue[i].serial)
  }

  function Ids(d: Daemon): seq<nat> {
    seq(|d.visible|, i requires 0 <= i < |d.visible| => d.visible[i].notif.id)
    + seq(|d.queue|, i requires 0 <= i < |d.queue| => d.queue[i].notif.id)
  }

  predicate Increasing(s: seq<nat>) { forall i, j :: 0 <= i < j < |s| ==> s[i] < s[j] }

  // At most five toasts; the ids shown and queued are a subsequence of those
  // that arrived, and each toast, queue entry and signal shows its own message.
  ghost predicate Ordered(d: Daemon) {
    && |d.visible| <= MAX_VISIBLE
    && Increasing(Births(d))
    && (forall i :: 0 <= i < |Births(d)| ==> Births(d)[i] < |d.arrivals| && d.arrivals[Births(d)[i]].id == Ids(d)[i])
    && (forall i :: 0 <= i < |d.visible| ==> d.visible[i].serial < |d.arrivals| && d.arrivals[d.visible[i].serial] == d.visible[i].notif)
    && (forall i :: 0 <= i < |d.queue| ==> d.queue[i].serial < |d.arrivals| && d.arrivals[d.queue[i].serial] == d.queue[i].notif)
    && (forall i :: 0 <= i < |d.signals| ==> d.signals[i].serial < |d.arrivals| && d.arrivals[d.signals[i].serial].id == d.signals[i].id)
  }

  lemma {:induction false} PumpOrdered(d: Daemon, at: Clock)
    requires Ordered(d)
    ensures Ordered(Pump(d, at))
    ensures Pump(d, at).queue != [] ==> |Pump(d, at).visible| == MAX_VISIBLE
    decreases |d.queue|
  {
    if |d.visible| < MAX_VISIBLE && d.queue != [] {
      var q := d.queue[0];
      var t := Toast(q.notif, q.serial, q.serial, at(q.serial) + Lifetime(q.notif));
      var d' := d.(queue := d.queue[1..], visible := d.visible + [t]);
      assert Births(d') == Births(d) && Ids(d') == Ids(d);
      assert d.queue[0].serial == q.serial;
      PumpOrdered(d', at);
    }
  }

  lemma CloseOrdered(d: Daemon, i: nat)
    requires Ordered(d) && i < |d.visible|
    ensures Ordered(CloseAt(d, i))
  {
    CloseBirths(d, i);
    hide Ordered, CloseAt;
    CutOrdered(d, CloseAt(d, i), i);
  }

  lemma CloseBirths(d: Daemon, i: nat)
    requires i < |d.visible|
    ensures |Ids(d)| == |Births(d)| && i < |Births(d)|
    ensures Births(CloseAt(d, i)) == Births(d)[..i] + Births(d)[i + 1..]
    ensures Ids(CloseAt(d, i)) == Ids(d)[..i] + Ids(d)[i + 1..]
  {}

  lemma CutOrdered(d: Daemon, d': Daemon, i: nat)
    requires Ordered(d) && i < |d.visible| && |Ids(d)| == |Births(d)|
    requires d' == CloseAt(d, i)
    requires i < |Births(d)| && Births(d') == Births(d)[..i] + Births(d)[i + 1..] && Ids(d') == Ids(d)[..i] + Ids(d)[i + 1..]
    ensures Ordered(d')
  {
    hide Births, Ids;
    var b, b' := Births(d), Births(d');
    forall j, k | 0 <= j < k < |b'| ensures b'[j] < b'[k] {
      assert b'[j] == b[if j < i then j else j + 1] && b'[k] == b[if k < i then k else k + 1];
    }
    forall j | 0 <= j < |b'| ensures b'[j] < |d'.arrivals| && d'.arrivals[b'[j]].id == Ids(d')[j] {
      var j0 := if j < i then j else j + 1;
      assert b'[j] == b[j0] && Ids(d')[j] == Ids(d)[j0];
    }
  }

  lemma EnqueueOrdered(d: Daemon, n: Notif, at: Clock)
    requires Ordered(d)
    ensures Ordered(Enqueue(d, n, at))
  {
    hide Ordered, Pump;
    if Position(d.visible, n.id) < |d.visible| {
      ReplaceOrdered(d, n, at);
    } else {
      QueueOrdered(d, n);
      PumpOrdered(d.(arrivals := d.arrivals + [n], queue := d.queue + [Queued(n, |d.arrivals|)]), at);
    }
  }

  lemma ReplaceOrdered(d: Daemon, n: Notif, at: Clock)
    requires Ordered(d) && Position(d.visible, n.id) < |d.visible|
    ensures Ordered(Enqueue(d, n, at))
  {
    var d' := Enqueue(d, n, at);
    assert Births(d') == Births(d) && Ids(d') == Ids(d);
    hide Births, Ids, Pump, Position;
  }

  lemma QueueOrdered(d: Daemon, n: Notif)
    requires Ordered(d)
    ensures Ordered(d.(arrivals := d.arrivals + [n], queue := d.queue + [Queued(n, |d.arrivals|)]))
  {
    var d' := d.(arrivals := d.arrivals + [n], queue := d.queue + [Queued(n, |d.arrivals|)]);
    assert Births(d') == Births(d) + [|d.arrivals|] && Ids(d') == Ids(d) + [n.id] && |Ids(d)| == |Births(d)|;
    hide Births, Ids;
  }

  // Ticking is closing the expired toasts one by one.
  function Ticked(d: Daemon, now: nat, n: nat): Daemon
    requires n <= |d.visible|
  {
    d.(visible := Kept(d.visible[..n], now) + d.visible[n..], signals := d.signals + Expired(d.visible[..n], now))
  }

  lemma CutAt(kept: seq<Toast>, t: Toast, rest: seq<Toast>)
    ensures var v := kept + ([t] + rest); var k := |kept|;
      k < |v| && v[k] == t && v[..k] + v[k + 1..] == kept + rest && kept + [t] + rest == v
  {}

  lemma TickedNext(d: Daemon, now: nat, n: nat)
    requires n < |d.visible|
    ensures var k := |Kept(d.visible[..n], now)|;
      && k < |Ticked(d, now, n).visible|
      && Ticked(d, now, n + 1) == if now >= d.visible[n].expiresAt then CloseAt(Ticked(d, now, n), k) else Ticked(d, now, n)
  {
    var init, t := d.visible[..n], d.visible[n];
    var kept, gone := Kept(init, now), Expired(init, now);
    var k := |kept|;
    assert d.visible[..n + 1][..n] == init && d.visible[n..] == [t] + d.visible[n + 1..];
    var due := now >= t.expiresAt;
    assert Kept(d.visible[..n + 1], now) == kept + if due then [] else [t];
    assert Expired(d.visible[..n + 1], now) == gone + if due then [Signal(t.notif.id, t.serial)] else [];
    hide Kept, Expired;
    var d1 := Ticked(d, now, n);
    var v, rest := d1.visible, d.visible[n + 1..];
    assert v == kept + ([t] + rest);
    CutAt(kept, t, rest);
    hide Position;
  }

  lemma {:induction false} TickOrdered(d: Daemon, now: nat, n: nat)
    requires Ordered(d) && n <= |d.visible|
    ensures Ordered(Ticked(d, now, n))
  {
    if n > 0 {
      TickOrdered(d, now, n - 1);
      TickedNext(d, now, n - 1);
      hide Ticked, Ordered, CloseAt;
      if now >= d.visible[n - 1].expiresAt {
        CloseOrdered(Ticked(d, now, n - 1), |Kept(d.visible[..n - 1], now)|);
      }
    } else {
      assert Kept(d.visible[..0], now) + d.visible[0..] == d.visible;
      assert d.signals + Expired(d.visible[..0], now) == d.signals;
    }
  }

  lemma TickIsTicked(d: Daemon, now: nat)
    ensures Ticked(d, now, |d.visible|) == Step(d, Tick(now))
  {
    var v := d.visible;
    assert v[..|v|] == v && v[|v|..] == [];
    assert Kept(v, now) + [] == Kept(v, now);
  }

  lemma OrderedStep(d: Daemon, e: Event)
    requires Ordered(d)
    ensures Ordered(Step(d, e))
  {
    match e
    case Message(n, at) =>
      if IsClose(n) {
        var i := Position(d.visible, n.id);
        if i < |d.visible| { CloseOrdered(d, i); }
      } else {
        EnqueueOrdered(d, n, at);
      }
    case Tick(now) =>
      TickOrdered(d, now, |d.visible|);
      TickIsTicked(d, now);
      hide Ticked;
    case LayerClosed(layer) =>
      if layer < |d.visible| { CloseOrdered(d, layer); }
  }

  lemma {:induction false} ArrivalOrderKept(es: seq<Event>)
    ensures Ordered(Run(es))
  {
    if es != [] {
      ArrivalOrderKept(es[..|es| - 1]);
      OrderedStep(Run(es[..|es| - 1]), es[|es| - 1]);
    }
  }

  // Serials of what is shown now, then of what is queued.
  function Contents(d: Daemon): seq<nat> {
    seq(|d.visible|, i requires 0 <= i < |d.visible| => d.visible[i].serial)
    + seq(|d.queue|, i requires 0 <= i < |d.queue| => d.queue[i].serial)
  }

  // A replacement keeps its slot.  The guard: a message that replaces finds its
  // slot the very last thing waiting or shown.
  predicate ReplacesLast(d: Daemon, e: Event) {
    e.Message? && !IsClose(e.n) && Position(d.visible, e.n.id) < |d.visible|
    ==> Position(d.visible, e.n.id) == |d.visible| - 1 && d.queue == []
  }

  lemma ReplacementOrderIff(d: Daemon, n: Notif, at: Clock)
    requires Ordered(d) && Increasing(Contents(d)) && Position(d.visible, n.id) < |d.visible|
    ensures Increasing(Contents(Enqueue(d, n, at)))
       <==> Position(d.visible, n.id) == |d.visible| - 1 && d.queue == []
  {
    var i, d' := Position(d.visible, n.id), Enqueue(d, n, at);
    assert Contents(d') == Contents(d)[i := |d.arrivals|];
    if i + 1 < |Contents(d)| {
      assert Contents(d')[i] > Contents(d')[i + 1];
    }
  }

  lemma {:induction false} PumpKeepsContents(d: Daemon, at: Clock)
    ensures Contents(Pump(d, at)) == Contents(d)
    decreases |d.queue|
  {
    if |d.visible| < MAX_VISIBLE && d.queue != [] {
      var q := d.queue[0];
      var t := Toast(q.notif, q.serial, q.serial, at(q.serial) + Lifetime(q.notif));
      var d' := d.(queue := d.queue[1..], visible := d.visible + [t]);
      assert Contents(d') == Contents(d);
      PumpKeepsContents(d', at);
    }
  }

  lemma NewSlotInOrder(d: Daemon, n: Notif, at: Clock)
    requires Ordered(d) && Increasing(Contents(d)) && Position(d.visible, n.id) == |d.visible|
    ensures Increasing(Contents(Enqueue(d, n, at)))
  {
    var d' := d.(arrivals := d.arrivals + [n], queue := d.queue + [Queued(n, |d.arrivals|)]);
    assert Contents(d') == Contents(d) + [|d.arrivals|];
    PumpKeepsContents(d', at);
    assert Enqueue(d, n, at) == Pump(d', at);
    hide Pump, Enqueue, Position;
  }

  lemma CloseInOrder(d: Daemon, i: nat)
    requires Increasing(Contents(d)) && i < |d.visible|
    ensures Increasing(Contents(CloseAt(d, i)))
  {
    var c, c' := Contents(d), Contents(CloseAt(d, i));
    assert i < |c| && c' == c[..i] + c[i + 1..];
    hide Contents, CloseAt;
    forall j, k | 0 <= j < k < |c'| ensures c'[j] < c'[k] {
      assert c'[j] == c[if j < i then j else j + 1] && c'[k] == c[if k < i then k else k + 1];
    }
  }

  lemma {:induction false} TickInOrder(d: Daemon, now: nat, n: nat)
    requires Increasing(Contents(d)) && n <= |d.visible|
    ensures Increasing(Contents(Ticked(d, now, n)))
  {
    if n > 0 {
      TickInOrder(d, now, n - 1);
      TickedNext(d, now, n - 1);
      hide Ticked, Increasing, Contents, CloseAt;
      if now >= d.visible[n - 1].expiresAt {
        CloseInOrder(Ticked(d, now, n - 1), |Kept(d.visible[..n - 1], now)|);
      }
    } else {
      assert Kept(d.visible[..0], now) + d.visible[0..] == d.visible;
    }
  }

  // Of all events only a replacement that is not last puts the shown messages
  // out of arrival order.
  lemma ContentsOrderStep(d: Daemon, e: Event)
    requires Ordered(d) && Increasing(Contents(d))
    ensures Increasing(Contents(Step(d, e))) <==> ReplacesLast(d, e)
  {
    hide Ordered, Increasing, Contents, Pump;
    match e
    case Message(n, at) =>
      var i := Position(d.visible, n.id);
      if IsClose(n) {
        if i < |d.visible| { CloseInOrder(d, i); }
      } else if i < |d.visible| {
        ReplacementOrderIff(d, n, at);
      } else {
        NewSlotInOrder(d, n, at);
      }
      hide Enqueue;
    case Tick(now) =>
      TickInOrder(d, now, |d.visible|);
      TickIsTicked(d, now);
      hide Ticked;
    case LayerClosed(layer) =>
      if layer < |d.visible| { CloseInOrder(d, layer); }
  }

  // Over every run: what is shown and then queued is in arrival order in all
  // its states if and only if every replacement found its slot last.
  lemma MessagesInOrderIff(es: seq<Event>)
    ensures (forall n :: 0 <= n <= |es| ==> Increasing(Contents(Run(es[..n]))))
       <==> (forall i :: 0 <= i < |es| ==> ReplacesLast(Run(es[..i]), es[i]))
  {
    hide Increasing, Contents, ReplacesLast, Ordered, Step;
    forall i | 0 <= i < |es| ensures Increasing(Contents(Run(es[..i])))
      ==> (Increasing(Contents(Run(es[..i + 1]))) <==> ReplacesLast(Run(es[..i]), es[i]))
    {
      NextInOrder(es, i);
    }
    EmptyInOrder();
    assert es[..0] == [];
    hide Run;
    if forall i :: 0 <= i < |es| ==> ReplacesLast(Run(es[..i]), es[i]) {
      forall n | 0 <= n <= |es| ensures Increasing(Contents(Run(es[..n]))) {
        InOrderUpTo(es, n);
      }
    }
    if forall n :: 0 <= n <= |es| ==> Increasing(Contents(Run(es[..n]))) {
      forall i | 0 <= i < |es| ensures ReplacesLast(Run(es[..i]), es[i]) {
        assert Increasing(Contents(Run(es[..i]))) && Increasing(Contents(Run(es[..i + 1])));
      }
    }
  }

  lemma EmptyInOrder()
    ensures Increasing(Contents(Run([])))
  {
    assert Contents(Run([])) == [];
  }

  lemma NextInOrder(es: seq<Event>, i: nat)
    requires i < |es|
    ensures Increasing(Contents(Run(es[..i])))
      ==> (Increasing(Contents(Run(es[..i + 1]))) <==> ReplacesLast(Run(es[..i]), es[i]))
  {
    assert es[..i + 1][..i] == es[..i];
    assert Run(es[..i + 1]) == Step(Run(es[..i]), es[i]);
    ArrivalOrderKept(es[..i]);
    hide Run, Step, Ordered, ReplacesLast, Increasing, Contents;
    if Increasing(Contents(Run(es[..i]))) { ContentsOrderStep(Run(es[..i]), es[i]); }
  }

  lemma {:induction false} InOrderUpTo(es: seq<Event>, n: nat)
    requires n <= |es| && forall i :: 0 <= i < |es| ==> ReplacesLast(Run(es[..i]), es[i])
    ensures Increasing(Contents(Run(es[..n])))
  {
    hide Run, ReplacesLast, Increasing, Contents;
    if n > 0 {
      InOrderUpTo(es, n - 1);
      NextInOrder(es, n - 1);
    } else {
      assert es[..0] == [];
      EmptyInOrder();
    }
  }

  // ---------- pumping and expiry ----------

  // Right after a message that opens or queues a slot, nothing waits while
  // there is room; no other event ever moves the queue.
  lemma QueueMovesOnlyOnNewSlots(d: Daemon, e: Event)
    requires Ordered(d)
    ensures var opens := e.Message? && !IsClose(e.n) && Position(d.visible, e.n.id) == |d.visible|;
      && (opens ==> Step(d, e).queue != [] ==> |Step(d, e).visible| == MAX_VISIBLE)
      && (!opens ==> Step(d, e).queue == d.queue)
  {
    if e.Message? && !IsClose(e.n) && Position(d.visible, e.n.id) == |d.visible| {
      QueueOrdered(d, e.n);
      PumpOrdered(d.(arrivals := d.arrivals + [e.n], queue := d.queue + [Queued(e.n, |d.arrivals|)]), e.at);
      hide Ordered, Pump;
    }
  }

  // A tick keeps exactly the toasts whose time has not come.
  lemma {:induction false} TickKeepsIff(v: seq<Toast>, now: nat, t: Toast)
    ensures t in Kept(v, now) <==> t in v && now < t.expiresAt
  {
    if v != [] {
      TickKeepsIff(v[..|v| - 1], now, t);
      assert v == v[..|v| - 1] + [v[|v| - 1]];
    }
  }

  // A message shown at once stays until exactly its timeout, or one
  // millisecond if that is zero: a zero timeout is not sticky.
  lemma ShownForItsLifetime(d: Daemon, n: Notif, at: Clock, later: nat)
    requires |d.visible| < MAX_VISIBLE && d.queue == [] && Position(d.visible, n.id) == |d.visible| && !IsClose(n)
    ensures var d1 := Step(d, Message(n, at)); var i := |d.visible|; var shownAt := at(|d.arrivals|);
      && i < |d1.visible| && d1.visible[i].notif == n
      && (d1.visible[i] in Step(d1, Tick(later)).visible <==> later < shownAt + (if n.timeoutMs == 0 then 1 else n.timeoutMs))
  {
    var q := Queued(n, |d.arrivals|);
    var d1 := Step(d, Message(n, at));
    var t := Toast(n, |d.arrivals|, |d.arrivals|, at(|d.arrivals|) + Lifetime(n));
    assert d.queue + [q] == [q] && [q][1..] == [];
    assert Step(d, Message(n, at)) == Pump(d.(arrivals := d.arrivals + [n], queue := [q]), at);
    var d2 := d.(arrivals := d.arrivals + [n], queue := [], visible := d.visible + [t]);
    assert d1 == Pump(d2, at) == d2;
    assert d1.visible[|d.visible|] == t;
    TickKeepsIff(d1.visible, later, t);
  }

  // ---------- what each event does ----------

  // Toast i is the first visible one with this id.
  predicate FirstWith(v: seq<Toast>, i: nat, id: nat) {
    i < |v| && v[i].notif.id == id && forall j :: 0 <= j < i ==> v[j].notif.id != id
  }

  predicate NoneWith(v: seq<Toast>, id: nat) { forall j :: 0 <= j < |v| ==> v[j].notif.id != id }

  // The empty message that is due at once is no notification: it closes the
  // first visible toast with its id, with one signal, and only that.
  lemma CloseMessageCloses(d: Daemon, id: nat, timeoutMs: nat, at: Clock, i: nat)
    requires timeoutMs <= 1
    ensures var e := Message(Notif(id, "", "", timeoutMs), at); var v := d.visible;
      && (FirstWith(v, i, id) ==>
            Step(d, e) == d.(visible := v[..i] + v[i + 1..], signals := d.signals + [Signal(id, v[i].serial)]))
      && (NoneWith(v, id) ==> Step(d, e) == d)
  {
    if FirstWith(d.visible, i, id) { assert Position(d.visible, id) == i; }
    hide Position;
  }

  // A closed layer surface takes its own toast, with one signal.
  lemma LayerCloses(d: Daemon, i: nat)
    ensures Step(d, LayerClosed(i))
         == if i < |d.visible|
            then d.(visible := d.visible[..i] + d.visible[i + 1..],
                    signals := d.signals + [Signal(d.visible[i].notif.id, d.visible[i].serial)])
            else d
  {}

  // A message for a visible id takes over the first toast with it: shows the
  // new text, lives from now, and keeps its place; nothing is signalled.
  lemma MessageReplaces(d: Daemon, n: Notif, at: Clock, i: nat)
    requires (n.summary != "" || n.body != "" || n.timeoutMs > 1) && FirstWith(d.visible, i, n.id)
    ensures var r := Step(d, Message(n, at)); var s := |d.arrivals|;
      && |r.visible| == |d.visible| && r.visible[..i] == d.visible[..i] && r.visible[i + 1..] == d.visible[i + 1..]
      && r.visible[i].notif == n && r.visible[i].serial == s
      && r.visible[i].expiresAt == at(s) + (if n.timeoutMs == 0 then 1 else n.timeoutMs)
      && r.queue == d.queue && r.signals == d.signals
      && r.arrivals == d.arrivals + [n] && r.replaced == d.replaced + [d.visible[i].serial]
  {
    assert Position(d.visible, n.id) == i;
    hide Position;
  }

  // The toast a queued message opens.
  function Opened(q: Queued, at: Clock): Toast {
    Toast(q.notif, q.serial, q.serial, at(q.serial) + (if q.notif.timeoutMs == 0 then 1 else q.notif.timeoutMs))
  }

  function OpenedAll(qs: seq<Queued>, at: Clock): seq<Toast> { seq(|qs|, i requires 0 <= i < |qs| => Opened(qs[i], at)) }

  // Any other message joins the queue, and the front of the queue opens toasts
  // up to five.
  lemma MessageQueues(d: Daemon, n: Notif, at: Clock)
    requires (n.summary != "" || n.body != "" || n.timeoutMs > 1) && NoneWith(d.visible, n.id)
    ensures var r := Step(d, Message(n, at)); var q := d.queue + [Queued(n, |d.arrivals|)];
            var room := if |d.visible| < 5 then 5 - |d.visible| else 0; var k := if |q| < room then |q| else room;
      r == d.(arrivals := d.arrivals + [n], visible := d.visible + OpenedAll(q[..k], at), queue := q[k..])
  {
    assert Position(d.visible, n.id) == |d.visible|;
    PumpOpens(d.(arrivals := d.arrivals + [n], queue := d.queue + [Queued(n, |d.arrivals|)]), at);
    hide Position, Pump, OpenedAll;
  }

  lemma {:induction false} PumpOpens(d: Daemon, at: Clock)
    ensures var room := if |d.visible| < 5 then 5 - |d.visible| else 0; var k := if |d.queue| < room then |d.queue| else room;
      Pump(d, at) == d.(visible := d.visible + OpenedAll(d.queue[..k], at), queue := d.queue[k..])
    decreases |d.queue|
  {
    var room := if |d.visible| < 5 then 5 - |d.visible| else 0;
    var k := if |d.queue| < room then |d.queue| else room;
    if k == 0 {
      assert d.queue[..0] == [] && d.queue[0..] == d.queue && OpenedAll([], at) == [];
      assert d.visible + [] == d.visible;
    } else {
      var q, rest := d.queue[0], d.queue[1..];
      var d' := d.(queue := rest, visible := d.visible + [Opened(q, at)]);
      assert Pump(d, at) == Pump(d', at);
      hide Pump, OpenedAll, Opened;
      PumpOpens(d', at);
      OpensNext(d.visible, d.queue, k, at);
    }
  }

  lemma OpensNext(v: seq<Toast>, qs: seq<Queued>, k: nat, at: Clock)
    requires 0 < k <= |qs|
    ensures v + [Opened(qs[0], at)] + OpenedAll(qs[1..][..k - 1], at) == v + OpenedAll(qs[..k], at)
    ensures qs[1..][k - 1..] == qs[k..]
  {
    hide Opened;
    assert OpenedAll(qs[..k], at) == [Opened(qs[0], at)] + OpenedAll(qs[1..][..k - 1], at);
  }

  // ---------- the thread ----------

  class WaylandThreadState {
    var visible: seq<Toast>
    var queue: seq<Queued>
    ghost var arrivals: seq<Notif>
    ghost var replaced: seq<nat>
    ghost var signals: seq<Signal>
    var nextSerial: nat

    ghost function View(): Daemon
      reads this
    {
      Daemon(visible, queue, arrivals, replaced, signals)
    }

    ghost predicate Valid()
      reads this
    {
      nextSerial == |arrivals|
    }

    constructor ()
      ensures Valid() && View() == NEW
    {
      visible, queue, nextSerial := [], [], 0;
      arrivals, replaced, signals := [], [], [];
    }

    method FindVisible(id: nat) returns (i: nat)
      ensures i == Position(visible, id)
    {
      i := 0;
      while i < |visible|
        invariant i <= |visible| && Position(visible, id) == i + Position(visible[i..], id)
      {
        if visible[i].notif.id == id { return; }
        i := i + 1;
      }
    }

    method PumpVisible(at: Clock)
      requires Valid()
      modifies this
      ensures Valid() && View() == Pump(old(View()), at)
    {
      while |visible| < MAX_VISIBLE && queue != []
        invariant Valid() && Pump(View(), at) == Pump(old(View()), at)
        decreases |queue|
      {
        var n := queue[0];
        queue := queue[1..];
        visible := visible + [Toast(n.notif, n.serial, n.serial, at(n.serial) + Lifetime(n.notif))];
      }
    }

    method EnqueueNotif(n: Notif, at: Clock)
      requires Valid()
      modifies this
      ensures Valid() && View() == Enqueue(old(View()), n, at)
    {
      var i := FindVisible(n.id);
      arrivals := arrivals + [n];
      var s := nextSerial;
      nextSerial := nextSerial + 1;
      if i < |visible| {
        replaced := replaced + [visible[i].serial];
        visible := visible[i := Toast(n, visible[i].birth, s, at(s) + Lifetime(n))];
        return;
      }
      queue := queue + [Queued(n, s)];
      PumpVisible(at);
    }

    // Vec::remove and the broadcast of NotificationClosed.
    method RemoveVisible(i: nat)
      requires Valid() && i < |visible|
      modifies this
      ensures Valid() && View() == CloseAt(old(View()), i)
    {
      signals := signals + [Signal(visible[i].notif.id, visible[i].serial)];
      visible := visible[..i] + visible[i + 1..];
    }

    method TickTimeouts(now: nat)
      requires Valid()
      modifies this
      ensures Valid() && View() == Step(old(View()), Tick(now))
    {
      var kept: seq<Toast> := [];
      ghost var closed: seq<Signal> := [];
      for i := 0 to |visible|
        invariant kept == Kept(visible[..i], now) && closed == Expired(visible[..i], now)
      {
        assert visible[..i + 1][..i] == visible[..i];
        if now >= visible[i].expiresAt {
          closed := closed + [Signal(visible[i].notif.id, visible[i].serial)];
        } else {
          kept := kept + [visible[i]];
        }
      }
      assert visible[..|visible|] == visible;
      visible := kept;
      signals := signals + closed;
    }

    method OnLayerClosed(layer: nat)
      requires Valid()
      modifies this
      ensures Valid() && View() == Step(old(View()), LayerClosed(layer))
    {
      if layer < |visible| { RemoveVisible(layer); }
    }

    // The drain loop of the thread: every queued message, in order.
    method Drain(rx: seq<Notif>, at: Clock)
      requires Valid()
      modifies this
      ensures Valid() && View() == Drained(old(View()), rx, at)
    {
      for k := 0 to |rx|
        invariant Valid() && View() == Drained(old(View()), rx[..k], at)
      {
        assert rx[..k + 1][..k] == rx[..k];
        var n := rx[k];
        if IsClose(n) {
          var i := FindVisible(n.id);
          if i < |visible| { RemoveVisible(i); }
          continue;
        }
        EnqueueNotif(n, at);
      }
      assert rx[..|rx|] == rx;
    }
  }

  function Drained(d: Daemon, rx: seq<Notif>, at: Clock): Daemon {
    if rx == [] then d else Step(Drained(d, rx[..|rx| - 1], at), Message(rx[|rx| - 1], at))
  }
}
