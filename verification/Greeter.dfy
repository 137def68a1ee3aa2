/**
 The greeter's conversation with greetd: the login form's keys on one side, the
 `greetd-ipc(7)` session on the other.

 The daemon may give any reply to a request its session allows.  A request it
 does not allow is answered with an error and leaves the session as it was.
 */
module Greeter {
  import opened Wrappers

  // A password character with its position among all password characters ever
  // typed; the program reads only the character.
  datatype Stroke = Stroke(ch: char, serial: nat)

  datatype Field = Username | Password

  datatype Request =
    | CreateSession(username: string)
    | PostAuthMessageResponse(response: Option<seq<Stroke>>)
    | StartSession
    | CancelSession

  datatype ErrorType = AuthError | GeneralError
  datatype Response = Success | AuthMessage(text: string) | Error(kind: ErrorType, description: string)
  datatype FlowOutcome = Prompt(text: string) | Succeeded | Failure(reason: string)

  // The session the daemon keeps for this connection.  Failed is an attempt
  // that ended in an error and has not been cancelled yet.
  datatype Session = NoSession | Asking | Ready | Failed | Started

  // What became of a request: the reply was read; it was made but not read, or
  // did not decode; the request itself never left.
  datatype Delivery = Replied(r: Response) | Lost(r: Response, why: string) | Unsent(why: string)

  // Everything the outside decides about one Enter.
  datatype Luck = Luck(connectError: Option<string>, delivery: Delivery, cancelArrives: bool, startArrives: bool)

  datatype Event =
    | Tab | Backspace | Enter(luck: Luck) | Escape(cancelArrives: bool) | Typed(text: string) | Close

  // A delivered request, the session it met, and whether the two sides were
  // out of step when it was sent.
  datatype Sent = Sent(request: Request, session: Session, outOfStep: bool)

  datatype Form = Form(
    connected: bool, username: string, password: seq<Stroke>, prompt: Option<string>, error: Option<string>,
    focus: Field, pending: bool, awaiting: bool, shouldClose: bool)

  // `outOfStep` is worked out from deliveries alone, never from the session.
  datatype World = World(form: Form, session: Session, outOfStep: bool, typed: nat, trace: seq<Sent>)

  predicate IsNew(w: World) {
    w == World(Form(false, "", [], None, None, Username, false, false, false), NoSession, false, 0, [])
  }

  // ---------- greetd-ipc(7) ----------

  predicate Legal(s: Session, q: Request) {
    match q
    case CreateSession(_) => s == NoSession
    case PostAuthMessageResponse(_) => s == Asking
    case StartSession => s == Ready
    case CancelSession => true
  }

  function Answer(s: Session, q: Request, r: Response): Response {
    if Legal(s, q) then r else Error(GeneralError, "unexpected request")
  }

  function AfterAnswer(s: Session, q: Request, r: Response): Session {
    if !Legal(s, q) then s
    else
      match r
      case AuthMessage(_) => Asking
      case Success => Ready
      case Error(_, _) => Failed
  }

  // ---------- the form ----------

  // char::is_whitespace.
  predicate IsWhitespace(c: char) {
    || '\t' <= c <= '\r' || c == ' ' || c == '\U{0085}' || c == '\U{00A0}' || c == '\U{1680}'
    || '\U{2000}' <= c <= '\U{200A}' || c == '\U{2028}' || c == '\U{2029}' || c == '\U{202F}'
    || c == '\U{205F}' || c == '\U{3000}'
  }

  // username.trim().is_empty()
  predicate IsBlank(s: string) {
    forall c :: c in s ==> IsWhitespace(c)
  }

  function Classify(r: Response): FlowOutcome {
    match r
    case Success => Succeeded
    case AuthMessage(text) => Prompt(text)
    case Error(AuthError, d) => Failure("auth: " + d)
    case Error(GeneralError, d) => Failure("error: " + d)
  }

  function RequestOf(f: Form): Request {
    if !f.awaiting then CreateSession(f.username)
    else PostAuthMessageResponse(if f.password == [] then None else Some(f.password))
  }

  predicate Refused(f: Form) { IsBlank(f.username) && f.focus == Username }

  // The request goes out; taking an answer empties the password field.
  function SendRequest(w: World, d: Delivery): World {
    var q := RequestOf(w.form);
    var w' := w.(form := w.form.(connected := true, pending := true, password := if w.form.awaiting then [] else w.form.password));
    match d
    case Unsent(_) => w'
    case Replied(r) =>
      w'.(session := AfterAnswer(w.session, q, r), trace := w.trace + [Sent(q, w.session, w.outOfStep)])
    case Lost(r, _) =>
      w'.(session := AfterAnswer(w.session, q, r), trace := w.trace + [Sent(q, w.session, w.outOfStep)],
          outOfStep := w.outOfStep || !(w.form.awaiting && r.AuthMessage?))
  }

  function SendCancel(w: World, arrives: bool): World {
    if !arrives then w
    else w.(session := if w.session == Started then Started else NoSession,
            trace := w.trace + [Sent(CancelSession, w.session, w.outOfStep)])
  }

  function SendStart(w: World, arrives: bool): World {
    if !arrives then w
    else w.(session := if w.session == Ready then Started else w.session,
            trace := w.trace + [Sent(StartSession, w.session, w.outOfStep)])
  }

  function OnOutcome(w: World, o: FlowOutcome, luck: Luck): World {
    match o
    case Prompt(text) =>
      w.(form := w.form.(prompt := Some(text), awaiting := true, focus := Password, error := None, pending := false))
    case Succeeded =>
      var w' := SendStart(w, luck.startArrives);
      w'.(form := w'.form.(shouldClose := true))
    case Failure(reason) =>
      var w' := SendCancel(w.(form := w.form.(error := Some(reason), password := [], awaiting := false, focus := Password)),
                           luck.cancelArrives);
      w'.(form := w'.form.(pending := false), outOfStep := !luck.cancelArrives)
  }

  function OnTransportError(w: World, why: string): World {
    w.(form := w.form.(error := Some("greetd protocol error: " + why), pending := false))
  }

  function Submit(w: World, luck: Luck): World {
    if w.form.pending then w
    else if Refused(w.form) then w.(form := w.form.(error := Some("username required")))
    else if !w.form.connected && luck.connectError.Some? then
      w.(form := w.form.(error := Some("greetd unreachable: " + luck.connectError.value)))
    else
      var sent := SendRequest(w, luck.delivery);
      match luck.delivery
      case Replied(r) => OnOutcome(sent, Classify(Answer(w.session, RequestOf(w.form), r)), luck)
      case Lost(_, why) => OnTransportError(sent, why)
      case Unsent(why) => OnTransportError(sent, why)
  }

  function Strokes(text: string, from: nat): (s: seq<Stroke>)
    ensures |s| == |text|
    ensures forall i :: 0 <= i < |s| ==> s[i] == Stroke(text[i], from + i)
  {
    if text == "" then [] else [Stroke(text[0], from)] + Strokes(text[1..], from + 1)
  }

  function Pop<T>(s: seq<T>): seq<T> { if s == [] then [] else s[..|s| - 1] }

  function Clear(w: World, arrives: bool): World {
    var w' := w.(form := w.form.(username := "", password := [], awaiting := false, error := None));
    if !w.form.connected then w'
    else SendCancel(w', arrives).(outOfStep := !arrives && (w.form.awaiting || w.outOfStep))
  }

  function Type(w: World, text: string): World {
    if w.form.pending then w
    else
      match w.form.focus
      case Username => w.(form := w.form.(username := w.form.username + text))
      case Password =>
        w.(form := w.form.(password := w.form.password + Strokes(text, w.typed)), typed := w.typed + |text|)
  }

  // Enter in the username field moves on to the password field, unless greetd
  // is waiting for an answer.
  function PressEnter(w: World, luck: Luck): World {
    if w.form.focus == Username && !w.form.awaiting then w.(form := w.form.(focus := Password))
    else Submit(w, luck)
  }

  function Step(w: World, e: Event): World {
    match e
    case Tab => w.(form := w.form.(focus := if w.form.focus == Username then Password else Username))
    case Backspace =>
      (match w.form.focus
       case Username => w.(form := w.form.(username := Pop(w.form.username)))
       case Password => w.(form := w.form.(password := Pop(w.form.password))))
    case Enter(luck) => PressEnter(w, luck)
    case Escape(arrives) => Clear(w, arrives)
    case Typed(text) => Type(w, text)
    case Close => w.(form := w.form.(shouldClose := true))
  }

  function After(w: World, es: seq<Event>): World
    decreases |es|
  {
    if es == [] then w else After(Step(w, es[0]), es[1..])
  }

  // ---------- legality ----------

  // Both sides agree on who speaks next.
  predicate InStep(w: World) {
    && (w.form.awaiting <==> w.session == Asking)
    && (!w.form.awaiting ==> w.session == NoSession)
  }

  // While the form still takes input, `outOfStep` is exactly the truth.
  predicate Coupled(w: World) {
    && (!w.form.pending ==> (InStep(w) <==> !w.outOfStep))
    && (!w.form.pending && w.form.awaiting ==> w.session != NoSession)
    && (!w.form.pending ==> w.session != Started)
    && (!w.form.connected ==> w.session == NoSession && !w.form.awaiting && !w.outOfStep && !w.form.pending)
  }

  // A request meets a session that allows it exactly when the two sides were
  // in step.
  predicate AsMarked(x: Sent) {
    Legal(x.session, x.request) <==> (x.request.CreateSession? || x.request.PostAuthMessageResponse? ==> !x.outOfStep)
  }

  predicate NoStart(t: seq<Sent>) {
    forall i :: 0 <= i < |t| ==> !t[i].request.StartSession?
  }

  // After a StartSession only cancellations follow.
  predicate StartIsLast(t: seq<Sent>) {
    forall i, j :: 0 <= i < j < |t| && t[i].request.StartSession? ==> t[j].request.CancelSession?
  }

  predicate TraceGood(t: seq<Sent>, closing: bool) {
    && (forall i :: 0 <= i < |t| ==> AsMarked(t[i]))
    && StartIsLast(t)
    && (!closing ==> NoStart(t))
  }

  lemma Extend(t: seq<Sent>, x: Sent, closing: bool, closing': bool)
    requires TraceGood(t, closing) && AsMarked(x) && (closing ==> closing')
    requires closing ==> x.request.CancelSession?
    requires x.request.StartSession? ==> closing'
    ensures TraceGood(t + [x], closing')
  {
    hide AsMarked;
  }

  predicate Good(w: World) { Coupled(w) && TraceGood(w.trace, w.form.pending) }

  predicate Sends(w: World, luck: Luck) {
    !w.form.pending && !Refused(w.form) && (w.form.connected || luck.connectError.None?)
  }

  // The daemon's side of a request, and what it leaves to the form.
  lemma RequestMeetsSession(w: World)
    requires Coupled(w) && !w.form.pending
    ensures Legal(w.session, RequestOf(w.form)) <==> !w.outOfStep
    ensures AsMarked(Sent(RequestOf(w.form), w.session, w.outOfStep))
  {}

  lemma SubmitUnread(w: World, luck: Luck)
    requires Good(w) && Sends(w, luck) && !luck.delivery.Replied?
    ensures Good(Submit(w, luck))
  {
    RequestMeetsSession(w);
    var q := RequestOf(w.form);
    if luck.delivery.Lost? {
      Extend(w.trace, Sent(q, w.session, w.outOfStep), false, false);
    }
    hide TraceGood, AsMarked, Refused;
  }

  // A reply to a request the session did not allow is an error.
  lemma SubmitAnswered(w: World, luck: Luck)
    requires Good(w) && Sends(w, luck) && luck.delivery.Replied?
    ensures Good(Submit(w, luck))
  {
    RequestMeetsSession(w);
    var q := RequestOf(w.form);
    var r := Answer(w.session, q, luck.delivery.r);
    var x := Sent(q, w.session, w.outOfStep);
    var sent := SendRequest(w, luck.delivery);
    Extend(w.trace, x, false, false);
    Extend(w.trace, x, false, true);
    assert Submit(w, luck) == OnOutcome(sent, Classify(r), luck);
    match r
    case AuthMessage(_) => hide TraceGood, AsMarked, Refused, Submit;
    case Success =>
      assert sent.session == Ready;
      Extend(w.trace + [x], Sent(StartSession, sent.session, sent.outOfStep), false, true);
      hide TraceGood, AsMarked, Refused, Submit;
    case Error(_, _) =>
      Extend(w.trace + [x], Sent(CancelSession, sent.session, sent.outOfStep), false, false);
      hide TraceGood, AsMarked, Refused, Submit;
  }

  lemma ClearKeeps(w: World, arrives: bool)
    requires Good(w)
    ensures Good(Clear(w, arrives))
  {
    Extend(w.trace, Sent(CancelSession, w.session, w.outOfStep), w.form.pending, w.form.pending);
    hide TraceGood, AsMarked;
  }

  lemma StepKeeps(w: World, e: Event)
    requires Good(w)
    ensures Good(Step(w, e))
  {
    hide TraceGood, RequestOf, Strokes, Pop, IsBlank;
    match e
    case Escape(arrives) => ClearKeeps(w, arrives);
    case Enter(luck) =>
      if (w.form.focus == Password || w.form.awaiting) && Sends(w, luck) {
        if luck.delivery.Replied? { SubmitAnswered(w, luck); } else { SubmitUnread(w, luck); }
        hide Submit, Good;
      }
    case _ =>
  }

  lemma {:induction false} Always(w: World, es: seq<Event>)
    requires Good(w)
    ensures Good(After(w, es))
    decreases |es|
  {
    if es != [] {
      StepKeeps(w, es[0]);
      Always(Step(w, es[0]), es[1..]);
    }
  }

  // Over every run: CreateSession, PostAuthMessageResponse and StartSession
  // reach a session that allows them exactly when no lost reply has put the
  // two sides out of step; and StartSession is sent at most once, last.
  lemma RequestsLegalIff(start: World, es: seq<Event>, i: nat)
    requires IsNew(start) && i < |After(start, es).trace|
    ensures var x := After(start, es).trace[i];
      && (Legal(x.session, x.request) <==> (x.request.CreateSession? || x.request.PostAuthMessageResponse? ==> !x.outOfStep))
      && (x.request.StartSession? ==> x.session == Ready)
    ensures StartIsLast(After(start, es).trace)
  {
    Always(start, es);
    hide After, Coupled;
    assert AsMarked(After(start, es).trace[i]);
  }

  // ---------- working transport ----------

  // No reply is lost and no cancellation fails to arrive.
  predicate Working(e: Event) {
    match e
    case Enter(luck) => !luck.delivery.Lost? && luck.cancelArrives
    case Escape(arrives) => arrives
    case _ => true
  }

  predicate Unmarked(w: World) {
    !w.outOfStep && forall i :: 0 <= i < |w.trace| ==> !w.trace[i].outOfStep
  }

  lemma WorkingStep(w: World, e: Event)
    requires Unmarked(w) && Working(e)
    ensures Unmarked(Step(w, e))
  {
    hide RequestOf, Refused, Answer, AfterAnswer, Strokes, Pop, Classify;
  }

  lemma {:induction false} WorkingAlways(w: World, es: seq<Event>)
    requires Unmarked(w) && forall e :: e in es ==> Working(e)
    ensures Unmarked(After(w, es))
    decreases |es|
  {
    if es != [] {
      assert Working(es[0]);
      WorkingStep(w, es[0]);
      WorkingAlways(Step(w, es[0]), es[1..]);
    }
  }

  // With working transport every request the daemon sees is one its session
  // allows, for every sequence of keys and replies.
  lemma WorkingTransportIsLegal(start: World, es: seq<Event>, i: nat)
    requires IsNew(start) && (forall e :: e in es ==> Working(e))
    requires i < |After(start, es).trace|
    ensures var x := After(start, es).trace[i]; Legal(x.session, x.request)
  {
    WorkingAlways(start, es);
    RequestsLegalIff(start, es, i);
    hide After, Legal;
  }

  // ---------- lost replies ----------

  // Sending from step, the two sides stay in step exactly when the reply was
  // not lost, or was one more question.
  lemma InStepIff(w: World, luck: Luck)
    requires Good(w) && Sends(w, luck) && InStep(w) && luck.cancelArrives
    requires !Submit(w, luck).form.pending
    ensures InStep(Submit(w, luck)) <==> !luck.delivery.Lost? || (w.form.awaiting && luck.delivery.r.AuthMessage?)
  {
    hide TraceGood, Refused;
    RequestMeetsSession(w);
  }

  // The next request that is answered is refused, and the cancellation the
  // refusal triggers puts the two sides back in step.
  lemma RefusalRepairs(w: World, luck: Luck)
    requires Good(w) && Sends(w, luck) && !InStep(w) && luck.delivery.Replied? && luck.cancelArrives
    ensures InStep(Submit(w, luck)) && !Submit(w, luck).form.pending && Submit(w, luck).session == NoSession
  {
    hide TraceGood, Refused;
    RequestMeetsSession(w);
  }

  // One question that does not decode, and the next Enter asks for a second
  // session.
  lemma LostReplyBreaksLegality(start: World, name: string)
    requires IsNew(start)
    ensures var lost := Luck(None, Lost(AuthMessage("Password:"), "undecodable reply"), true, true);
            var w := After(start, [Typed(name), Enter(lost), Enter(lost), Enter(lost)]);
            |w.trace| == 2 && w.trace[1] == Sent(CreateSession(name), Asking, true)
  {
    var lost := Luck(None, Lost(AuthMessage("Password:"), "undecodable reply"), true, true);
    var w1 := Step(start, Typed(name));
    assert w1.form.username == name;
    var w2 := Step(w1, Enter(lost));
    var w3 := Step(w2, Enter(lost));
    var w4 := Step(w3, Enter(lost));
    var es := [Typed(name), Enter(lost), Enter(lost), Enter(lost)];
    AfterFour(start, es);
    hide After;
  }

  lemma AfterFour(w: World, es: seq<Event>)
    requires |es| == 4
    ensures After(w, es) == Step(Step(Step(Step(w, es[0]), es[1]), es[2]), es[3])
  {
    hide Step;
    var w2 := Step(Step(w, es[0]), es[1]);
    assert es[1..][1..] == es[2..] && es[2..][1..] == es[3..] && es[3..][1..] == [];
    assert After(w, es) == After(w2, es[2..]);
    assert After(w2, es[2..]) == After(Step(w2, es[2]), es[3..]);
    assert After(Step(w2, es[2]), es[3..]) == After(Step(Step(w2, es[2]), es[3]), es[3..][1..]);
  }

  // With no answer due, Enter opens a session exactly when the password field
  // has the focus, whatever the name: the "username required" check stops no
  // blank name.
  lemma NameCheckStopsNoSession(w: World, luck: Luck)
    requires !w.form.awaiting && !w.form.pending && !luck.delivery.Unsent?
    requires w.form.connected || luck.connectError.None?
    ensures var w' := Step(w, Enter(luck));
      if w.form.focus == Password
      then |w'.trace| > |w.trace| && w'.trace[|w.trace|].request == CreateSession(w.form.username)
      else w' == w.(form := w.form.(focus := Password))
  {
    hide IsBlank, AfterAnswer, Answer, Classify;
  }

  // What the form shows after an answered request: the daemon's question, or
  // its reason, with the password field focused and free; after a success it
  // closes and takes no further submission.
  lemma FormFollowsTheAnswer(w: World, luck: Luck)
    requires Sends(w, luck) && luck.delivery.Replied?
    ensures var r := Answer(w.session, RequestOf(w.form), luck.delivery.r); var f := Submit(w, luck).form;
      && (f.pending <==> r.Success?) && (f.shouldClose <==> r.Success? || w.form.shouldClose)
      && (!r.Success? ==> f.focus == Password && (f.awaiting <==> r.AuthMessage?))
      && (r.AuthMessage? ==> f.prompt == Some(r.text) && f.error == None)
      && (r.Error? ==> f.error.Some? && |r.description| < |f.error.value| && f.password == [])
  {
    hide RequestOf, Answer, AfterAnswer;
  }

  // ---------- typed passwords ----------

  // All password characters delivered so far, in order.
  function Answers(t: seq<Sent>): seq<Stroke> {
    if t == [] then []
    else
      var q := t[|t| - 1].request;
      Answers(t[..|t| - 1]) + if q.PostAuthMessageResponse? && q.response.Some? then q.response.value else []
  }

  predicate Increasing(s: seq<Stroke>, bound: nat) {
    && (forall i, j :: 0 <= i < j < |s| ==> s[i].serial < s[j].serial)
    && (forall i :: 0 <= i < |s| ==> s[i].serial < bound)
  }

  lemma AnswersAppend(t: seq<Sent>, x: Sent)
    ensures Answers(t + [x])
         == Answers(t) + if x.request.PostAuthMessageResponse? && x.request.response.Some? then x.request.response.value else []
  {
    assert (t + [x])[..|t|] == t;
  }

  // Delivered characters, then the ones in the field: each typed after the one
  // before it.
  predicate Fresh(w: World) { Increasing(Answers(w.trace) + w.form.password, w.typed) }

  // Characters beyond the first k delivered, and the field, were typed at or
  // after n.
  predicate Since(w: World, k: nat, n: nat) {
    && n <= w.typed
    && k <= |Answers(w.trace)|
    && forall i :: k <= i < |Answers(w.trace) + w.form.password| ==> (Answers(w.trace) + w.form.password)[i].serial >= n
  }

  // What one event does to the delivered characters and the field.
  predicate Moves(w: World, w': World) {
    var before, after := Answers(w.trace) + w.form.password, Answers(w'.trace) + w'.form.password;
    && Answers(w.trace) <= Answers(w'.trace)
    && w.typed <= w'.typed
    && (after <= before || (before <= after && |after| - |before| == w'.typed - w.typed
      && forall i :: |before| <= i < |after| ==> after[i].serial == w.typed + i - |before|))
  }

  lemma SendMoves(w: World, d: Delivery)
    ensures var w' := SendRequest(w, d);
      Moves(w, w') && w'.typed == w.typed && (w'.form.password == [] || w'.form.password == w.form.password)
  {
    AnswersAppend(w.trace, Sent(RequestOf(w.form), w.session, w.outOfStep));
    hide AfterAnswer, Answers;
  }

  lemma ControlMoves(w: World, arrives: bool)
    ensures Answers(SendCancel(w, arrives).trace) == Answers(w.trace)
    ensures Answers(SendStart(w, arrives).trace) == Answers(w.trace)
  {
    AnswersAppend(w.trace, Sent(CancelSession, w.session, w.outOfStep));
    AnswersAppend(w.trace, Sent(StartSession, w.session, w.outOfStep));
    hide Answers;
  }

  lemma OutcomeMoves(w: World, o: FlowOutcome, luck: Luck)
    ensures var w' := OnOutcome(w, o, luck);
      && Answers(w'.trace) == Answers(w.trace) && w'.typed == w.typed
      && (w'.form.password == [] || w'.form.password == w.form.password)
  {
    ControlMoves(w, luck.startArrives);
    if o.Failure? {
      ControlMoves(w.(form := w.form.(error := Some(o.reason), password := [], awaiting := false, focus := Password)),
                   luck.cancelArrives);
    }
    hide Answers, SendCancel;
  }

  lemma ThenMoves(w: World, s: World, t: World)
    requires Moves(w, s) && s.typed == w.typed
    requires Answers(t.trace) == Answers(s.trace) && t.typed == s.typed
    requires t.form.password == [] || t.form.password == s.form.password
    ensures Moves(w, t)
  {
    hide Answers;
  }

  lemma SubmitMoves(w: World, luck: Luck)
    ensures Moves(w, Submit(w, luck))
  {
    if Sends(w, luck) {
      var sent := SendRequest(w, luck.delivery);
      SendMoves(w, luck.delivery);
      if luck.delivery.Replied? {
        var o := Classify(Answer(w.session, RequestOf(w.form), luck.delivery.r));
        OutcomeMoves(sent, o, luck);
        ThenMoves(w, sent, OnOutcome(sent, o, luck));
      } else {
        ThenMoves(w, sent, Submit(w, luck));
      }
      hide Answers, SendRequest, OnOutcome, Classify, Answer, RequestOf, Refused, Moves;
    } else {
      hide Answers, Refused;
    }
  }

  lemma StepMoves(w: World, e: Event)
    ensures Moves(w, Step(w, e))
  {
    match e
    case Enter(luck) =>
      SubmitMoves(w, luck);
      hide Submit, Answers;
    case Escape(arrives) =>
      ControlMoves(w.(form := w.form.(username := "", password := [], awaiting := false, error := None)), arrives);
      hide Answers;
    case _ => hide Answers;
  }

  lemma MovesKeep(w: World, w': World, k: nat, n: nat)
    requires Moves(w, w')
    ensures Fresh(w) ==> Fresh(w')
    ensures Since(w, k, n) ==> Since(w', k, n)
  {
    hide Answers;
  }

  lemma {:induction false} RunKeeps(w: World, es: seq<Event>, k: nat, n: nat)
    ensures Fresh(w) ==> Fresh(After(w, es))
    ensures Since(w, k, n) ==> Since(After(w, es), k, n)
    decreases |es|
  {
    if es != [] {
      StepMoves(w, es[0]);
      MovesKeep(w, Step(w, es[0]), k, n);
      RunKeeps(Step(w, es[0]), es[1..], k, n);
    }
    hide Moves, Fresh, Since, Step;
  }

  // No typed password character is sent twice, and they go out in the order
  // typed, whatever the replies, losses and cancellations.
  lemma NoCharacterSentTwice(start: World, es: seq<Event>, i: nat, j: nat)
    requires IsNew(start)
    requires i < j < |Answers(After(start, es).trace)|
    ensures var sent := Answers(After(start, es).trace); sent[i].serial < sent[j].serial
  {
    RunKeeps(start, es, 0, 0);
    var w := After(start, es);
    var all := Answers(w.trace) + w.form.password;
    hide After, Answers;
    assert all[i].serial < all[j].serial;
  }

  // Once the field is empty - after Escape, a failure or an answer - nothing
  // typed before is ever sent, in any continuation.
  lemma ClearedPasswordIsGone(w: World, es: seq<Event>, i: nat)
    requires w.form.password == []
    requires |Answers(w.trace)| <= i < |Answers(After(w, es).trace)|
    ensures Answers(After(w, es).trace)[i].serial >= w.typed
  {
    RunKeeps(w, es, |Answers(w.trace)|, w.typed);
    var d := After(w, es);
    hide After, Answers;
    assert (Answers(d.trace) + d.form.password)[i].serial >= w.typed;
  }

  // ---------- what is sent ----------

  function Chars(s: seq<Stroke>): string { seq(|s|, i requires 0 <= i < |s| => s[i].ch) }

  // Enter reaches greetd from the password field, or from a name that is not
  // blank when an answer is due; and only if there is, or can be, a connection.
  predicate Reaches(f: Form, luck: Luck) {
    && !f.pending && (f.connected || luck.connectError.None?)
    && (f.focus == Password || (f.awaiting && exists c :: c in f.username && !IsWhitespace(c)))
  }

  // With an answer due, Enter posts exactly the password field, or None if it
  // is empty, and empties it; with none due it opens a session for exactly the
  // name.  After that only the reaction to the reply is sent.
  lemma EnterSendsTheField(w: World, luck: Luck)
    requires Reaches(w.form, luck) && !luck.delivery.Unsent?
    ensures var w' := Step(w, Enter(luck)); var f := w.form; var n := |w.trace|;
            var q := if f.awaiting then PostAuthMessageResponse(if f.password == [] then None else Some(f.password)) else CreateSession(f.username);
      && |w'.trace| > n && w'.trace[..n] == w.trace && w'.trace[n].request == q && w'.trace[n].session == w.session
      && (f.awaiting ==> w'.form.password == [])
      && match luck.delivery
         case Lost(_, _) => |w'.trace| == n + 1
         case Replied(r) =>
           (match Answer(w.session, q, r)
            case AuthMessage(_) => |w'.trace| == n + 1
            case Success => if luck.startArrives then |w'.trace| == n + 2 && w'.trace[n + 1].request == StartSession else |w'.trace| == n + 1
            case Error(_, _) => if luck.cancelArrives then |w'.trace| == n + 2 && w'.trace[n + 1].request == CancelSession else |w'.trace| == n + 1)
  {
    EnterSubmits(w, luck);
    SendShape(w, luck.delivery);
    hide Step, SendRequest, RequestOf, AfterAnswer, Reaches;
    if luck.delivery.Replied? {
      OutcomeShape(SendRequest(w, luck.delivery), Answer(w.session, RequestOf(w.form), luck.delivery.r), luck);
      hide OnOutcome, Answer, Classify;
    }
  }

  lemma EnterSubmits(w: World, luck: Luck)
    requires Reaches(w.form, luck)
    ensures var sent := SendRequest(w, luck.delivery);
      Step(w, Enter(luck)) == match luck.delivery
                              case Replied(r) => OnOutcome(sent, Classify(Answer(w.session, RequestOf(w.form), r)), luck)
                              case Lost(_, why) => OnTransportError(sent, why)
                              case Unsent(why) => OnTransportError(sent, why)
  {
    hide SendRequest, OnOutcome, OnTransportError, Classify, Answer, RequestOf, IsWhitespace;
  }

  lemma SendShape(w: World, d: Delivery)
    ensures var f := w.form; var w' := SendRequest(w, d);
            var q := if f.awaiting then PostAuthMessageResponse(if f.password == [] then None else Some(f.password)) else CreateSession(f.username);
      && RequestOf(f) == q
      && w'.trace == (if d.Unsent? then w.trace else w.trace + [Sent(q, w.session, w.outOfStep)])
      && w'.form.password == (if f.awaiting then [] else f.password) && w'.form.username == f.username && w'.form.awaiting == f.awaiting
      && (d.Unsent? ==> w'.session == w.session)
  {
    hide AfterAnswer;
  }

  // What a reply still sends, and leaves of the fields.
  lemma OutcomeShape(w: World, r: Response, luck: Luck)
    ensures var w' := OnOutcome(w, Classify(r), luck); var n := |w.trace|;
      && w'.form.username == w.form.username && w'.form.password == (if r.Error? then [] else w.form.password)
      && |w'.trace| >= n && w'.trace[..n] == w.trace
      && match r
         case AuthMessage(_) => |w'.trace| == n
         case Success => if luck.startArrives then |w'.trace| == n + 1 && w'.trace[n].request == StartSession else |w'.trace| == n
         case Error(_, _) => if luck.cancelArrives then |w'.trace| == n + 1 && w'.trace[n].request == CancelSession else |w'.trace| == n
  {}

  // An Enter that does not get through sends nothing.  A connection that fails
  // costs nothing but a message; a request that cannot be written costs the
  // password an answer held.
  lemma NothingSent(w: World, luck: Luck)
    requires !Reaches(w.form, luck) || luck.delivery.Unsent?
    ensures var w' := Step(w, Enter(luck));
      && w'.trace == w.trace && w'.session == w.session
      && (!Reaches(w.form, luck) ==> w'.form == w.form.(error := w'.form.error, focus := w'.form.focus))
      && (Reaches(w.form, luck) ==>
            && w'.form.awaiting == w.form.awaiting && !w'.form.pending && w'.form.error.Some?
            && w'.form.password == if w.form.awaiting then [] else w.form.password)
  {
    hide RequestOf, IsWhitespace;
  }

  // Escape forgets both fields and the question, and cancels on a connection.
  lemma EscapeForgets(w: World, arrives: bool)
    ensures var w' := Step(w, Escape(arrives));
      && w'.form == w.form.(username := "", password := [], awaiting := false, error := None)
      && w'.typed == w.typed
      && (if w.form.connected && arrives
          then |w'.trace| == |w.trace| + 1 && w'.trace[..|w.trace|] == w.trace && w'.trace[|w.trace|].request == CancelSession
          else w'.trace == w.trace)
  {}

  // Tab changes the field and nothing else.
  lemma TabToggles(w: World)
    ensures var w' := Step(w, Tab); w'.form.focus != w.form.focus && w' == w.(form := w.form.(focus := w'.form.focus))
  {}

  // What is in the two fields, told from the keys alone: texts typed into a
  // field while the form is free, less a character for each Backspace there,
  // since the field was last emptied - by Escape, and the password also by an
  // answer going out or an error coming back.
  datatype Fields = Fields(name: string, password: string)

  function DropLast(s: string): string { if s == "" then "" else s[..|s| - 1] }

  function KeyStep(w: World, k: Fields, e: Event): Fields {
    match e
    case Typed(text) =>
      if w.form.pending then k
      else if w.form.focus == Username then k.(name := k.name + text) else k.(password := k.password + text)
    case Backspace =>
      if w.form.focus == Username then k.(name := DropLast(k.name)) else k.(password := DropLast(k.password))
    case Escape(_) => Fields("", "")
    case Enter(luck) =>
      if Reaches(w.form, luck) && (w.form.awaiting || (luck.delivery.Replied? && (w.session != NoSession || luck.delivery.r.Error?)))
      then k.(password := "")
      else k
    case _ => k
  }

  function Keys(w: World, k: Fields, es: seq<Event>): Fields
    decreases |es|
  {
    if es == [] then k else Keys(Step(w, es[0]), KeyStep(w, k, es[0]), es[1..])
  }

  function FieldsOf(w: World): Fields { Fields(w.form.username, Chars(w.form.password)) }

  lemma StrokesSpell(text: string, from: nat, s: seq<Stroke>)
    ensures Chars(s + Strokes(text, from)) == Chars(s) + text
  {
    hide Strokes;
  }

  lemma EnterFields(w: World, luck: Luck)
    ensures FieldsOf(Step(w, Enter(luck))) == KeyStep(w, FieldsOf(w), Enter(luck))
  {
    if Reaches(w.form, luck) {
      if luck.delivery.Unsent? { NothingSent(w, luck); } else { EnterFieldsSent(w, luck); }
    } else {
      NothingSent(w, luck);
    }
    hide Step, Reaches;
    assert Chars([]) == "";
    EnterKeepsName(w, luck);
  }

  lemma EnterKeepsName(w: World, luck: Luck)
    ensures Step(w, Enter(luck)).form.username == w.form.username
  {
    if Reaches(w.form, luck) {
      EnterSubmits(w, luck);
      SendShape(w, luck.delivery);
      hide Step, SendRequest, RequestOf, Reaches;
      if luck.delivery.Replied? {
        OutcomeShape(SendRequest(w, luck.delivery), Answer(w.session, RequestOf(w.form), luck.delivery.r), luck);
        hide OnOutcome, Answer, Classify;
      }
    } else {
      NothingSent(w, luck);
      hide Step, Reaches;
    }
  }

  lemma EnterFieldsSent(w: World, luck: Luck)
    requires Reaches(w.form, luck) && !luck.delivery.Unsent?
    ensures Step(w, Enter(luck)).form.password
         == if w.form.awaiting || (luck.delivery.Replied? && (w.session != NoSession || luck.delivery.r.Error?)) then [] else w.form.password
  {
    EnterSubmits(w, luck);
    SendShape(w, luck.delivery);
    hide Step, SendRequest, RequestOf, Reaches;
    if luck.delivery.Replied? {
      OutcomeShape(SendRequest(w, luck.delivery), Answer(w.session, RequestOf(w.form), luck.delivery.r), luck);
      hide OnOutcome, Classify;
    }
  }

  lemma KeyStepIs(w: World, e: Event)
    ensures FieldsOf(Step(w, e)) == KeyStep(w, FieldsOf(w), e)
  {
    match e
    case Enter(luck) => EnterFields(w, luck);
    case Typed(text) => StrokesSpell(text, w.typed, w.form.password); hide Strokes;
    case Backspace => assert Chars(Pop(w.form.password)) == DropLast(Chars(w.form.password));
    case _ => hide Submit;
  }

  lemma {:induction false} FieldsAreTyped(w: World, es: seq<Event>)
    ensures FieldsOf(After(w, es)) == Keys(w, FieldsOf(w), es)
    decreases |es|
  {
    hide Step, FieldsOf, KeyStep;
    if es != [] {
      KeyStepIs(w, es[0]);
      FieldsAreTyped(Step(w, es[0]), es[1..]);
    }
  }

  // Over every run: a question answered gets exactly the password typed, and a
  // session is opened for exactly the name typed.
  lemma TypedIsSent(start: World, es: seq<Event>, luck: Luck)
    requires IsNew(start) && Reaches(After(start, es).form, luck) && !luck.delivery.Unsent?
    ensures var w := After(start, es); var t := Step(w, Enter(luck)).trace; var k := Keys(start, Fields("", ""), es);
      && |t| > |w.trace|
      && if w.form.awaiting
         then t[|w.trace|].request.PostAuthMessageResponse?
           && match t[|w.trace|].request.response
              case None => k.password == ""
              case Some(sent) => k.password != "" && Chars(sent) == k.password
         else t[|w.trace|].request == CreateSession(k.name)
  {
    FieldsAreTyped(start, es);
    assert FieldsOf(start) == Fields("", "");
    EnterSendsTheField(After(start, es), luck);
    hide After, Step, Keys, Reaches, IsNew;
  }

  // ---------- the objects ----------

  // The connection, with the daemon's session at its other end.
  class Greetd {
    var session: Session
    ghost var trace: seq<Sent>

    constructor ()
      ensures session == NoSession && trace == []
    {
      session, trace := NoSession, [];
    }

    // create_session and post_auth_response: write the request, read a reply.
    method Call(q: Request, d: Delivery, ghost outOfStep: bool) returns (reply: Option<Response>)
      modifies this
      ensures d.Unsent? ==> session == old(session) && trace == old(trace)
      ensures !d.Unsent? ==> session == AfterAnswer(old(session), q, d.r) && trace == old(trace) + [Sent(q, old(session), outOfStep)]
      ensures reply == if d.Replied? then Some(Answer(old(session), q, d.r)) else None
    {
      reply := None;
      if !d.Unsent? {
        trace := trace + [Sent(q, session, outOfStep)];
        if d.Replied? { reply := Some(Answer(session, q, d.r)); }
        session := AfterAnswer(session, q, d.r);
      }
    }

    method Start(arrives: bool, ghost outOfStep: bool)
      modifies this
      ensures !arrives ==> session == old(session) && trace == old(trace)
      ensures arrives ==> session == (if old(session) == Ready then Started else old(session))
      ensures arrives ==> trace == old(trace) + [Sent(StartSession, old(session), outOfStep)]
    {
      if arrives {
        trace := trace + [Sent(StartSession, session, outOfStep)];
        if session == Ready { session := Started; }
      }
    }

    method Cancel(arrives: bool, ghost outOfStep: bool)
      modifies this
      ensures !arrives ==> session == old(session) && trace == old(trace)
      ensures arrives ==> session == (if old(session) == Started then Started else NoSession)
      ensures arrives ==> trace == old(trace) + [Sent(CancelSession, old(session), outOfStep)]
    {
      if arrives {
        trace := trace + [Sent(CancelSession, session, outOfStep)];
        if session != Started { session := NoSession; }
      }
    }
  }

  class GreetState {
    const greetd: Greetd
    var connected: bool
    var username: string
    var password: seq<Stroke>
    var prompt: Option<string>
    var error: Option<string>
    var focus: Field
    var pending: bool
    var awaiting: bool
    var shouldClose: bool
    var typed: nat
    ghost var outOfStep: bool

    ghost function View(): World
      reads this, greetd
    {
      World(Form(connected, username, password, prompt, error, focus, pending, awaiting, shouldClose),
            greetd.session, outOfStep, typed, greetd.trace)
    }

    constructor ()
      ensures IsNew(View()) && fresh(greetd)
    {
      greetd := new Greetd();
      connected, username, password, prompt, error := false, "", [], None, None;
      focus, pending, awaiting, shouldClose, typed, outOfStep := Username, false, false, false, 0, false;
    }

    method SendForm(d: Delivery) returns (reply: Option<Response>)
      modifies this, greetd
      ensures View() == SendRequest(old(View()), d)
      ensures reply == if d.Replied? then Some(Answer(old(greetd.session), RequestOf(old(View()).form), d.r)) else None
    {
      connected := true;
      pending := true;
      ghost var was := outOfStep;
      if d.Lost? { outOfStep := outOfStep || !(awaiting && d.r.AuthMessage?); }
      if !awaiting {
        reply := greetd.Call(CreateSession(username), d, was);
      } else {
        var pw := password;
        password := [];
        reply := greetd.Call(PostAuthMessageResponse(if pw == [] then None else Some(pw)), d, was);
      }
      hide AfterAnswer, Answer;
    }

    method HandleOutcome(o: FlowOutcome, luck: Luck)
      modifies this, greetd
      ensures View() == OnOutcome(old(View()), o, luck)
    {
      match o
      case Prompt(text) =>
        prompt := Some(text);
        awaiting := true;
        focus := Password;
        error := None;
        pending := false;
      case Succeeded =>
        greetd.Start(luck.startArrives, outOfStep);
        shouldClose := true;
      case Failure(reason) =>
        error := Some(reason);
        password := [];
        awaiting := false;
        focus := Password;
        greetd.Cancel(luck.cancelArrives, outOfStep);
        outOfStep := !luck.cancelArrives;
        pending := false;
    }

    method SubmitForm(luck: Luck)
      modifies this, greetd
      ensures View() == Submit(old(View()), luck)
    {
      hide SendRequest, OnOutcome, Classify, Answer, RequestOf, IsBlank;
      if pending { return; }
      if IsBlank(username) && focus == Username {
        error := Some("username required");
        return;
      }
      if !connected && luck.connectError.Some? {
        error := Some("greetd unreachable: " + luck.connectError.value);
        return;
      }
      var reply := SendForm(luck.delivery);
      match reply
      case Some(r) => HandleOutcome(Classify(r), luck);
      case None =>
        error := Some("greetd protocol error: " + luck.delivery.why);
        pending := false;
    }

    method HandleTab()
      modifies this
      ensures View() == Step(old(View()), Tab)
    {
      focus := if focus == Username then Password else Username;
    }

    method HandleBackspace()
      modifies this
      ensures View() == Step(old(View()), Backspace)
    {
      match focus
      case Username => username := Pop(username);
      case Password => password := Pop(password);
    }

    method HandleEnter(luck: Luck)
      modifies this, greetd
      ensures View() == Step(old(View()), Enter(luck))
    {
      hide Submit;
      if focus == Username && !awaiting {
        focus := Password;
      } else {
        SubmitForm(luck);
      }
    }

    method HandleEscape(arrives: bool)
      modifies this, greetd
      ensures View() == Step(old(View()), Escape(arrives))
    {
      ghost var was, asked := outOfStep, awaiting;
      username := "";
      password := [];
      awaiting := false;
      error := None;
      if connected {
        greetd.Cancel(arrives, was);
        outOfStep := !arrives && (asked || was);
      }
    }

    method HandleText(text: string)
      modifies this
      ensures View() == Step(old(View()), Typed(text))
    {
      if pending { return; }
      match focus
      case Username => username := username + text;
      case Password =>
        password := password + Strokes(text, typed);
        typed := typed + |text|;
    }
  }
}
