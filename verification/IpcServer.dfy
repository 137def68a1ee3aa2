/**
 The control-IPC server as a concurrent protocol: one task per connection, one
 FIFO channel to the single-threaded main loop, a one-shot reply per command.

 A system state also records its own history (lines, envelopes, commands,
 executions, and the time of each), so that what holds of every reachable state
 is a statement about whole runs.
 */
module IpcServer {
  import opened Wrappers
  import opened IpcMessages
  import D = Desktop

  datatype Task = Reading | Awaiting(cmd: nat) | Ended

  // The end of a connection that `Client` drives, one request at a time.
  // `nums[k]` numbers the request whose bytes completed line k; a request
  // future dropped midway can leave part of a line in either direction.
  datatype ClientEnd = ClientEnd(
    issued: nat, nums: seq<nat>, partial: bool,
    delivered: nat, headless: bool, waiting: bool, dropped: nat)

  // What the client does: send a request; take the next answer line; drop the
  // request future between the two, inside the write (after some bytes, or
  // none), or inside the read.
  datatype Move = SendRequest(req: Request) | Receive | Drop | CutWrite(some: bool) | CutRead

  // One connection.  `sent[k]` is the command line k became, if it became one.
  datatype Conn = Conn(
    arrived: seq<Line>, arrivedAt: seq<nat>,
    sent: seq<Option<nat>>, task: Task,
    written: seq<Envelope>, writtenAt: seq<nat>,
    client: Option<ClientEnd>)

  datatype Cmd = Cmd(conn: nat, line: nat, req: Request, sentAt: nat)

  // The k-th record is the execution of command k: where it stands in the
  // main loop's log, what it answered, and when.
  datatype Execution = Execution(pos: nat, resp: Response, at: nat)

  datatype Sys = Sys(
    desk: D.Desk, log: seq<D.Event>,
    conns: seq<Conn>, cmds: seq<Cmd>, execs: seq<Execution>,
    channel: seq<nat>, open: bool, replies: map<nat, Option<Response>>,
    clock: nat)

  datatype Step =
    | Accept(managed: bool)
    | RawLine(c: nat, line: Line)
    | ClientMoves(c: nat, move: Move)
    | TaskRead(c: nat)
    | TaskReply(c: nat)
    | Hangup(c: nat)
    | MainRecv(loadedWrap: bool)
    | MainLocal(e: D.Event)
    | MainStop

  const NEW_END := ClientEnd(0, [], false, 0, false, false, 0)

  function Start(d0: D.Desk): Sys { Sys(d0, [], [], [], [], [], true, map[], 0) }

  // ---------- one line ----------

  // What the server makes of a line before the main loop is involved.
  function Decode(line: Line): Option<Request> {
    match line
    case Garbage => None
    case Json(env) => if env.v == PROTOCOL_VERSION && env.direction.Req? then Some(env.direction.req) else None
  }

  // The answer to a line that is not a request of this protocol version.
  function DirectError(line: Line): Response {
    match line
    case Garbage => Err(Undecodable)
    case Json(env) =>
      if env.v != PROTOCOL_VERSION then Err(VersionMismatch([PROTOCOL_VERSION])) else Err(ResponseOnRequestSocket)
  }

  function Answer(line: Line, r: Response): Envelope {
    Envelope(PROTOCOL_VERSION, EchoId(line), Resp(r))
  }

  // Ids count from 1 and wrap as a u64.
  function WireId(k: nat): nat { (k + 1) % ID_SIZE }

  // ---------- the client's end ----------

  predicate MayMove(n: Conn, move: Move) {
    n.client.Some? &&
    var e := n.client.value;
    match move
    case SendRequest(_) => !e.waiting
    case CutWrite(_) => !e.waiting
    case Drop => e.waiting
    case Receive => e.waiting && e.delivered < |n.written|
    case CutRead => e.waiting && e.delivered < |n.written|
  }

  // Bytes left by a cut write join the next line, which then is no envelope.
  // A cut read leaves the tail of a line for the next read.
  function Moved(n: Conn, move: Move, at: nat): Conn
    requires MayMove(n, move)
  {
    var e := n.client.value;
    match move
    case SendRequest(req) =>
      var line := if e.partial then Garbage else Json(Envelope(PROTOCOL_VERSION, WireId(e.issued), Req(req)));
      PutLine(n, line, at).(client := Some(e.(issued := e.issued + 1, nums := e.nums + [e.issued], partial := false, waiting := true)))
    case CutWrite(some) => n.(client := Some(e.(issued := e.issued + 1, partial := e.partial || some)))
    case Receive => n.(client := Some(e.(delivered := e.delivered + 1, headless := false, waiting := false)))
    case CutRead => n.(client := Some(e.(headless := true, waiting := false, dropped := e.dropped + 1)))
    case Drop => n.(client := Some(e.(waiting := false, dropped := e.dropped + 1)))
  }

  // ---------- the steps ----------

  predicate Enabled(s: Sys, st: Step) {
    match st
    case Accept(_) => true
    case RawLine(c, _) => c < |s.conns| && s.conns[c].client.None?
    case ClientMoves(c, move) => c < |s.conns| && MayMove(s.conns[c], move)
    case TaskRead(c) => c < |s.conns| && s.conns[c].task.Reading? && |s.conns[c].sent| < |s.conns[c].arrived|
    case TaskReply(c) =>
      c < |s.conns| && s.conns[c].task.Awaiting? && s.conns[c].task.cmd in s.replies
      && 0 < |s.conns[c].sent| <= |s.conns[c].arrived|
    case Hangup(c) => c < |s.conns|
    case MainRecv(_) => s.open && s.channel != [] && s.channel[0] < |s.cmds| && D.Shape(s.desk)
    case MainLocal(e) => s.open && !e.Ipc? && D.Shape(s.desk)
    case MainStop => s.open
  }

  function PutLine(n: Conn, line: Line, at: nat): Conn {
    n.(arrived := n.arrived + [line], arrivedAt := n.arrivedAt + [at])
  }

  function PutAnswer(n: Conn, env: Envelope, at: nat): Conn {
    n.(task := Reading, written := n.written + [env], writtenAt := n.writtenAt + [at])
  }

  // client_loop: take a line; either answer it, or dispatch it and await.
  function Read(s: Sys, c: nat): Sys
    requires Enabled(s, TaskRead(c))
  {
    var n := s.conns[c];
    var line := n.arrived[|n.sent|];
    var req := Decode(line);
    if req.None? || !s.open then
      var r := if req.None? then DirectError(line) else Err(NotListening);
      s.(conns := s.conns[c := PutAnswer(n.(sent := n.sent + [None]), Answer(line, r), s.clock)])
    else
      var i := |s.cmds|;
      s.(conns := s.conns[c := n.(sent := n.sent + [Some(i)], task := Awaiting(i))],
         cmds := s.cmds + [Cmd(c, |n.sent|, req.value, s.clock)],
         channel := s.channel + [i])
  }

  // The reply slot has been filled, or its sender dropped.
  function Reply(s: Sys, c: nat): Sys
    requires Enabled(s, TaskReply(c))
  {
    var n := s.conns[c];
    var line := n.arrived[|n.sent| - 1];
    var reply := s.replies[n.task.cmd];
    var r := if reply.Some? then reply.value else Err(ReplyDropped);
    s.(conns := s.conns[c := PutAnswer(n, Answer(line, r), s.clock)])
  }

  // The channel source on the main loop.
  function Recv(s: Sys, loadedWrap: bool): Sys
    requires Enabled(s, MainRecv(loadedWrap))
  {
    var i := s.channel[0];
    var (desk, resp) := D.HandleRequest(s.desk, s.cmds[i].req, loadedWrap);
    s.(desk := desk, log := s.log + [D.Ipc(s.cmds[i].req, loadedWrap)],
       execs := s.execs + [Execution(|s.log|, resp, s.clock)],
       channel := s.channel[1..], replies := s.replies[i := Some(resp)])
  }

  // The loop ends: queued commands are dropped with their reply senders.
  function StopLoop(s: Sys): Sys {
    s.(open := false, channel := [], replies := s.replies + map i | i in s.channel :: None)
  }

  function Tick(s: Sys): Sys { s.(clock := s.clock + 1) }

  function Next(s: Sys, st: Step): Sys
    requires Enabled(s, st)
  {
    Tick(match st
      case Accept(managed) => s.(conns := s.conns + [Conn([], [], [], Reading, [], [], if managed then Some(NEW_END) else None)])
      case RawLine(c, line) => s.(conns := s.conns[c := PutLine(s.conns[c], line, s.clock)])
      case ClientMoves(c, move) => s.(conns := s.conns[c := Moved(s.conns[c], move, s.clock)])
      case TaskRead(c) => Read(s, c)
      case TaskReply(c) => Reply(s, c)
      case Hangup(c) => s.(conns := s.conns[c := s.conns[c].(task := Ended)])
      case MainRecv(lw) => Recv(s, lw)
      case MainLocal(e) => s.(desk := D.Step(s.desk, e), log := s.log + [e])
      case MainStop => StopLoop(s))
  }

  // ---------- what every reachable state satisfies ----------

  // The main-loop state is the sequential fold of the log, and every answer
  // is the one the fold gives at that point.
  ghost predicate Linear(s: Sys, d0: D.Desk)
    requires D.Shape(d0)
  {
    && s.desk == D.Run(d0, s.log)
    && |s.execs| <= |s.cmds|
    && forall k :: 0 <= k < |s.execs| ==> ExecutedAt(s, d0, k)
  }

  ghost predicate ExecutedAt(s: Sys, d0: D.Desk, k: nat)
    requires D.Shape(d0) && k < |s.execs| && k < |s.cmds|
  {
    var x := s.execs[k];
    && x.pos < |s.log| && s.log[x.pos].Ipc? && s.log[x.pos].req == s.cmds[k].req
    && x.resp == D.HandleRequest(D.Run(d0, s.log[..x.pos]), s.cmds[k].req, s.log[x.pos].loadedWrap).1
  }

  // Commands run in the order they were sent, each once, and the log holds no
  // other request.
  ghost predicate Fifo(s: Sys) {
    && |s.execs| <= |s.cmds|
    && (forall i, j :: 0 <= i < j < |s.execs| ==> s.execs[i].pos < s.execs[j].pos)
    && (forall k :: 0 <= k < |s.execs| ==> s.execs[k].pos < |s.log|)
    && (forall p :: 0 <= p < |s.log| && s.log[p].Ipc? ==> exists k :: 0 <= k < |s.execs| && s.execs[k].pos == p)
    && (if s.open then |s.channel| == |s.cmds| - |s.execs| else s.channel == [])
    && (forall k :: 0 <= k < |s.channel| ==> s.channel[k] == |s.execs| + k)
  }

  // A reply slot is filled exactly by execution, and abandoned exactly when
  // the loop stops first.
  ghost predicate Slots(s: Sys) {
    && (forall i :: i in s.replies <==> 0 <= i < |s.cmds| && (i < |s.execs| || !s.open))
    && (forall i :: i in s.replies ==> s.replies[i] == if i < |s.execs| then Some(s.execs[i].resp) else None)
  }

  // The answer line k of a connection is entitled to.
  ghost predicate Entitled(s: Sys, line: Line, sent: Option<nat>, r: Response) {
    match sent
    case None => r == if Decode(line).None? then DirectError(line) else Err(NotListening)
    case Some(i) => if i < |s.execs| then r == s.execs[i].resp else !s.open && r == Err(ReplyDropped)
  }

  // One answer per line, in order, echoing its id.
  ghost predicate Answered(s: Sys, n: Conn) {
    && |n.sent| <= |n.arrived|
    && (match n.task
        case Reading => |n.written| == |n.sent|
        case Awaiting(i) => |n.written| + 1 == |n.sent| && n.sent[|n.sent| - 1] == Some(i)
        case Ended => |n.written| <= |n.sent| <= |n.written| + 1)
    && forall k :: 0 <= k < |n.written| ==>
      && n.written[k].direction.Resp?
      && n.written[k] == Answer(n.arrived[k], n.written[k].direction.resp)
      && Entitled(s, n.arrived[k], n.sent[k], n.written[k].direction.resp)
  }

  ghost predicate AllAnswered(s: Sys) {
    forall c :: 0 <= c < |s.conns| ==> Answered(s, s.conns[c])
  }

  ghost predicate Points(s: Sys, c: nat, k: nat, i: nat) {
    i < |s.cmds| && s.cmds[i].conn == c && s.cmds[i].line == k
  }

  ghost predicate PointsBack(s: Sys, i: nat)
    requires i < |s.cmds|
  {
    var m := s.cmds[i];
    && m.conn < |s.conns| && m.line < |s.conns[m.conn].sent| <= |s.conns[m.conn].arrived|
    && s.conns[m.conn].sent[m.line] == Some(i)
    && Decode(s.conns[m.conn].arrived[m.line]) == Some(m.req)
  }

  // Commands and accepted lines correspond one to one.
  ghost predicate Dispatched(s: Sys) {
    && (forall c, k :: 0 <= c < |s.conns| && 0 <= k < |s.conns[c].sent| && s.conns[c].sent[k].Some? ==>
         Points(s, c, k, s.conns[c].sent[k].value))
    && (forall i :: 0 <= i < |s.cmds| ==> PointsBack(s, i))
  }

  // Arrival, dispatch, execution and answer of one line come in that order.
  ghost predicate Timed(s: Sys) {
    && (forall i, j :: 0 <= i < j < |s.cmds| ==> s.cmds[i].sentAt < s.cmds[j].sentAt)
    && (forall i :: 0 <= i < |s.cmds| ==> s.cmds[i].sentAt < s.clock)
    && (forall i :: 0 <= i < |s.execs| && i < |s.cmds| ==> s.cmds[i].sentAt < s.execs[i].at < s.clock)
    && (forall c :: 0 <= c < |s.conns| ==> ConnTimed(s, s.conns[c]))
  }

  ghost predicate ConnTimed(s: Sys, n: Conn) {
    && |n.arrivedAt| == |n.arrived| && |n.writtenAt| == |n.written|
    && |n.written| <= |n.sent| <= |n.arrived|
    && (forall k :: 0 <= k < |n.arrived| ==> n.arrivedAt[k] < s.clock)
    && (forall k :: 0 <= k < |n.written| ==> n.writtenAt[k] < s.clock)
    && (forall k :: 0 <= k < |n.sent| && n.sent[k].Some? ==>
         n.sent[k].value < |s.cmds| && n.arrivedAt[k] < s.cmds[n.sent[k].value].sentAt)
    && (forall k :: 0 <= k < |n.written| && n.sent[k].Some? && n.sent[k].value < |s.execs| ==>
         s.execs[n.sent[k].value].at < n.writtenAt[k])
  }

  predicate Numbered(line: Line, k: nat) {
    line.Json? ==> line.env.v == PROTOCOL_VERSION && line.env.id == WireId(k) && line.env.direction.Req?
  }

  // A connection driven by `Client` carries only its requests: one line for
  // each whose write was completed, numbered in order, unless it was joined to
  // what a cut write had left.  Every such line is answered to the client, dropped
  // before its answer was taken, or waited for.
  ghost predicate ClientSide(n: Conn) {
    n.client.Some? ==>
      var e := n.client.value;
      && e.delivered <= |n.written|
      && |e.nums| == |n.arrived| == e.delivered + e.dropped + (if e.waiting then 1 else 0)
      && (forall k :: 0 <= k < |n.arrived| ==> Numbered(n.arrived[k], e.nums[k]))
      && (forall j, k :: 0 <= j < k < |e.nums| ==> e.nums[j] < e.nums[k])
      && (forall k :: 0 <= k < |e.nums| ==> e.nums[k] < e.issued)
      && (e.headless ==> e.dropped > 0)
  }

  ghost predicate Clients(s: Sys) {
    forall c :: 0 <= c < |s.conns| ==> ClientSide(s.conns[c])
  }

  ghost predicate Inv(s: Sys, d0: D.Desk)
    requires D.Shape(d0)
  {
    Linear(s, d0) && Fifo(s) && Slots(s) && AllAnswered(s) && Dispatched(s) && Timed(s) && Clients(s)
  }

  lemma StartInv(d0: D.Desk)
    requires D.Shape(d0)
    ensures Inv(Start(d0), d0)
  {}

  // ---------- each part is kept by each step ----------

  lemma LogNext(d0: D.Desk, log: seq<D.Event>, e: D.Event)
    requires D.Shape(d0)
    ensures D.Run(d0, log + [e]) == D.Step(D.Run(d0, log), e)
  {
    assert (log + [e])[..|log|] == log;
  }

  lemma MainUntouched(s: Sys, st: Step)
    requires Enabled(s, st) && !st.MainRecv? && !st.MainLocal?
    ensures var t := Next(s, st); t.desk == s.desk && t.log == s.log && t.execs == s.execs && s.cmds <= t.cmds
  {}

  lemma ExecutedLater(s: Sys, t: Sys, d0: D.Desk, k: nat)
    requires D.Shape(d0) && k < |s.execs| <= |s.cmds| && ExecutedAt(s, d0, k)
    requires s.log <= t.log && s.execs <= t.execs && s.cmds <= t.cmds
    ensures ExecutedAt(t, d0, k)
  {
    hide D.Run, D.HandleRequest;
    assert t.log[..t.execs[k].pos] == s.log[..s.execs[k].pos];
  }

  lemma LinearStep(s: Sys, st: Step, d0: D.Desk)
    requires D.Shape(d0) && Enabled(s, st) && Linear(s, d0) && Fifo(s)
    ensures Linear(Next(s, st), d0)
  {
    var t := Next(s, st);
    if st.MainRecv? {
      LinearRecv(s, st.loadedWrap, d0);
    } else {
      if st.MainLocal? { LogNext(d0, s.log, st.e); } else { MainUntouched(s, st); }
      hide D.Run, D.HandleRequest, D.Step, ExecutedAt;
      forall k | 0 <= k < |t.execs| ensures ExecutedAt(t, d0, k) {
        ExecutedLater(s, t, d0, k);
      }
    }
  }

  lemma RecvShape(s: Sys, lw: bool)
    requires Enabled(s, MainRecv(lw)) && Fifo(s)
    ensures var t, i := Next(s, MainRecv(lw)), |s.execs|;
      && i < |s.cmds| && t.cmds == s.cmds
      && t.log == s.log + [D.Ipc(s.cmds[i].req, lw)]
      && t.desk == D.Step(s.desk, D.Ipc(s.cmds[i].req, lw))
      && t.execs == s.execs + [Execution(|s.log|, D.HandleRequest(s.desk, s.cmds[i].req, lw).1, s.clock)]
  {
    assert s.channel[0] == |s.execs|;
    hide D.HandleRequest;
  }

  // The new execution is the one the fold gives at the end of the log.
  lemma NewExecution(s: Sys, t: Sys, lw: bool, d0: D.Desk)
    requires D.Shape(d0) && D.Shape(s.desk) && s.desk == D.Run(d0, s.log) && |s.execs| < |s.cmds|
    requires var req := s.cmds[|s.execs|].req;
      && t.cmds == s.cmds && t.log == s.log + [D.Ipc(req, lw)]
      && t.execs == s.execs + [Execution(|s.log|, D.HandleRequest(s.desk, req, lw).1, s.clock)]
    ensures ExecutedAt(t, d0, |s.execs|)
  {
    hide D.Run, D.HandleRequest;
    assert t.log[..|s.log|] == s.log;
  }

  lemma LinearRecv(s: Sys, lw: bool, d0: D.Desk)
    requires D.Shape(d0) && Enabled(s, MainRecv(lw)) && Linear(s, d0) && Fifo(s)
    ensures Linear(Next(s, MainRecv(lw)), d0)
  {
    var t, i := Next(s, MainRecv(lw)), |s.execs|;
    assert D.Shape(s.desk);
    RecvShape(s, lw);
    LogNext(d0, s.log, D.Ipc(s.cmds[i].req, lw));
    hide D.Run, D.HandleRequest, D.Step, D.Shape, Next, Enabled, Fifo, ExecutedAt;
    NewExecution(s, t, lw, d0);
    forall k | 0 <= k < |t.execs| ensures ExecutedAt(t, d0, k) {
      if k < i { ExecutedLater(s, t, d0, k); }
    }
  }

  lemma FifoStep(s: Sys, st: Step)
    requires Enabled(s, st) && Fifo(s)
    ensures Fifo(Next(s, st))
  {
    hide D.HandleRequest, D.Step, D.Shape;
    var t := Next(s, st);
    if st.MainRecv? {
      var n := |s.execs|;
      assert t.execs[n].pos == |s.log|;
      forall p | 0 <= p < |t.log| && t.log[p].Ipc? ensures exists k :: 0 <= k < |t.execs| && t.execs[k].pos == p {
        if p < |s.log| {
          var k :| 0 <= k < |s.execs| && s.execs[k].pos == p;
          assert t.execs[k].pos == p;
        }
      }
    } else if st.MainLocal? {
    } else {
      MainUntouched(s, st);
    }
  }

  lemma SlotsStep(s: Sys, st: Step)
    requires Enabled(s, st) && Fifo(s) && Slots(s)
    ensures Slots(Next(s, st))
  {
    if st.MainStop? {
      SlotsStop(s);
    } else if st.MainRecv? {
      RecvShape(s, st.loadedWrap);
      SlotsRecv(s, st.loadedWrap);
    } else {
      SlotsFrame(s, st);
    }
  }

  lemma SlotsStop(s: Sys)
    requires s.open && Fifo(s) && Slots(s)
    ensures Slots(StopLoop(s)) && Slots(Next(s, MainStop))
  {
    forall i | |s.execs| <= i < |s.cmds| ensures i in s.channel {
      assert s.channel[i - |s.execs|] == i;
    }
  }

  lemma SlotsRecv(s: Sys, lw: bool)
    requires Enabled(s, MainRecv(lw)) && Fifo(s) && Slots(s)
    ensures Slots(Next(s, MainRecv(lw)))
  {
    hide D.HandleRequest, D.Shape;
    assert s.channel[0] == |s.execs|;
  }

  lemma SlotsFrame(s: Sys, st: Step)
    requires Enabled(s, st) && !st.MainStop? && !st.MainRecv? && Slots(s)
    requires s.open ==> |s.channel| == |s.cmds| - |s.execs|
    ensures Slots(Next(s, st))
  {
    hide D.HandleRequest, D.Step, D.Shape, Moved, MayMove, Decode, DirectError, EchoId;
  }

  // Facts about answers given so far survive every later step.
  lemma EntitledLater(s: Sys, t: Sys, line: Line, sent: Option<nat>, r: Response)
    requires Entitled(s, line, sent, r) && s.execs <= t.execs && (s.open || (!t.open && t.execs == s.execs))
    ensures Entitled(t, line, sent, r)
  {}

  lemma AnsweredLater(s: Sys, t: Sys, n: Conn)
    requires Answered(s, n) && s.execs <= t.execs && (s.open || (!t.open && t.execs == s.execs))
    ensures Answered(t, n)
  {
    hide DirectError, Decode;
    forall k | 0 <= k < |n.written| ensures Entitled(t, n.arrived[k], n.sent[k], n.written[k].direction.resp) {
      EntitledLater(s, t, n.arrived[k], n.sent[k], n.written[k].direction.resp);
    }
  }

  lemma Grows(s: Sys, st: Step)
    requires Enabled(s, st)
    ensures var t := Next(s, st);
      s.execs <= t.execs && s.cmds <= t.cmds && (s.open || (!t.open && t.execs == s.execs)) && |s.conns| <= |t.conns|
  {
    hide D.HandleRequest, D.Step, D.Shape;
  }

  lemma AnsweredStep(s: Sys, st: Step)
    requires Enabled(s, st) && Fifo(s) && Slots(s) && AllAnswered(s) && Dispatched(s)
    ensures AllAnswered(Next(s, st))
  {
    var t := Next(s, st);
    Grows(s, st);
    forall c | 0 <= c < |t.conns| ensures Answered(t, t.conns[c]) {
      if c < |s.conns| && t.conns[c] == s.conns[c] {
        AnsweredLater(s, t, s.conns[c]);
      } else if c < |s.conns| {
        AnsweredConn(s, st, c);
      }
    }
  }

  lemma AnsweredConn(s: Sys, st: Step, c: nat)
    requires Enabled(s, st) && Fifo(s) && Slots(s) && AllAnswered(s) && Dispatched(s)
    requires c < |s.conns| && Next(s, st).conns[c] != s.conns[c]
    ensures Answered(Next(s, st), Next(s, st).conns[c])
  {
    if st.TaskRead? {
      ConnSteps(s, st, c);
      ReadAnswers(s, c);
    } else if st.TaskReply? {
      ConnSteps(s, st, c);
      ReplyAnswers(s, c);
    } else {
      Grows(s, st);
      AnsweredLater(s, Next(s, st), s.conns[c]);
      ConnSteps(s, st, c);
      hide Next, Enabled, Fifo, Slots, Dispatched, AllAnswered;
      OthersAnswer(Next(s, st), s.conns[c], Next(s, st).conns[c]);
    }
  }

  lemma OthersAnswer(t: Sys, n: Conn, n': Conn)
    requires Answered(t, n) && n.arrived <= n'.arrived && n'.sent == n.sent && n'.written == n.written
    requires n'.task == n.task || n'.task.Ended?
    ensures Answered(t, n')
  {
    hide Entitled;
    assert forall k :: 0 <= k < |n.written| ==> n'.arrived[k] == n.arrived[k];
  }

  // The steps other than those of a connection's own loop only add lines or move the client.
  lemma ConnSteps(s: Sys, st: Step, c: nat)
    requires Enabled(s, st) && c < |s.conns| && Next(s, st).conns[c] != s.conns[c]
    ensures var n, n' := s.conns[c], Next(s, st).conns[c];
      && n.arrived <= n'.arrived
      && (st.TaskRead? ==> st.c == c) && (st.TaskReply? ==> st.c == c)
      && (!st.TaskRead? && !st.TaskReply? ==> n'.sent == n.sent && n'.written == n.written && (n'.task == n.task || n'.task.Ended?))
  {}

  lemma ReadAnswers(s: Sys, c: nat)
    requires Enabled(s, TaskRead(c)) && Answered(s, s.conns[c])
    ensures Answered(Next(s, TaskRead(c)), Next(s, TaskRead(c)).conns[c])
  {
    hide DirectError, Decode;
    var t := Next(s, TaskRead(c));
    var n, n' := s.conns[c], t.conns[c];
    AnsweredLater(s, t, n);
    assert forall k :: 0 <= k < |n.written| ==> n'.sent[k] == n.sent[k] && n'.written[k] == n.written[k];
  }

  lemma ReplyAnswers(s: Sys, c: nat)
    requires Enabled(s, TaskReply(c)) && Answered(s, s.conns[c]) && Slots(s)
    ensures Answered(Next(s, TaskReply(c)), Next(s, TaskReply(c)).conns[c])
  {
    hide DirectError, Decode;
    var t := Next(s, TaskReply(c));
    var n, n' := s.conns[c], t.conns[c];
    AnsweredLater(s, t, n);
    assert forall k :: 0 <= k < |n.written| ==> n'.written[k] == n.written[k];
  }

  // ---------- dispatch, time and the client's end ----------

  lemma DispatchedStep(s: Sys, st: Step)
    requires Enabled(s, st) && Dispatched(s) && AllAnswered(s)
    ensures Dispatched(Next(s, st))
  {
    if st.TaskRead? {
      DispatchedRead(s, st.c);
    } else {
      Bounded(s, st);
      Grows(s, st);
      ConnsGrow(s, st);
      hide Next, Enabled, AllAnswered;
      DispatchedKept(s, Next(s, st));
    }
  }

  lemma Bounded(s: Sys, st: Step)
    requires Enabled(s, st) && AllAnswered(s)
    ensures forall c :: 0 <= c < |Next(s, st).conns| ==> |Next(s, st).conns[c].sent| <= |Next(s, st).conns[c].arrived|
  {
    hide D.HandleRequest, D.Step, D.Shape, Entitled, Decode, DirectError;
    assert forall c :: 0 <= c < |s.conns| ==> Answered(s, s.conns[c]);
  }

  lemma ConnsGrow(s: Sys, st: Step)
    requires Enabled(s, st)
    ensures var t := Next(s, st);
      && |s.conns| <= |t.conns|
      && (forall c :: 0 <= c < |s.conns| ==> s.conns[c].arrived <= t.conns[c].arrived && s.conns[c].sent <= t.conns[c].sent)
      && (forall c :: |s.conns| <= c < |t.conns| ==> t.conns[c].sent == [])
      && (!st.TaskRead? ==> t.cmds == s.cmds && forall c :: 0 <= c < |s.conns| ==> s.conns[c].sent == t.conns[c].sent)
  {
    hide D.HandleRequest, D.Step, D.Shape;
  }

  lemma DispatchedRead(s: Sys, c: nat)
    requires Enabled(s, TaskRead(c)) && Dispatched(s) && AllAnswered(s)
    ensures Dispatched(Next(s, TaskRead(c)))
  {
    Bounded(s, TaskRead(c));
    hide AllAnswered;
    var t := Next(s, TaskRead(c));
    var n, i := s.conns[c], |s.cmds|;
    var req := Decode(n.arrived[|n.sent|]);
    assert t.conns == s.conns[c := t.conns[c]] && t.conns[c].arrived == n.arrived;
    if req.None? || !s.open {
      assert t.conns[c].sent == n.sent + [None] && t.cmds == s.cmds;
      hide Next, Enabled, Decode;
      DispatchedKept(s, t);
    } else {
      assert t.conns[c].sent == n.sent + [Some(i)] && t.cmds == s.cmds + [Cmd(c, |n.sent|, req.value, s.clock)];
      hide Next, Enabled, Decode;
      DispatchedKept(s, t);
    }
  }

  // New lines are either answered directly or become the newest command.
  lemma DispatchedKept(s: Sys, t: Sys)
    requires Dispatched(s)
    requires |s.conns| <= |t.conns| && s.cmds <= t.cmds
    requires forall c :: 0 <= c < |s.conns| ==> s.conns[c].sent <= t.conns[c].sent && s.conns[c].arrived <= t.conns[c].arrived
    requires forall c :: 0 <= c < |t.conns| ==> |t.conns[c].sent| <= |t.conns[c].arrived|
    requires forall c, k :: 0 <= c < |s.conns| && |s.conns[c].sent| <= k < |t.conns[c].sent| && t.conns[c].sent[k].Some? ==>
      Points(t, c, k, t.conns[c].sent[k].value)
    requires forall c :: |s.conns| <= c < |t.conns| ==> t.conns[c].sent == []
    requires forall i :: |s.cmds| <= i < |t.cmds| ==> PointsBack(t, i)
    ensures Dispatched(t)
  {
    forall i | 0 <= i < |t.cmds| ensures PointsBack(t, i) {
      if i < |s.cmds| { assert PointsBack(s, i); }
    }
    forall c, k | 0 <= c < |t.conns| && 0 <= k < |t.conns[c].sent| && t.conns[c].sent[k].Some?
      ensures Points(t, c, k, t.conns[c].sent[k].value)
    {
      if k < |s.conns[c].sent| { assert Points(s, c, k, s.conns[c].sent[k].value); }
    }
  }

  lemma ClockTicks(s: Sys, st: Step)
    requires Enabled(s, st)
    ensures Next(s, st).clock == s.clock + 1
  {
    hide D.HandleRequest, D.Step, D.Shape;
  }

  // No answered line gains an execution afterwards.
  lemma TimedLater(s: Sys, t: Sys, n: Conn)
    requires ConnTimed(s, n) && Answered(s, n)
    requires s.execs <= t.execs && s.cmds <= t.cmds && s.clock < t.clock && (s.open || t.execs == s.execs)
    ensures ConnTimed(t, n)
  {
    hide DirectError, Decode;
    forall k | 0 <= k < |n.written| && n.sent[k].Some? && n.sent[k].value < |t.execs|
      ensures t.execs[n.sent[k].value].at < n.writtenAt[k]
    {
      assert Entitled(s, n.arrived[k], n.sent[k], n.written[k].direction.resp);
    }
  }

  lemma TimedStep(s: Sys, st: Step)
    requires Enabled(s, st) && Fifo(s) && Slots(s) && AllAnswered(s) && Dispatched(s) && Timed(s)
    ensures Timed(Next(s, st))
  {
    var t := Next(s, st);
    TimedCommands(s, st);
    Grows(s, st);
    ClockTicks(s, st);
    hide Fifo, Slots, Dispatched, Answered, ConnTimed, Enabled;
    forall c | 0 <= c < |t.conns| ensures ConnTimed(t, t.conns[c]) {
      if c < |s.conns| && t.conns[c] == s.conns[c] {
        TimedLater(s, t, s.conns[c]);
      } else if c < |s.conns| {
        TimedConn(s, st, c);
      } else {
        NewConn(s, st, c);
      }
    }
  }

  lemma NewConn(s: Sys, st: Step, c: nat)
    requires Enabled(s, st) && |s.conns| <= c < |Next(s, st).conns|
    ensures ConnTimed(Next(s, st), Next(s, st).conns[c]) && ClientSide(Next(s, st).conns[c])
  {
    hide D.HandleRequest, D.Step, D.Shape;
  }

  lemma TimedCommands(s: Sys, st: Step)
    requires Enabled(s, st) && Fifo(s) && Timed(s)
    ensures var t := Next(s, st);
      && (forall i, j :: 0 <= i < j < |t.cmds| ==> t.cmds[i].sentAt < t.cmds[j].sentAt)
      && (forall i :: 0 <= i < |t.cmds| ==> t.cmds[i].sentAt < t.clock)
      && (forall i :: 0 <= i < |t.execs| && i < |t.cmds| ==> t.cmds[i].sentAt < t.execs[i].at < t.clock)
  {
    hide D.HandleRequest, D.Step, D.Shape, ConnTimed, Decode, DirectError;
  }

  lemma TimedConn(s: Sys, st: Step, c: nat)
    requires Enabled(s, st) && Fifo(s) && Slots(s) && AllAnswered(s) && Timed(s) && Dispatched(s)
    requires c < |s.conns| && Next(s, st).conns[c] != s.conns[c]
    ensures ConnTimed(Next(s, st), Next(s, st).conns[c])
  {
    var t := Next(s, st);
    Grows(s, st);
    ClockTicks(s, st);
    TimedLater(s, t, s.conns[c]);
    if st.TaskRead? {
      ConnSteps(s, st, c);
      TimedRead(s, c);
    } else if st.TaskReply? {
      ConnSteps(s, st, c);
      TimedReply(s, c);
    } else {
      TimedOther(s, st, c);
    }
  }

  // Any other step adds at most one line, arriving now.
  lemma OtherShape(s: Sys, st: Step, c: nat)
    requires Enabled(s, st) && !st.TaskRead? && !st.TaskReply?
    requires c < |s.conns| && Next(s, st).conns[c] != s.conns[c]
    ensures var n, n' := s.conns[c], Next(s, st).conns[c];
      && n'.sent == n.sent && n'.written == n.written && n'.writtenAt == n.writtenAt
      && ((n'.arrived == n.arrived && n'.arrivedAt == n.arrivedAt)
          || (|n'.arrived| == |n.arrived| + 1 && n'.arrivedAt == n.arrivedAt + [s.clock]))
  {
    hide D.HandleRequest, D.Step, D.Shape, Decode, DirectError, EchoId, WireId;
  }

  lemma TimedOther(s: Sys, st: Step, c: nat)
    requires Enabled(s, st) && !st.TaskRead? && !st.TaskReply?
    requires c < |s.conns| && Next(s, st).conns[c] != s.conns[c]
    requires ConnTimed(s, s.conns[c]) && ConnTimed(Next(s, st), s.conns[c])
    ensures ConnTimed(Next(s, st), Next(s, st).conns[c])
  {
    OtherShape(s, st, c);
    ClockTicks(s, st);
    hide Next, Enabled;
  }

  lemma TimedRead(s: Sys, c: nat)
    requires Enabled(s, TaskRead(c)) && Answered(s, s.conns[c])
    requires ConnTimed(s, s.conns[c]) && ConnTimed(Next(s, TaskRead(c)), s.conns[c])
    ensures ConnTimed(Next(s, TaskRead(c)), Next(s, TaskRead(c)).conns[c])
  {
    hide DirectError, Decode, Entitled;
  }

  lemma TimedReply(s: Sys, c: nat)
    requires Enabled(s, TaskReply(c)) && Answered(s, s.conns[c]) && Slots(s) && Timed(s)
    requires ConnTimed(s, s.conns[c]) && ConnTimed(Next(s, TaskReply(c)), s.conns[c])
    ensures ConnTimed(Next(s, TaskReply(c)), Next(s, TaskReply(c)).conns[c])
  {
    hide DirectError, Decode, Entitled;
  }

  lemma MovedKeeps(n: Conn, move: Move, at: nat)
    requires ClientSide(n) && MayMove(n, move)
    ensures ClientSide(Moved(n, move, at))
  {
    hide WireId;
  }

  // Every other step leaves a connection's client alone, and only adds answers.
  lemma ClientFrame(s: Sys, st: Step, c: nat)
    requires Enabled(s, st) && c < |s.conns| && !(st.ClientMoves? && st.c == c)
    ensures c < |Next(s, st).conns|
    ensures var n, n' := s.conns[c], Next(s, st).conns[c];
      n'.client == n.client && (n.client.Some? ==> n'.arrived == n.arrived) && n.written <= n'.written
  {
    hide D.HandleRequest, D.Step, D.Shape, Moved, Decode, DirectError, EchoId;
  }

  lemma ClientsStep(s: Sys, st: Step)
    requires Enabled(s, st) && Clients(s)
    ensures Clients(Next(s, st))
  {
    var t := Next(s, st);
    if st.ClientMoves? { assert t.conns[st.c] == Moved(s.conns[st.c], st.move, s.clock); }
    hide Next, Enabled, ClientSide, Moved;
    forall c | 0 <= c < |t.conns| ensures ClientSide(t.conns[c]) {
      if c < |s.conns| {
        assert ClientSide(s.conns[c]);
        if st.ClientMoves? && st.c == c {
          MayMoveNow(s, st);
          MovedKeeps(s.conns[c], st.move, s.clock);
        } else {
          ClientFrame(s, st, c);
          MoreAnswers(s.conns[c], t.conns[c]);
        }
      } else {
        NewConn(s, st, c);
      }
    }
  }

  lemma MayMoveNow(s: Sys, st: Step)
    requires Enabled(s, st) && st.ClientMoves?
    ensures st.c < |s.conns| && MayMove(s.conns[st.c], st.move)
  {}

  lemma MoreAnswers(n: Conn, n': Conn)
    requires ClientSide(n) && n'.client == n.client && (n.client.Some? ==> n'.arrived == n.arrived) && n.written <= n'.written
    ensures ClientSide(n')
  {
    hide Numbered;
  }

  lemma InvStep(s: Sys, st: Step, d0: D.Desk)
    requires D.Shape(d0) && Enabled(s, st) && Inv(s, d0)
    ensures Inv(Next(s, st), d0)
  {
    hide Linear, Fifo, Slots, AllAnswered, Dispatched, Timed, Clients, Enabled, Next;
    LinearStep(s, st, d0);
    FifoStep(s, st);
    SlotsStep(s, st);
    AnsweredStep(s, st);
    DispatchedStep(s, st);
    TimedStep(s, st);
    ClientsStep(s, st);
  }

  // ---------- every run ----------

  ghost predicate Possible(s: Sys, sts: seq<Step>)
    decreases |sts|
  {
    sts == [] || (Enabled(s, sts[0]) && Possible(Next(s, sts[0]), sts[1..]))
  }

  ghost function After(s: Sys, sts: seq<Step>): Sys
    requires Possible(s, sts)
    decreases |sts|
  {
    if sts == [] then s else After(Next(s, sts[0]), sts[1..])
  }

  lemma {:induction false} InvAlways(s: Sys, sts: seq<Step>, d0: D.Desk)
    requires D.Shape(d0) && Inv(s, d0) && Possible(s, sts)
    ensures Inv(After(s, sts), d0)
    decreases |sts|
  {
    if sts != [] {
      InvStep(s, sts[0], d0);
      InvAlways(Next(s, sts[0]), sts[1..], d0);
    }
  }

  lemma Reached(d0: D.Desk, sts: seq<Step>)
    requires D.Shape(d0) && Possible(Start(d0), sts)
    ensures Inv(After(Start(d0), sts), d0)
  {
    StartInv(d0);
    InvAlways(Start(d0), sts, d0);
  }

  // What holds of one connection of any reachable state.
  lemma ReachedConn(d0: D.Desk, sts: seq<Step>, c: nat)
    requires D.Shape(d0) && Possible(Start(d0), sts) && c < |After(Start(d0), sts).conns|
    ensures var s := After(Start(d0), sts); Answered(s, s.conns[c]) && ClientSide(s.conns[c])
  {
    hide Linear, Fifo, Slots, Dispatched, Timed, Answered, ClientSide, After, Possible, Start, Next, Enabled, D.Shape;
    Reached(d0, sts);
  }

  // Linearizability.  After any interleaving of clients, tasks, local input
  // and the main loop: the state is the sequential fold of the log; command k
  // was executed at most once, at its own place in the log and in channel
  // order, with the answer the fold gives there; the log holds no request that
  // is not a command; and while the loop runs, the commands not executed yet
  // are exactly those queued, in order.
  lemma Linearizable(d0: D.Desk, sts: seq<Step>)
    requires D.Shape(d0) && Possible(Start(d0), sts)
    ensures var s := After(Start(d0), sts);
      && s.desk == D.Run(d0, s.log)
      && |s.execs| <= |s.cmds|
      && (forall k :: 0 <= k < |s.execs| ==> ExecutedAt(s, d0, k))
      && (forall i, j :: 0 <= i < j < |s.execs| ==> s.execs[i].pos < s.execs[j].pos)
      && (forall p :: 0 <= p < |s.log| && s.log[p].Ipc? ==> exists k :: 0 <= k < |s.execs| && s.execs[k].pos == p)
      && (s.open ==> |s.execs| + |s.channel| == |s.cmds|)
      && (forall k :: 0 <= k < |s.channel| ==> s.channel[k] == |s.execs| + k)
  {
    Reached(d0, sts);
    hide Slots, AllAnswered, Dispatched, Timed, Clients, After, Possible, ExecutedAt;
  }

  // Line k of connection c was answered from execution i of the main loop.
  ghost predicate ServedBy(s: Sys, c: nat, k: nat, i: nat) {
    && c < |s.conns| && k < |s.conns[c].written| && k < |s.conns[c].sent|
    && s.conns[c].sent[k] == Some(i) && i < |s.execs|
  }

  // Every request runs between its arrival and its answer, and a request that
  // arrives after another's answer runs later.
  lemma RealTimeOrder(d0: D.Desk, sts: seq<Step>, c1: nat, k1: nat, i: nat, c2: nat, k2: nat, j: nat)
    requires D.Shape(d0) && Possible(Start(d0), sts)
    requires var s := After(Start(d0), sts); ServedBy(s, c1, k1, i) && ServedBy(s, c2, k2, j)
    ensures var s := After(Start(d0), sts);
      && k1 < |s.conns[c1].arrivedAt| && k1 < |s.conns[c1].writtenAt| && k2 < |s.conns[c2].arrivedAt|
      && s.conns[c1].arrivedAt[k1] < s.execs[i].at < s.conns[c1].writtenAt[k1]
      && (s.conns[c1].writtenAt[k1] < s.conns[c2].arrivedAt[k2] ==> i < j && s.execs[i].pos < s.execs[j].pos)
  {
    Reached(d0, sts);
    var s := After(Start(d0), sts);
    hide Linear, Slots, AllAnswered, Dispatched, Clients, After, Possible;
    assert ConnTimed(s, s.conns[c1]) && ConnTimed(s, s.conns[c2]);
  }

  // On a connection whose task has not ended, line k has an answer as soon as
  // a later line was read; the answer echoes its id and is the one it is
  // entitled to: its own execution's, or the error its decoding earned.
  lemma OneAnswerPerLine(d0: D.Desk, sts: seq<Step>, c: nat, k: nat)
    requires D.Shape(d0) && Possible(Start(d0), sts)
    requires var s := After(Start(d0), sts); c < |s.conns| && k < |s.conns[c].sent| && !s.conns[c].task.Ended?
    ensures var s := After(Start(d0), sts); var n := s.conns[c];
      && k < |n.arrived|
      && (k < |n.written| || (k + 1 == |n.sent| && n.task.Awaiting? && n.sent[k] == Some(n.task.cmd)))
      && (k < |n.written| ==>
            && n.written[k].direction.Resp? && n.written[k] == Answer(n.arrived[k], n.written[k].direction.resp)
            && Entitled(s, n.arrived[k], n.sent[k], n.written[k].direction.resp))
  {
    ReachedConn(d0, sts, c);
    hide After, Possible, Start, Next, Enabled, ClientSide, Entitled, DirectError, Decode;
  }

  // ---------- what each kind of line earns ----------

  // A request of protocol version 1.
  predicate IsRequest(line: Line, req: Request) { line.Json? && line.env.v == 1 && line.env.direction == Req(req) }

  // Only requests of version 1 ever become commands, each as it was asked.
  lemma CommandsAreRequests(d0: D.Desk, sts: seq<Step>, i: nat)
    requires D.Shape(d0) && Possible(Start(d0), sts) && i < |After(Start(d0), sts).cmds|
    ensures var s := After(Start(d0), sts); var m := s.cmds[i];
      m.conn < |s.conns| && m.line < |s.conns[m.conn].arrived| && IsRequest(s.conns[m.conn].arrived[m.line], m.req)
  {
    Reached(d0, sts);
    var s := After(Start(d0), sts);
    hide Linear, Fifo, Slots, AllAnswered, Timed, Clients, After, Possible, Start, Next, Enabled;
    assert PointsBack(s, i);
  }

  // The answer to each kind of line, and that a line of another version, a
  // response, or garbage never reaches the main loop.
  lemma EachLineEarns(d0: D.Desk, sts: seq<Step>, c: nat, k: nat)
    requires D.Shape(d0) && Possible(Start(d0), sts)
    requires var s := After(Start(d0), sts); c < |s.conns| && k < |s.conns[c].sent|
    ensures var s := After(Start(d0), sts); var n := s.conns[c];
      && k < |n.arrived|
      && (n.arrived[k].Garbage? ==>
            n.sent[k] == None && (k < |n.written| ==> n.written[k] == Envelope(1, 0, Resp(Err(Undecodable)))))
      && (n.arrived[k].Json? && n.arrived[k].env.v != 1 ==>
            n.sent[k] == None
            && (k < |n.written| ==> n.written[k] == Envelope(1, n.arrived[k].env.id, Resp(Err(VersionMismatch([1]))))))
      && (n.arrived[k].Json? && n.arrived[k].env.v == 1 && n.arrived[k].env.direction.Resp? ==>
            n.sent[k] == None
            && (k < |n.written| ==> n.written[k] == Envelope(1, n.arrived[k].env.id, Resp(Err(ResponseOnRequestSocket)))))
  {
    KindsOfLines(d0, sts, c, k);
    ReachedConn(d0, sts, c);
    hide After, Possible, Start, Next, Enabled, ClientSide;
    var s := After(Start(d0), sts);
    assert Answered(s, s.conns[c]);
  }

  lemma KindsOfLines(d0: D.Desk, sts: seq<Step>, c: nat, k: nat)
    requires D.Shape(d0) && Possible(Start(d0), sts)
    requires var s := After(Start(d0), sts); c < |s.conns| && k < |s.conns[c].sent|
    ensures var s := After(Start(d0), sts); var n := s.conns[c];
      k < |n.arrived| && (n.sent[k].Some? ==>
        n.sent[k].value < |s.cmds| && IsRequest(n.arrived[k], s.cmds[n.sent[k].value].req))
  {
    Reached(d0, sts);
    var s := After(Start(d0), sts);
    hide Linear, Fifo, Slots, Timed, Clients, After, Possible, Start, Next, Enabled;
    assert Answered(s, s.conns[c]);
    if s.conns[c].sent[k].Some? {
      assert Points(s, c, k, s.conns[c].sent[k].value);
      assert PointsBack(s, s.conns[c].sent[k].value);
    }
  }

  // A request of version 1 is taken as that command while the main loop runs;
  // its answer is its own execution's, or says that the loop stopped first.
  lemma RequestsAreServed(d0: D.Desk, sts: seq<Step>, c: nat, k: nat, req: Request)
    requires D.Shape(d0) && Possible(Start(d0), sts)
    requires var s := After(Start(d0), sts);
      c < |s.conns| && k < |s.conns[c].sent| && k < |s.conns[c].arrived| && IsRequest(s.conns[c].arrived[k], req)
    ensures var s := After(Start(d0), sts); var n := s.conns[c]; var id := n.arrived[k].env.id;
      && (s.open ==> n.sent[k].Some?)
      && match n.sent[k]
         case Some(i) =>
           && i < |s.cmds| && s.cmds[i].req == req && s.cmds[i].conn == c && s.cmds[i].line == k
           && (k < |n.written| ==> n.written[k] == Envelope(1, id, Resp(if i < |s.execs| then s.execs[i].resp else Err(ReplyDropped))))
         case None => k < |n.written| ==> n.written[k] == Envelope(1, id, Resp(Err(NotListening)))
  {
    KindsOfLines(d0, sts, c, k);
    StartInv(d0);
    TakenAlways(Start(d0), sts, d0);
    Reached(d0, sts);
    var s := After(Start(d0), sts);
    hide Linear, Fifo, Slots, Timed, Clients, After, Possible, Start, Next, Enabled;
    assert Answered(s, s.conns[c]);
    if s.conns[c].sent[k].Some? { assert Points(s, c, k, s.conns[c].sent[k].value); }
  }

  // While the loop runs no request read so far was turned away.
  ghost predicate Taken(s: Sys) {
    s.open ==>
      forall c, k ::
        0 <= c < |s.conns| && 0 <= k < |s.conns[c].sent| && k < |s.conns[c].arrived|
        ==> LineTaken(s.conns[c].arrived[k], s.conns[c].sent[k])
  }

  predicate LineTaken(line: Line, sent: Option<nat>) {
    line.Json? && line.env.v == 1 && line.env.direction.Req? ==> sent.Some?
  }

  lemma ReadTakes(s: Sys, c: nat)
    requires Enabled(s, TaskRead(c)) && s.open
    ensures var n, n' := s.conns[c], Next(s, TaskRead(c)).conns[c];
      && n'.arrived == n.arrived && |n'.sent| == |n.sent| + 1 && n'.sent[..|n.sent|] == n.sent
      && LineTaken(n.arrived[|n.sent|], n'.sent[|n.sent|])
      && Next(s, TaskRead(c)).conns == s.conns[c := n']
  {}

  lemma TakenStep(s: Sys, st: Step)
    requires Enabled(s, st) && AllAnswered(s) && Taken(s)
    ensures Taken(Next(s, st))
  {
    var t := Next(s, st);
    Grows(s, st);
    if s.open {
      ConnsGrow(s, st);
      Bounded(s, st);
      assert forall c :: 0 <= c < |s.conns| ==> Answered(s, s.conns[c]);
      if st.TaskRead? { ReadTakes(s, st.c); }
      hide Next, Enabled, Answered, LineTaken;
      forall c, k | 0 <= c < |t.conns| && 0 <= k < |t.conns[c].sent| && k < |t.conns[c].arrived|
        ensures LineTaken(t.conns[c].arrived[k], t.conns[c].sent[k])
      {
        if c < |s.conns| && k < |s.conns[c].sent| {
          BoundedNow(s, c);
          assert t.conns[c].arrived[k] == s.conns[c].arrived[k];
        }
      }
    }
  }

  lemma BoundedNow(s: Sys, c: nat)
    requires AllAnswered(s) && c < |s.conns|
    ensures |s.conns[c].sent| <= |s.conns[c].arrived|
  {
    assert Answered(s, s.conns[c]);
  }

  lemma {:induction false} TakenAlways(s: Sys, sts: seq<Step>, d0: D.Desk)
    requires D.Shape(d0) && Inv(s, d0) && Possible(s, sts) && Taken(s)
    ensures Taken(After(s, sts))
    decreases |sts|
  {
    hide Taken, Linear, Fifo, Slots, AllAnswered, Dispatched, Timed, Clients, Next, Enabled;
    if sts != [] {
      TakenStep(s, sts[0]);
      InvStep(s, sts[0], d0);
      TakenAlways(Next(s, sts[0]), sts[1..], d0);
    }
  }

  // The client writes the request it was asked for under the next id; behind
  // the bytes of a cut write it makes a line that is no envelope.
  lemma ClientSendsTheRequest(s: Sys, c: nat, req: Request)
    requires Enabled(s, ClientMoves(c, SendRequest(req)))
    ensures var n := s.conns[c]; var e := n.client.value; var n' := Next(s, ClientMoves(c, SendRequest(req))).conns[c];
      && n'.arrived == n.arrived + [if e.partial then Garbage
                                    else Json(Envelope(1, (e.issued + 1) % 0x1_0000_0000_0000_0000, Req(req)))]
      && n'.client.Some? && n'.client.value.waiting && n'.client.value.issued == e.issued + 1 && !n'.client.value.partial
  {}

  // The client takes the next line off the stream without looking at its id.
  // It decodes unless a cut read took its head.  Then it is a response, and it
  // carries the id of the request just sent if and only if the requests issued
  // since the one it answers are a multiple of 2^64 - or, for the answer to a
  // joined line, which carries 0, the id just sent has wrapped to 0.
  lemma CorrelationIff(d0: D.Desk, sts: seq<Step>, c: nat)
    requires D.Shape(d0) && Possible(Start(d0), sts)
    requires Enabled(After(Start(d0), sts), ClientMoves(c, Receive))
    ensures var n := After(Start(d0), sts).conns[c]; var e := n.client.value; var last := |n.arrived| - 1;
      && 0 <= e.delivered <= last < |e.nums|
      && n.written[e.delivered].direction.Resp?
      && (n.written[e.delivered].id == WireId(e.nums[last]) <==>
            if n.arrived[e.delivered].Garbage? then (e.nums[last] + 1) % ID_SIZE == 0
            else (e.nums[last] - e.nums[e.delivered]) % ID_SIZE == 0)
  {
    hide *;
    var s := After(Start(d0), sts);
    MayMoveNow(s, ClientMoves(c, Receive));
    ReachedConn(d0, sts, c);
    TakenLine(s, s.conns[c]);
  }

  lemma TakenLine(s: Sys, n: Conn)
    requires Answered(s, n) && ClientSide(n) && MayMove(n, Receive)
    ensures var e := n.client.value; var last := |n.arrived| - 1;
      && 0 <= e.delivered <= last < |e.nums|
      && n.written[e.delivered].direction.Resp?
      && (n.written[e.delivered].id == WireId(e.nums[last]) <==>
            if n.arrived[e.delivered].Garbage? then (e.nums[last] + 1) % ID_SIZE == 0
            else (e.nums[last] - e.nums[e.delivered]) % ID_SIZE == 0)
  {
    hide Entitled, Decode, DirectError;
    var e := n.client.value;
    assert Numbered(n.arrived[e.delivered], e.nums[e.delivered]);
    hide ClientSide;
    WireIdsAgree(e.nums[e.delivered], e.nums[|n.arrived| - 1] - e.nums[e.delivered]);
  }

  lemma WireIdsAgree(k: nat, gap: nat)
    ensures WireId(k) == WireId(k + gap) <==> gap % ID_SIZE == 0
  {}

  // It is the answer to the request just sent if and only if no earlier request
  // was dropped after its line was complete; requests cut inside the write do
  // not count.  A headless line is always an earlier request's.
  lemma InStepIffNoneDropped(d0: D.Desk, sts: seq<Step>, c: nat)
    requires D.Shape(d0) && Possible(Start(d0), sts)
    requires Enabled(After(Start(d0), sts), ClientMoves(c, Receive))
    ensures var n := After(Start(d0), sts).conns[c]; var e := n.client.value;
      && (e.delivered == |n.arrived| - 1 <==> e.dropped == 0)
      && (e.headless ==> e.delivered < |n.arrived| - 1)
  {
    ReachedConn(d0, sts, c);
    hide After, Possible, Start, Next, Numbered, Entitled;
  }

  // And then it is the outcome of that request's own execution - or, if a cut
  // write had spoilt its line, the error with id 0 that line earned.
  lemma AnswerIsForTheRequest(d0: D.Desk, sts: seq<Step>, c: nat)
    requires D.Shape(d0) && Possible(Start(d0), sts)
    requires Enabled(After(Start(d0), sts), ClientMoves(c, Receive))
    requires After(Start(d0), sts).conns[c].client.value.dropped == 0
    ensures var s := After(Start(d0), sts); var n := s.conns[c]; var e := n.client.value; var k := |n.arrived| - 1;
      && k == e.delivered < |n.sent| && k < |e.nums| && !e.headless
      && match n.arrived[k]
         case Garbage => n.written[k] == Envelope(PROTOCOL_VERSION, 0, Resp(Err(Undecodable)))
         case Json(env) =>
           && n.written[k].id == WireId(e.nums[k])
           && match n.sent[k]
              case Some(i) =>
                && i < |s.cmds| && env.direction == Req(s.cmds[i].req)
                && n.written[k].direction == Resp(if i < |s.execs| then s.execs[i].resp else Err(ReplyDropped))
              case None => n.written[k].direction == Resp(Err(NotListening))
  {
    Reached(d0, sts);
    var s := After(Start(d0), sts);
    var n := s.conns[c];
    assert Answered(s, n) && ClientSide(n);
    var k := n.client.value.delivered;
    if k < |n.sent| && n.sent[k].Some? { assert Points(s, c, k, n.sent[k].value) && PointsBack(s, n.sent[k].value); }
    hide Linear, Fifo, Slots, Timed, Clients, AllAnswered, Dispatched, After, Possible, Start, Next;
    assert Numbered(n.arrived[k], n.client.value.nums[k]) && Entitled(s, n.arrived[k], n.sent[k], n.written[k].direction.resp);
  }

  // A single request dropped between its lines shifts every later answer.
  lemma AbandoningShiftsAnswers(d0: D.Desk)
    requires D.Shape(d0)
    ensures exists sts: seq<Step> ::
      && Possible(Start(d0), sts) && Enabled(After(Start(d0), sts), ClientMoves(0, Receive))
      && var n := After(Start(d0), sts).conns[0];
         n.written[n.client.value.delivered].id == 1 && |n.arrived| == 2 && n.arrived[1].Json? && n.arrived[1].env.id == 2
  {
    var sts := AbandonSteps();
    var s0 := Start(d0);
    AbandonFirst(d0);
    var s3 := Next(Next(Next(s0, sts[0]), sts[1]), sts[2]);
    AbandonRest(s3, d0);
    hide Next, Enabled, Start, AbandonSteps, Possible, After, Abandoned;
    UnrollSeven(s0, s3, sts);
    assert Enabled(After(s0, sts), ClientMoves(0, Receive));
  }

  lemma UnrollSeven(s0: Sys, s3: Sys, sts: seq<Step>)
    requires |sts| == 7
    requires Enabled(s0, sts[0]) && Enabled(Next(s0, sts[0]), sts[1]) && Enabled(Next(Next(s0, sts[0]), sts[1]), sts[2])
    requires s3 == Next(Next(Next(s0, sts[0]), sts[1]), sts[2])
    requires Enabled(s3, sts[3]) && Enabled(Next(s3, sts[3]), sts[4]) && Enabled(Next(Next(s3, sts[3]), sts[4]), sts[5])
    requires Enabled(Next(Next(Next(s3, sts[3]), sts[4]), sts[5]), sts[6])
    ensures Possible(s0, sts) && After(s0, sts) == Next(Next(Next(Next(s3, sts[3]), sts[4]), sts[5]), sts[6])
  {
    hide Next, Enabled;
    var s7 := Next(Next(Next(Next(s3, sts[3]), sts[4]), sts[5]), sts[6]);
    assert sts[7..] == [] && sts[0..] == sts;
    assert Possible(s7, sts[7..]) && After(s7, sts[7..]) == s7;
    hide Possible, After;
    Unroll(Next(Next(Next(s3, sts[3]), sts[4]), sts[5]), sts, 6);
    Unroll(Next(Next(s3, sts[3]), sts[4]), sts, 5);
    Unroll(Next(s3, sts[3]), sts, 4);
    Unroll(s3, sts, 3);
    Unroll(Next(Next(s0, sts[0]), sts[1]), sts, 2);
    Unroll(Next(s0, sts[0]), sts, 1);
    Unroll(s0, sts, 0);
  }

  function AbandonSteps(): (sts: seq<Step>)
    ensures |sts| == 7
  {
    [Accept(true), ClientMoves(0, SendRequest(GetState)), ClientMoves(0, Drop), TaskRead(0), MainRecv(false), TaskReply(0),
     ClientMoves(0, SendRequest(Quit))]
  }

  ghost predicate Abandoned(s: Sys, d0: D.Desk) {
    s == Sys(d0, [], [Conn([Json(Envelope(PROTOCOL_VERSION, 1, Req(GetState)))], [1], [], Reading, [], [],
                           Some(ClientEnd(1, [0], false, 0, false, false, 1)))],
             [], [], [], true, map[], 3)
  }

  lemma AbandonFirst(d0: D.Desk)
    ensures var sts, s0 := AbandonSteps(), Start(d0);
      && Enabled(s0, sts[0]) && Enabled(Next(s0, sts[0]), sts[1]) && Enabled(Next(Next(s0, sts[0]), sts[1]), sts[2])
      && Abandoned(Next(Next(Next(s0, sts[0]), sts[1]), sts[2]), d0)
  {
    var sts, s0 := AbandonSteps(), Start(d0);
    var s1 := Next(s0, sts[0]);
    assert s1.conns == [Conn([], [], [], Reading, [], [], Some(NEW_END))];
    var s2 := Next(s1, sts[1]);
    var env := Envelope(PROTOCOL_VERSION, 1, Req(GetState));
    assert [] + [Json(env)] == [Json(env)] && [] + [1] == [1];
    assert [] + [0] == [0];
    assert s2.conns == [Conn([Json(env)], [1], [], Reading, [], [], Some(ClientEnd(1, [0], false, 0, false, true, 0)))];
  }

  lemma AbandonRest(s: Sys, d0: D.Desk)
    requires D.Shape(d0) && Abandoned(s, d0)
    ensures var sts := AbandonSteps();
      && Enabled(s, sts[3]) && Enabled(Next(s, sts[3]), sts[4]) && Enabled(Next(Next(s, sts[3]), sts[4]), sts[5])
      && Enabled(Next(Next(Next(s, sts[3]), sts[4]), sts[5]), sts[6])
      && var t := Next(Next(Next(Next(s, sts[3]), sts[4]), sts[5]), sts[6]);
         && Enabled(t, ClientMoves(0, Receive)) && t.conns[0].written[t.conns[0].client.value.delivered].id == 1
         && |t.conns[0].arrived| == 2 && t.conns[0].arrived[1].Json? && t.conns[0].arrived[1].env.id == 2
  {
    var sts := AbandonSteps();
    AbandonRead(s, d0);
    var s4 := Next(s, TaskRead(0));
    AbandonRun(s4);
    var s5 := Next(s4, MainRecv(false));
    AbandonReply(s5);
    hide Next, Enabled;
    AbandonAgain(Next(s5, TaskReply(0)));
  }

  // The first request's connection, from its line to its answer.
  ghost predicate OnlyConn(s: Sys, sent: seq<Option<nat>>, task: Task) {
    && |s.conns| == 1
    && s.conns[0].arrived == [Json(Envelope(PROTOCOL_VERSION, 1, Req(GetState)))] && s.conns[0].sent == sent && s.conns[0].task == task
    && s.conns[0].client == Some(ClientEnd(1, [0], false, 0, false, false, 1))
  }

  lemma AbandonRead(s: Sys, d0: D.Desk)
    requires D.Shape(d0) && Abandoned(s, d0)
    ensures Enabled(s, TaskRead(0))
    ensures var t := Next(s, TaskRead(0));
      && OnlyConn(t, [Some(0)], Awaiting(0)) && t.conns[0].written == []
      && t.channel == [0] && t.cmds == [Cmd(0, 0, GetState, 3)] && t.desk == d0 && t.open
  {
    hide D.HandleRequest, D.Shape;
  }

  lemma AbandonRun(s: Sys)
    requires OnlyConn(s, [Some(0)], Awaiting(0)) && s.conns[0].written == []
    requires s.channel == [0] && s.cmds == [Cmd(0, 0, GetState, 3)] && D.Shape(s.desk) && s.open
    ensures Enabled(s, MainRecv(false))
    ensures var t := Next(s, MainRecv(false)); t.conns == s.conns && 0 in t.replies
  {
    hide D.HandleRequest, D.Shape;
  }

  lemma AbandonReply(s: Sys)
    requires OnlyConn(s, [Some(0)], Awaiting(0)) && s.conns[0].written == [] && 0 in s.replies
    ensures Enabled(s, TaskReply(0))
    ensures var t := Next(s, TaskReply(0));
      OnlyConn(t, [Some(0)], Reading) && |t.conns[0].written| == 1 && t.conns[0].written[0].id == 1
  {}

  lemma AbandonAgain(s: Sys)
    requires OnlyConn(s, [Some(0)], Reading) && |s.conns[0].written| == 1 && s.conns[0].written[0].id == 1
    ensures Enabled(s, ClientMoves(0, SendRequest(Quit)))
    ensures var t := Next(s, ClientMoves(0, SendRequest(Quit)));
      && Enabled(t, ClientMoves(0, Receive)) && t.conns[0].written[t.conns[0].client.value.delivered].id == 1
      && |t.conns[0].arrived| == 2 && t.conns[0].arrived[1].Json? && t.conns[0].arrived[1].env.id == 2
  {}

  lemma Unroll(s: Sys, sts: seq<Step>, i: nat)
    requires i < |sts| && Enabled(s, sts[i]) && Possible(Next(s, sts[i]), sts[i + 1..])
    ensures Possible(s, sts[i..]) && After(s, sts[i..]) == After(Next(s, sts[i]), sts[i + 1..])
  {
    assert sts[i..][1..] == sts[i + 1..];
  }
}
