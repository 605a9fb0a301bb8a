/** Requests on their way from clients through the broker to workers and back: a
    state machine whose steps interleave freely, with loss, timeouts and death at
    any point. */
module Delivery {
  import opened Common
  import opened Outcomes

  /** What the broker's thread for one client is doing. */
  datatype Thread =
    | Idle
    | Holding(request: Envelope)
    | Awaiting(request: Envelope, forwarded: Envelope, worker: nat)
    | Replying(response: Envelope)
    | Gone

  /** One client connection: its two directions, the client's unanswered request,
      and the broker's thread behind it with the last request it took. */
  datatype Conn = Conn(open: bool, toBroker: seq<Envelope>, toClient: seq<Envelope>, waiting: Option<Envelope>,
                       thread: Thread, taken: int)

  datatype Process = Reading | Answering(response: Envelope) | Dead

  /** One worker: its connection to the broker, the thread that holds its request
      lock, its process and the last request it took. */
  datatype Worker = Worker(open: bool, toWorker: seq<Envelope>, toBroker: seq<Envelope>, lock: Option<nat>,
                           process: Process, taken: int)

  datatype Issue = Issue(conn: nat, request: Envelope)

  datatype Handoff = Handoff(origin: nat, worker: nat, request: Envelope)

  /** Message ids are handed out in order. The rest records what happened: requests
      sent, requests never sent because the client was closed, requests passed on to
      workers, the workers' answers, the requests handled in order, and what each
      client was told. */
  datatype State = State(
    conns: map<nat, Conn>, workers: map<nat, Worker>, next: nat,
    issued: map<nat, Issue>, unsent: set<nat>, handoffs: map<nat, Handoff>, answers: map<nat, Answer>,
    handled: seq<nat>, verdicts: map<nat, Verdict>)

  datatype Step =
    | ClientSend(c: nat, messageType: string, action: Option<string>, content: int)
    | ClientSendFails(c: nat, messageType: string, action: Option<string>, content: int, delivered: bool)
    | ClientClosed(c: nat)
    | ClientReceive(c: nat)
    | ClientGivesUp(c: nat)
    | BrokerTake(c: nat)
    | BrokerAnswer(c: nat, content: int)
    | BrokerRefuse(c: nat, code: string)
    | BrokerForward(c: nat, w: nat)
    | BrokerForwardFails(c: nat, w: nat, delivered: bool)
    | BrokerReceive(c: nat)
    | BrokerGivesUp(c: nat)
    | BrokerSend(c: nat)
    | BrokerThreadDies(c: nat)
    | ClientDisconnects(c: nat)
    | WorkerHandle(w: nat, answer: Answer, state: string)
    | WorkerSend(w: nat)
    | WorkerDies(w: nat)
    | WorkerDisconnected(w: nat)

  function Request(id: nat, messageType: string, action: Option<string>, content: int): Envelope {
    Envelope(id, messageType, action, content, Missing, Missing, Missing)
  }

  function SetConn(s: State, c: nat, conn: Conn): State {
    s.(conns := s.conns[c := conn])
  }

  function SetWorker(s: State, w: nat, worker: Worker): State {
    s.(workers := s.workers[w := worker])
  }

  /** A client call begins: the request is written, whole, or the write fails, in
      which case it may have arrived all the same. The client lets go of its lock before
      it closes the connection, so the closing is a step of its own. */
  function Send(s: State, c: nat, request: Envelope, failed: bool, delivered: bool): State
    requires c in s.conns && request.id == s.next
  {
    var conn := s.conns[c];
    var queued := if delivered then conn.(toBroker := conn.toBroker + [request]) else conn;
    var after := if failed then queued else queued.(waiting := Some(request));
    var t := SetConn(s, c, after).(issued := s.issued[request.id := Issue(c, request)], next := s.next + 1);
    if failed then t.(verdicts := s.verdicts[request.id := ClientTransport(request)]) else t
  }

  /** A client call ends with an answer, or with none, in which case the receive has
      closed the connection; after an unusable answer it is closed later. */
  function Conclude(s: State, c: nat, response: Option<Envelope>): State
    requires c in s.conns && s.conns[c].waiting.Some?
    requires response.Some? ==> s.conns[c].toClient != []
  {
    var conn := s.conns[c];
    var request := conn.waiting.value;
    var (verdict, _) := ClientVerdict(request, response);
    var rest := if response.Some? then conn.(toClient := conn.toClient[1..]) else conn.(open := false);
    SetConn(s, c, rest.(waiting := None)).(verdicts := s.verdicts[request.id := verdict])
  }

  /** The request that the broker writes to a worker for a client's request. */
  function Forwarded(id: nat, request: Envelope): Envelope
    requires WorkerType(request.messageType, request.action).Some?
  {
    Request(id, WorkerType(request.messageType, request.action).value, request.action, request.content)
  }

  /** The request is written to the worker under its lock; when the write fails, the lock
      is let go of first and the connection closed later, by a step of its own. */
  function Forward(s: State, c: nat, w: nat, failed: bool, delivered: bool): State
    requires c in s.conns && w in s.workers && s.conns[c].thread.Holding?
    requires WorkerType(s.conns[c].thread.request.messageType, s.conns[c].thread.request.action).Some?
  {
    var conn, worker := s.conns[c], s.workers[w];
    var request := conn.thread.request;
    var forwarded := Forwarded(s.next, request);
    var (result, _) := HandleVerdict(forwarded, None);
    var queued := if delivered then worker.(toWorker := worker.toWorker + [forwarded]) else worker;
    var worker' := if failed then queued else queued.(lock := Some(c));
    var thread := if failed then Replying(BrokerReply(request, result)) else Awaiting(request, forwarded, w);
    SetWorker(SetConn(s, c, conn.(thread := thread)), w, worker')
      .(handoffs := s.handoffs[forwarded.id := Handoff(request.id, w, forwarded)], next := s.next + 1)
  }

  /** The broker's wait for a worker ends with an answer, or with none, in which case the
      receive has closed the connection; after an unusable answer it is closed later. */
  function Settle(s: State, c: nat, response: Option<Envelope>): State
    requires c in s.conns && s.conns[c].thread.Awaiting? && s.conns[c].thread.worker in s.workers
    requires response.Some? ==> s.workers[s.conns[c].thread.worker].toBroker != []
  {
    var conn := s.conns[c];
    var Awaiting(request, forwarded, w) := conn.thread;
    var worker := s.workers[w];
    var (result, _) := HandleVerdict(forwarded, response);
    var rest := if response.Some? then worker.(toBroker := worker.toBroker[1..]) else worker.(open := false);
    SetWorker(SetConn(s, c, conn.(thread := Replying(BrokerReply(request, result)))), w,
              rest.(lock := None))
  }

  function Take(s: State, c: nat): State
    requires c in s.conns && s.conns[c].toBroker != []
  {
    var conn := s.conns[c];
    SetConn(s, c, conn.(thread := Holding(conn.toBroker[0]), taken := conn.toBroker[0].id, toBroker := conn.toBroker[1..]))
  }

  function Handle(s: State, w: nat, answer: Answer, state: string): State
    requires w in s.workers && s.workers[w].toWorker != []
  {
    var worker := s.workers[w];
    var request := worker.toWorker[0];
    var after := worker.(process := Answering(WorkerReply(request, answer, state)), taken := request.id,
                         toWorker := worker.toWorker[1..]);
    SetWorker(s, w, after).(
      answers := s.answers[request.id := answer],
      handled := s.handled + if request.id in s.handoffs then [s.handoffs[request.id].origin] else [])
  }

  predicate Enabled(s: State, step: Step) {
    match step
    case ClientSend(c, _, _, _) => c in s.conns && s.conns[c].open && s.conns[c].waiting == None
    case ClientSendFails(c, _, _, _, delivered) =>
      c in s.conns && (delivered ==> s.conns[c].open) && s.conns[c].waiting == None
    case ClientClosed(c) => c in s.conns && !s.conns[c].open
    case ClientReceive(c) => c in s.conns && s.conns[c].open && s.conns[c].waiting.Some? && s.conns[c].toClient != []
    case ClientGivesUp(c) => c in s.conns && s.conns[c].waiting.Some?
    case BrokerTake(c) => c in s.conns && s.conns[c].thread == Idle && s.conns[c].toBroker != []
    case BrokerAnswer(c, _) =>
      c in s.conns && s.conns[c].thread.Holding?
      && MayAnswerItself(s.conns[c].thread.request.messageType, s.conns[c].thread.request.action)
    case BrokerRefuse(c, _) => c in s.conns && s.conns[c].thread.Holding?
    case BrokerForward(c, w) =>
      c in s.conns && w in s.workers && s.conns[c].thread.Holding? && s.workers[w].open && s.workers[w].lock == None
      && WorkerType(s.conns[c].thread.request.messageType, s.conns[c].thread.request.action).Some?
    case BrokerForwardFails(c, w, delivered) =>
      c in s.conns && w in s.workers && s.conns[c].thread.Holding? && (delivered ==> s.workers[w].open) && s.workers[w].lock == None
      && WorkerType(s.conns[c].thread.request.messageType, s.conns[c].thread.request.action).Some?
    case BrokerReceive(c) =>
      c in s.conns && s.conns[c].thread.Awaiting? && s.conns[c].thread.worker in s.workers
      && s.workers[s.conns[c].thread.worker].open && s.workers[s.conns[c].thread.worker].toBroker != []
    case BrokerGivesUp(c) => c in s.conns && s.conns[c].thread.Awaiting? && s.conns[c].thread.worker in s.workers
    case BrokerSend(c) => c in s.conns && s.conns[c].thread.Replying?
    case BrokerThreadDies(c) => c in s.conns
    case ClientDisconnects(c) => c in s.conns
    case WorkerHandle(w, _, _) => w in s.workers && s.workers[w].process == Reading && s.workers[w].toWorker != []
    case WorkerSend(w) => w in s.workers && s.workers[w].process.Answering?
    case WorkerDies(w) => w in s.workers
    case WorkerDisconnected(w) => w in s.workers
  }

  function Next(s: State, step: Step): State
    requires Enabled(s, step)
  {
    match step
    case ClientSend(c, messageType, action, content) => Send(s, c, Request(s.next, messageType, action, content), false, true)
    case ClientSendFails(c, messageType, action, content, delivered) =>
      Send(s, c, Request(s.next, messageType, action, content), true, delivered)
    case ClientClosed(c) =>
      s.(unsent := s.unsent + {s.next}, verdicts := s.verdicts[s.next := Failure("broker_unavailable")], next := s.next + 1)
    case ClientReceive(c) => Conclude(s, c, Some(s.conns[c].toClient[0]))
    case ClientGivesUp(c) => Conclude(s, c, None)
    case BrokerTake(c) => Take(s, c)
    case BrokerAnswer(c, content) =>
      var request := s.conns[c].thread.request;
      SetConn(s, c, s.conns[c].(thread := Replying(ResultReply(request.id, request.messageType, content))))
    case BrokerRefuse(c, code) =>
      SetConn(s, c, s.conns[c].(thread := Replying(ErrorReply(s.conns[c].thread.request.id, code, Missing))))
    case BrokerForward(c, w) => Forward(s, c, w, false, true)
    case BrokerForwardFails(c, w, delivered) => Forward(s, c, w, true, delivered)
    case BrokerReceive(c) => Settle(s, c, Some(s.workers[s.conns[c].thread.worker].toBroker[0]))
    case BrokerGivesUp(c) => Settle(s, c, None)
    case BrokerSend(c) =>
      var conn := s.conns[c];
      SetConn(s, c, conn.(toClient := conn.toClient + [conn.thread.response], thread := Idle))
    case BrokerThreadDies(c) => SetConn(s, c, s.conns[c].(thread := Gone))
    case ClientDisconnects(c) => SetConn(s, c, s.conns[c].(open := false))
    case WorkerHandle(w, answer, state) => Handle(s, w, answer, state)
    case WorkerSend(w) =>
      var worker := s.workers[w];
      SetWorker(s, w, worker.(toBroker := worker.toBroker + [worker.process.response], process := Reading))
    case WorkerDies(w) => SetWorker(s, w, s.workers[w].(process := Dead))
    case WorkerDisconnected(w) => SetWorker(s, w, s.workers[w].(open := false))
  }

  /** Any number of clients and workers, connected and with nothing under way. */
  predicate IsInitial(s: State) {
    && (forall c <- s.conns :: s.conns[c] == Conn(true, [], [], None, Idle, -1))
    && (forall w <- s.workers :: s.workers[w] == Worker(true, [], [], None, Reading, -1))
    && s == State(s.conns, s.workers, 0, map[], {}, map[], map[], [], map[])
  }

  predicate CanRun(s: State, steps: seq<Step>)
    decreases |steps|
  {
    steps == [] || (Enabled(s, steps[0]) && CanRun(Next(s, steps[0]), steps[1..]))
  }

  function Run(s: State, steps: seq<Step>): State
    requires CanRun(s, steps)
    decreases |steps|
  {
    if steps == [] then s else Run(Next(s, steps[0]), steps[1..])
  }
}
