/** What happens to a request when nothing goes wrong. */
module DeliveryProgress {
  import opened Common
  import opened Outcomes
  import opened Delivery

  /** The requests that are for a worker, and what the worker is asked. */
  predicate IsForWorker(messageType: string, action: Option<string>, asked: string) {
    || (messageType == "session.status" && asked == "worker.status")
    || (messageType == "session.rediscover" && asked == "worker.status")
    || (messageType == "session.exec" && asked == "worker.exec")
    || (messageType == "session.terminal" && asked == "worker.terminal")
    || (messageType == "session.files" && asked == "worker.files")
    || (messageType == "session.file_edit" && asked == "worker.file_edit")
    || (messageType == "session.elevation" && action in {Some("acquire"), Some("status"), Some("release"), Some("exec")}
        && asked == "worker.elevation")
  }

  /** Nothing is under way between this client, the broker and this worker. */
  predicate AtEase(s: State, c: nat, w: nat) {
    && c in s.conns && w in s.workers
    && s.conns[c].open && s.conns[c].toBroker == s.conns[c].toClient == [] && s.conns[c].waiting == None && s.conns[c].thread == Idle
    && s.workers[w].open && s.workers[w].toWorker == s.workers[w].toBroker == [] && s.workers[w].lock == None
    && s.workers[w].process == Reading
  }

  /** A request's way there and back. */
  function ThereAndBack(c: nat, w: nat, messageType: string, action: Option<string>, content: int, answer: Answer, state: string)
    : seq<Step>
  {
    [ClientSend(c, messageType, action, content), BrokerTake(c), BrokerForward(c, w), WorkerHandle(w, answer, state),
     WorkerSend(w), BrokerReceive(c), BrokerSend(c), ClientReceive(c)]
  }

  /** The state with this connection and this worker as given. */
  function With(s: State, c: nat, conn: Conn, w: nat, worker: Worker): State {
    s.(conns := s.conns[c := conn], workers := s.workers[w := worker])
  }

  /** The request is sent, and taken by the broker. */
  lemma SentAndTaken(s: State, c: nat, w: nat, messageType: string, action: Option<string>, content: int)
    requires AtEase(s, c, w)
    ensures var request := Request(s.next, messageType, action, content);
      var first, second := ClientSend(c, messageType, action, content), BrokerTake(c);
      && Enabled(s, first) && Enabled(Next(s, first), second)
      && Next(Next(s, first), second)
         == With(s, c, s.conns[c].(waiting := Some(request), thread := Holding(request), taken := s.next), w, s.workers[w])
              .(issued := s.issued[s.next := Issue(c, request)], next := s.next + 1)
  {
    var request := Request(s.next, messageType, action, content);
    assert [] + [request] == [request] && [request][1..] == [];
    assert s.workers[w := s.workers[w]] == s.workers;
  }

  /** It is passed on. */
  lemma PassedOn(s: State, c: nat, w: nat, request: Envelope, asked: string)
    requires c in s.conns && s.conns[c].thread == Holding(request)
    requires w in s.workers && s.workers[w].open && s.workers[w].toWorker == [] && s.workers[w].lock == None
    requires IsForWorker(request.messageType, request.action, asked)
    ensures var forwarded := Request(s.next, asked, request.action, request.content);
      && Enabled(s, BrokerForward(c, w))
      && Next(s, BrokerForward(c, w))
         == With(s, c, s.conns[c].(thread := Awaiting(request, forwarded, w)), w,
                 s.workers[w].(lock := Some(c), toWorker := [forwarded]))
              .(handoffs := s.handoffs[s.next := Handoff(request.id, w, forwarded)], next := s.next + 1)
  {
    hide HandleVerdict, WorkerType, IsForWorker;
    AskedAs(request.messageType, request.action, asked);
    assert [] + [Forwarded(s.next, request)] == [Forwarded(s.next, request)];
  }

  /** The worker handles it. */
  lemma HandledOnce(s: State, w: nat, forwarded: Envelope, answer: Answer, state: string)
    requires w in s.workers && s.workers[w].toWorker == [forwarded] && s.workers[w].process == Reading
    requires forwarded.id in s.handoffs
    ensures Enabled(s, WorkerHandle(w, answer, state))
    ensures Next(s, WorkerHandle(w, answer, state))
      == s.(workers := s.workers[w := s.workers[w].(toWorker := [], process := Answering(WorkerReply(forwarded, answer, state)),
                                                    taken := forwarded.id)],
            answers := s.answers[forwarded.id := answer], handled := s.handled + [s.handoffs[forwarded.id].origin])
  {
    hide WorkerReply;
    assert [forwarded][1..] == [];
  }

  lemma PassedAndHandled(s: State, c: nat, w: nat, request: Envelope, asked: string, answer: Answer, state: string)
    requires c in s.conns && s.conns[c].thread == Holding(request)
    requires w in s.workers && s.workers[w].open && s.workers[w].toWorker == [] && s.workers[w].lock == None
    requires s.workers[w].process == Reading && IsForWorker(request.messageType, request.action, asked)
    ensures var forwarded := Request(s.next, asked, request.action, request.content);
      var first, second := BrokerForward(c, w), WorkerHandle(w, answer, state);
      && Enabled(s, first) && Enabled(Next(s, first), second)
      && Next(Next(s, first), second)
         == With(s, c, s.conns[c].(thread := Awaiting(request, forwarded, w)), w,
                 s.workers[w].(lock := Some(c), process := Answering(WorkerReply(forwarded, answer, state)), taken := s.next))
              .(handoffs := s.handoffs[s.next := Handoff(request.id, w, forwarded)], next := s.next + 1,
                answers := s.answers[s.next := answer], handled := s.handled + [request.id])
  {
    hide WorkerReply, Next, Enabled, IsForWorker;
    var forwarded := Request(s.next, asked, request.action, request.content);
    PassedOn(s, c, w, request, asked);
    HandledOnce(Next(s, BrokerForward(c, w)), w, forwarded, answer, state);
  }

  /** Exactly these requests are for a worker. */
  lemma AskedAs(messageType: string, action: Option<string>, asked: string)
    ensures WorkerType(messageType, action) == Some(asked) <==> IsForWorker(messageType, action, asked)
  {
  }

  /** The worker's answer is sent, and taken by the broker. */
  lemma AnsweredToBroker(s: State, c: nat, w: nat, request: Envelope, forwarded: Envelope, reply: Envelope)
    requires c in s.conns && s.conns[c].thread == Awaiting(request, forwarded, w)
    requires w in s.workers && s.workers[w].open && s.workers[w].toBroker == [] && s.workers[w].process == Answering(reply)
    ensures var first, second := WorkerSend(w), BrokerReceive(c);
      && Enabled(s, first) && Enabled(Next(s, first), second)
      && Next(Next(s, first), second)
         == With(s, c, s.conns[c].(thread := Replying(BrokerReply(request, HandleVerdict(forwarded, Some(reply)).0))), w,
                 s.workers[w].(lock := None, process := Reading))
  {
    hide BrokerReply, HandleVerdict;
    assert [] + [reply] == [reply] && [reply][1..] == [];
  }

  /** The broker's answer is sent, and the client told. */
  lemma AnsweredToClient(s: State, c: nat, w: nat, request: Envelope, reply: Envelope)
    requires c in s.conns && w in s.workers && s.conns[c].thread == Replying(reply) && s.conns[c].open
    requires s.conns[c].toClient == [] && s.conns[c].waiting == Some(request)
    ensures var first, second := BrokerSend(c), ClientReceive(c);
      && Enabled(s, first) && Enabled(Next(s, first), second)
      && Next(Next(s, first), second)
         == With(s, c, s.conns[c].(thread := Idle, waiting := None), w, s.workers[w])
              .(verdicts := s.verdicts[request.id := ClientVerdict(request, Some(reply)).0])
  {
    hide ClientVerdict;
    assert [] + [reply] == [reply] && [reply][1..] == [];
    assert s.workers[w := s.workers[w]] == s.workers;
  }

  lemma EightSteps(s: State, steps: seq<Step>, s2: State, s4: State, s6: State, s8: State)
    requires |steps| == 8
    requires Enabled(s, steps[0]) && Enabled(Next(s, steps[0]), steps[1]) && Next(Next(s, steps[0]), steps[1]) == s2
    requires Enabled(s2, steps[2]) && Enabled(Next(s2, steps[2]), steps[3]) && Next(Next(s2, steps[2]), steps[3]) == s4
    requires Enabled(s4, steps[4]) && Enabled(Next(s4, steps[4]), steps[5]) && Next(Next(s4, steps[4]), steps[5]) == s6
    requires Enabled(s6, steps[6]) && Enabled(Next(s6, steps[6]), steps[7]) && Next(Next(s6, steps[6]), steps[7]) == s8
    ensures CanRun(s, steps) && Run(s, steps) == s8
  {
    hide Enabled, Next;
    TwoSteps(s6, steps[6..], s8);
    TwoSteps(s4, steps[4..], s6);
    TwoSteps(s2, steps[2..], s4);
    TwoSteps(s, steps, s2);
    assert steps[6..][2..] == [] && steps[4..][2..] == steps[6..] && steps[2..][2..] == steps[4..];
    assert CanRun(s8, []) && Run(s8, []) == s8;
  }

  lemma TwoSteps(s: State, steps: seq<Step>, t: State)
    requires |steps| >= 2
    requires Enabled(s, steps[0]) && Enabled(Next(s, steps[0]), steps[1]) && Next(Next(s, steps[0]), steps[1]) == t
    ensures CanRun(s, steps) <==> CanRun(t, steps[2..])
    ensures CanRun(s, steps) ==> Run(s, steps) == Run(t, steps[2..])
  {
    hide Enabled, Next;
    assert steps[1..][0] == steps[1] && steps[1..][1..] == steps[2..];
  }

  /** UNDISTURBED DELIVERY. From wherever nothing is under way, every request for a worker
      can go there and back: the worker is asked for just this, with the same action and
      content, and handles it once; the client is told the worker's answer; and nothing
      is under way again. */
  lemma UndisturbedDelivery(s: State, c: nat, w: nat, messageType: string, action: Option<string>, content: int,
                            asked: string, answer: Answer, state: string)
    requires AtEase(s, c, w) && IsForWorker(messageType, action, asked)
    ensures var steps := ThereAndBack(c, w, messageType, action, content, answer, state);
      && CanRun(s, steps)
      && var t := Run(s, steps);
      && AtEase(t, c, w) && t.next == s.next + 2
      && t.handoffs == s.handoffs[s.next + 1 := Handoff(s.next, w, Request(s.next + 1, asked, action, content))]
      && t.handled == s.handled + [s.next]
      && t.verdicts == s.verdicts[s.next := AsVerdict(answer)]
  {
    hide CanRun, Run, Enabled, Next, AsVerdict, WorkerReply, BrokerReply, HandleVerdict, ClientVerdict, WorkerType, IsForWorker;
    var steps := ThereAndBack(c, w, messageType, action, content, answer, state);
    var request, forwarded := Request(s.next, messageType, action, content), Request(s.next + 1, asked, action, content);
    var reply := WorkerReply(forwarded, answer, state);
    SentAndTaken(s, c, w, messageType, action, content);
    var s2 := Next(Next(s, steps[0]), steps[1]);
    PassedAndHandled(s2, c, w, request, asked, answer, state);
    var s4 := Next(Next(s2, steps[2]), steps[3]);
    AnsweredToBroker(s4, c, w, request, forwarded, reply);
    var s6 := Next(Next(s4, steps[4]), steps[5]);
    AskedAs(messageType, action, asked);
    AnswerArrives(request, forwarded, answer, state);
    AnsweredToClient(s6, c, w, request, s6.conns[c].thread.response);
    EightSteps(s, steps, s2, s4, s6, Next(Next(s6, steps[6]), steps[7]));
  }
}
