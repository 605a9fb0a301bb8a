/** The steps between broker and worker keep the delivery invariant, and what the
    invariant means for every run. */
module DeliveryHandoff {
  import opened Common
  import opened Outcomes
  import opened Delivery
  import opened DeliverySafety
  import opened DeliverySteps

  // Passing a request on

  predicate CanForward(s: State, c: nat, w: nat) {
    && c in s.conns && w in s.workers && s.conns[c].thread.Holding? && Forwardable(s.conns[c].thread.request)
  }

  /** What passing a request on changes, and that it changes nothing else. */
  lemma ForwardChanges(s: State, c: nat, w: nat, failed: bool, delivered: bool)
    requires CanForward(s, c, w)
    ensures var t := Forward(s, c, w, failed, delivered);
      var request := s.conns[c].thread.request;
      var forwarded := Forwarded(s.next, request);
      var conn, worker := s.conns[c], s.workers[w];
      && t == s.(conns := s.conns[c := t.conns[c]], workers := s.workers[w := t.workers[w]], next := s.next + 1,
                 handoffs := s.handoffs[s.next := Handoff(request.id, w, forwarded)])
      && t.conns[c] == conn.(thread := if failed then Replying(BrokerReply(request, HandleTransport(forwarded)))
                                       else Awaiting(request, forwarded, w))
      && t.workers[w].toWorker == (if delivered then worker.toWorker + [forwarded] else worker.toWorker)
      && t.workers[w] == worker.(toWorker := t.workers[w].toWorker, open := t.workers[w].open, lock := t.workers[w].lock)
  {
    hide WorkerType, HandleTransport, BrokerReply;
  }

  lemma NextIsFresh(s: State)
    requires Inv(s)
    ensures s.next !in s.handoffs && s.next !in s.answers
  {
    hide ConnInv, WorkerInv, VerdictInv, IssuesInv;
    forall i | i in s.handoffs ensures i < s.next {
      assert HandoffInv(s, i, s.handoffs[i]);
    }
  }

  /** The request is the client's, its thread has not let go of it, and no one
      passed it on before. */
  lemma HeldRequest(s: State, c: nat)
    requires Inv(s) && c in s.conns && s.conns[c].thread.Holding?
    ensures var request := s.conns[c].thread.request;
      Known(s, c, request) && request.id <= s.conns[c].taken && Passes(s, request.id) && !IsForwarded(s, request.id)
  {
    hide WorkerInv, VerdictInv, AnswersInv, HandoffsInv, TrueReply, Ascending;
    assert ConnInv(s, c, s.conns[c]);
  }

  lemma ForwardGrows(s: State, c: nat, w: nat, failed: bool, delivered: bool)
    requires Inv(s) && CanForward(s, c, w)
    ensures var t := Forward(s, c, w, failed, delivered);
      Grew(s, t, Some(s.conns[c].thread.request.id)) && IssuesInv(t)
  {
    hide ConnInv, WorkerInv, VerdictInv, AnswersInv, HandoffsInv, Forward, Forwarded, BrokerReply, HandleTransport,
      WorkerType;
    ForwardChanges(s, c, w, failed, delivered);
    NextIsFresh(s);
    var t := Forward(s, c, w, failed, delivered);
    assert t.conns.Keys == s.conns.Keys;
  }

  lemma ForwardHandoffs(s: State, c: nat, w: nat, failed: bool, delivered: bool)
    requires Inv(s) && CanForward(s, c, w)
    ensures HandoffsInv(Forward(s, c, w, failed, delivered))
  {
    hide ConnInv, WorkerInv, VerdictInv, AnswersInv, Forward, Forwarded, BrokerReply, HandleTransport, WorkerType;
    ForwardChanges(s, c, w, failed, delivered);
    NextIsFresh(s);
    HeldRequest(s, c);
    var t := Forward(s, c, w, failed, delivered);
    assert t.workers.Keys == s.workers.Keys && t.conns.Keys == s.conns.Keys;
    forall i | i in t.handoffs ensures HandoffInv(t, i, t.handoffs[i]) {
      if i != s.next { assert HandoffInv(s, i, s.handoffs[i]); }
    }
  }

  lemma ForwardAnswers(s: State, c: nat, w: nat, failed: bool, delivered: bool)
    requires Inv(s) && CanForward(s, c, w)
    ensures AnswersInv(Forward(s, c, w, failed, delivered))
  {
    hide ConnInv, WorkerInv, VerdictInv, HandoffsInv, IssuesInv, Forward, Forwarded, BrokerReply, HandleTransport,
      WorkerType;
    ForwardChanges(s, c, w, failed, delivered);
    NextIsFresh(s);
    var t := Forward(s, c, w, failed, delivered);
    assert t.workers.Keys == s.workers.Keys;
    HandledSame(s, t);
  }

  lemma HandledSame(s: State, t: State)
    requires t.answers == s.answers
    requires forall i <- s.answers :: i in s.handoffs && i in t.handoffs && t.handoffs[i] == s.handoffs[i]
    ensures forall r :: Handled(t, r) <==> Handled(s, r)
  {
  }

  lemma TransportReply(s: State, c: nat, conn: Conn, request: Envelope, id: nat)
    requires Known(s, c, request) && Through(conn, request.id) && Forwardable(request)
    ensures TrueReply(s, c, conn, BrokerReply(request, HandleTransport(Forwarded(id, request))))
  {
    hide WorkerType, UncertainCode, IsForwarded, HasAnswer, Through;
    HopsAgree(request.messageType, request.action);
    NoTypeIsError(request.messageType);
  }

  lemma ForwardConn(s: State, c: nat, w: nat, failed: bool, delivered: bool)
    requires Inv(s) && CanForward(s, c, w)
    ensures var t := Forward(s, c, w, failed, delivered);
      ConnInv(t, c, t.conns[c]) && forall r: nat :: Through(s.conns[c], r) ==> Through(t.conns[c], r)
  {
    hide WorkerInv, VerdictInv, AnswersInv, HandoffsInv, Forward, Forwarded, BrokerReply, HandleTransport, WorkerType,
      TrueReply, Ascending;
    ForwardChanges(s, c, w, failed, delivered);
    ForwardGrows(s, c, w, failed, delivered);
    HeldRequest(s, c);
    var t := Forward(s, c, w, failed, delivered);
    var conn, after := s.conns[c], t.conns[c];
    var request := conn.thread.request;
    assert ConnInv(s, c, conn);
    TransportReply(t, c, after, request, s.next);
    ForwardedId(s.next, request);
    forall i | 0 <= i < |conn.toClient| ensures conn.toClient[i].id != request.id {
      ReplyKnown(s, c, conn, conn.toClient[i]);
    }
    QueueCarry(s, t, Some(request.id), c, conn, after);
  }

  lemma ForwardWorker(s: State, c: nat, w: nat, failed: bool, delivered: bool)
    requires Inv(s) && CanForward(s, c, w)
    ensures var t := Forward(s, c, w, failed, delivered); WorkerInv(t, w, t.workers[w])
  {
    hide ConnInv, VerdictInv, AnswersInv, HandoffsInv, IssuesInv, Forward, Forwarded, BrokerReply, HandleTransport,
      WorkerType, TrueAnswer, Ascending;
    ForwardChanges(s, c, w, failed, delivered);
    ForwardGrows(s, c, w, failed, delivered);
    var t := Forward(s, c, w, failed, delivered);
    var worker, after := s.workers[w], t.workers[w];
    assert WorkerInv(s, w, worker);
    WorkerCarry(s, t, Some(s.conns[c].thread.request.id), w, worker);
    if delivered {
      ForwardedId(s.next, s.conns[c].thread.request);
      QueuedAreOld(s, w, worker);
      AscendingSnoc(worker.toWorker, worker.taken, Forwarded(s.next, s.conns[c].thread.request));
    }
  }

  lemma QueuedAreOld(s: State, w: nat, worker: Worker)
    requires HandoffsInv(s) && WorkerInv(s, w, worker)
    ensures forall i :: 0 <= i < |worker.toWorker| ==> worker.toWorker[i].id < s.next
  {
    forall i | 0 <= i < |worker.toWorker| ensures worker.toWorker[i].id < s.next {
      var e := worker.toWorker[i];
      assert HandoffInv(s, e.id, s.handoffs[e.id]);
    }
  }

  lemma AscendingSnoc(q: seq<Envelope>, above: int, last: Envelope)
    requires Ascending(q, above) && above < last.id && forall i :: 0 <= i < |q| ==> q[i].id < last.id
    ensures Ascending(q + [last], above)
  {
  }

  lemma ForwardedId(id: nat, request: Envelope)
    requires Forwardable(request)
    ensures Forwarded(id, request).id == id
  {
  }

  lemma ForwardKeeps(s: State, c: nat, w: nat, failed: bool, delivered: bool)
    requires Inv(s) && CanForward(s, c, w)
    ensures Inv(Forward(s, c, w, failed, delivered))
  {
    hide Inv, ConnInv, WorkerInv, VerdictInv, AnswersInv, HandoffsInv, IssuesInv, Forwarded, HandleVerdict, Passes,
      Grew, Local;
    var t := Forward(s, c, w, failed, delivered);
    ForwardGrows(s, c, w, failed, delivered);
    ForwardHandoffs(s, c, w, failed, delivered);
    ForwardAnswers(s, c, w, failed, delivered);
    ForwardConn(s, c, w, failed, delivered);
    ForwardWorker(s, c, w, failed, delivered);
    ForwardLocal(s, c, w, failed, delivered);
    HeldRequest(s, c);
    Keeps(s, t, Some(s.conns[c].thread.request.id), Some(c), Some(w));
  }

  lemma ForwardLocal(s: State, c: nat, w: nat, failed: bool, delivered: bool)
    requires CanForward(s, c, w)
    requires forall r: nat :: Through(s.conns[c], r) ==> Through(Forward(s, c, w, failed, delivered).conns[c], r)
    ensures Local(s, Forward(s, c, w, failed, delivered), Some(c), Some(w))
    ensures Forward(s, c, w, failed, delivered).verdicts == s.verdicts
  {
    hide Through, Forwarded, HandleVerdict, WorkerType;
    var t := Forward(s, c, w, failed, delivered);
    assert t.workers.Keys == s.workers.Keys && t.conns.Keys == s.conns.Keys;
  }

  // Taking a worker's answer

  /** What the broker makes of a worker's answer is true of the client's request. */
  lemma SettledReply(s: State, c: nat, conn: Conn, request: Envelope, forwarded: Envelope, response: Option<Envelope>)
    requires Known(s, c, request) && Through(conn, request.id) && Forwardable(request)
    requires forwarded.id in s.handoffs && s.handoffs[forwarded.id].origin == request.id
      && s.handoffs[forwarded.id].request == forwarded == Forwarded(forwarded.id, request)
    requires response.Some? ==> TrueAnswer(s, response.value)
    ensures TrueReply(s, c, conn, BrokerReply(request, HandleVerdict(forwarded, response).0))
  {
    hide WorkerType, UncertainCode, IsForwarded, Through, HandleTransport;
    TransportReply(s, c, conn, request, forwarded.id);
    NoTypeIsError(forwarded.messageType);
    NoTypeIsError(request.messageType);
    if response.Some? && response.value.id == forwarded.id {
      assert HasAnswer(s, request.id, AsVerdict(s.answers[forwarded.id]));
    }
  }

  predicate CanSettle(s: State, c: nat, response: Option<Envelope>) {
    && c in s.conns && s.conns[c].thread.Awaiting? && s.conns[c].thread.worker in s.workers
    && (response.Some? ==>
          var queue := s.workers[s.conns[c].thread.worker].toBroker;
          queue != [] && response.value == queue[0])
  }

  lemma SettleChanges(s: State, c: nat, response: Option<Envelope>)
    requires CanSettle(s, c, response)
    ensures var t := Settle(s, c, response);
      var conn := s.conns[c];
      var Awaiting(request, forwarded, w) := conn.thread;
      var worker := s.workers[w];
      && t == s.(conns := s.conns[c := t.conns[c]], workers := s.workers[w := t.workers[w]])
      && t.conns[c] == conn.(thread := Replying(BrokerReply(request, HandleVerdict(forwarded, response).0)))
      && t.workers[w] == worker.(toBroker := t.workers[w].toBroker, open := t.workers[w].open, lock := None)
      && t.workers[w].toBroker == if response.Some? then worker.toBroker[1..] else worker.toBroker
  {
    hide BrokerReply, HandleVerdict;
  }

  lemma SettleConn(s: State, c: nat, response: Option<Envelope>)
    requires Inv(s) && CanSettle(s, c, response)
    ensures var t := Settle(s, c, response);
      ConnInv(t, c, t.conns[c]) && forall r: nat :: Through(s.conns[c], r) ==> Through(t.conns[c], r)
  {
    hide WorkerInv, VerdictInv, AnswersInv, HandoffsInv, IssuesInv, Settle, Forwarded, BrokerReply, HandleVerdict,
      WorkerType, TrueReply, Ascending, TrueAnswer;
    SettleChanges(s, c, response);
    AwaitedRequest(s, c, response);
    var t := Settle(s, c, response);
    var conn, after := s.conns[c], t.conns[c];
    var request, forwarded := conn.thread.request, conn.thread.forwarded;
    assert ConnInv(s, c, conn);
    RecordGrows(s, t);
    SettledReply(s, c, conn, request, forwarded, response);
    var reply := BrokerReply(request, HandleVerdict(forwarded, response).0);
    ReplyKnown(s, c, conn, reply);
    ReplyCarry(s, t, None, c, conn, after, reply);
    RepliesKept(s, t, c, conn, after);
  }

  /** The request a thread waits for, and the answer that came. */
  lemma AwaitedRequest(s: State, c: nat, response: Option<Envelope>)
    requires Inv(s) && CanSettle(s, c, response)
    ensures var Awaiting(request, forwarded, w) := s.conns[c].thread;
      && Known(s, c, request) && Through(s.conns[c], request.id) && Forwardable(request)
      && forwarded.id in s.handoffs && s.handoffs[forwarded.id].origin == request.id
      && s.handoffs[forwarded.id].request == forwarded == Forwarded(forwarded.id, request)
      && (response.Some? ==> TrueAnswer(s, response.value))
  {
    hide VerdictInv, AnswersInv, Forwarded, WorkerType, TrueReply, Ascending, TrueAnswer;
    var Awaiting(request, forwarded, w) := s.conns[c].thread;
    assert ConnInv(s, c, s.conns[c]) && WorkerInv(s, w, s.workers[w]);
    assert HandoffInv(s, forwarded.id, s.handoffs[forwarded.id]);
  }

  lemma SettleWorker(s: State, c: nat, response: Option<Envelope>)
    requires Inv(s) && CanSettle(s, c, response)
    ensures var t := Settle(s, c, response);
      var w := s.conns[c].thread.worker;
      WorkerInv(t, w, t.workers[w]) && t.workers[w].taken == s.workers[w].taken
  {
    hide ConnInv, VerdictInv, AnswersInv, HandoffsInv, IssuesInv, Settle, BrokerReply, HandleVerdict, Ascending,
      TrueAnswer;
    SettleChanges(s, c, response);
    var t := Settle(s, c, response);
    var w := s.conns[c].thread.worker;
    var worker, after := s.workers[w], t.workers[w];
    RecordGrows(s, t);
    assert WorkerInv(s, w, worker);
    WorkerCarry(s, t, None, w, worker);
    assert forall i :: 0 <= i < |after.toBroker| ==> after.toBroker[i] == worker.toBroker[if response.Some? then i + 1 else i];
  }

  lemma SettleRecord(s: State, c: nat, response: Option<Envelope>)
    requires Inv(s) && CanSettle(s, c, response)
    ensures var t := Settle(s, c, response); IssuesInv(t) && AnswersInv(t)
  {
    hide ConnInv, WorkerInv, VerdictInv, HandoffsInv, Settle, BrokerReply, HandleVerdict;
    SettleChanges(s, c, response);
    var t := Settle(s, c, response);
    assert t.workers.Keys == s.workers.Keys && t.conns.Keys == s.conns.Keys;
    forall r ensures Handled(t, r) <==> Handled(s, r) {}
  }

  lemma SettleKeeps(s: State, c: nat, response: Option<Envelope>)
    requires Inv(s) && CanSettle(s, c, response)
    ensures Inv(Settle(s, c, response))
  {
    hide ConnInv, WorkerInv, VerdictInv, AnswersInv, HandoffsInv, IssuesInv, Settle, BrokerReply, HandleVerdict,
      Through;
    SettleChanges(s, c, response);
    SettleConn(s, c, response);
    SettleWorker(s, c, response);
    SettleRecord(s, c, response);
    var t := Settle(s, c, response);
    RecordGrows(s, t);
    var w := s.conns[c].thread.worker;
    assert t.workers.Keys == s.workers.Keys && t.conns.Keys == s.conns.Keys;
    HandoffsCarry(s, t, Some(c), Some(w));
    Keeps(s, t, None, Some(c), Some(w));
  }

  // Handling

  lemma HandleFresh(s: State, w: nat)
    requires Inv(s) && w in s.workers && s.workers[w].toWorker != []
    ensures var request := s.workers[w].toWorker[0];
      && request.id in s.handoffs && s.handoffs[request.id].worker == w && s.handoffs[request.id].request == request
      && request.id !in s.answers && s.workers[w].taken < request.id < s.next
      && !Handled(s, s.handoffs[request.id].origin)
  {
    hide ConnInv, VerdictInv, IssuesInv;
    assert WorkerInv(s, w, s.workers[w]);
    var request := s.workers[w].toWorker[0];
    assert HandoffInv(s, request.id, s.handoffs[request.id]);
  }

  lemma HandledAnswers(s: State, w: nat, answer: Answer, state: string)
    requires Inv(s) && w in s.workers && s.workers[w].toWorker != []
    ensures AnswersInv(Handle(s, w, answer, state)) && Grew(s, Handle(s, w, answer, state), None)
  {
    hide ConnInv, WorkerInv, VerdictInv, IssuesInv, HandoffsInv, WorkerReply;
    HandleFresh(s, w);
    var t := Handle(s, w, answer, state);
    var request := s.workers[w].toWorker[0];
    var origin := s.handoffs[request.id].origin;
    assert t.workers.Keys == s.workers.Keys && t.handled == s.handled + [origin];
    assert t.answers == s.answers[request.id := answer] && t.handoffs == s.handoffs;
    assert t.workers[w].taken == request.id;
    HandledMore(s, t, request.id, answer);
    NoRepeat(s.handled, origin);
  }

  lemma HandledMore(s: State, t: State, i: nat, answer: Answer)
    requires i in s.handoffs && t.handoffs == s.handoffs && t.answers == s.answers[i := answer]
    ensures forall r :: Handled(t, r) <==> Handled(s, r) || r == s.handoffs[i].origin
  {
    forall r ensures Handled(t, r) <==> Handled(s, r) || r == s.handoffs[i].origin {
      assert i in t.answers;
    }
  }

  lemma NoRepeat(q: seq<nat>, x: nat)
    requires (forall i, j :: 0 <= i < j < |q| ==> q[i] != q[j]) && x !in q
    ensures forall i, j :: 0 <= i < j < |q + [x]| ==> (q + [x])[i] != (q + [x])[j]
  {
  }

  lemma HandledWorker(s: State, w: nat, answer: Answer, state: string)
    requires Inv(s) && w in s.workers && s.workers[w].toWorker != []
    ensures var t := Handle(s, w, answer, state); WorkerInv(t, w, t.workers[w])
  {
    hide ConnInv, VerdictInv, AnswersInv, HandoffsInv, IssuesInv;
    HandleFresh(s, w);
    var t := Handle(s, w, answer, state);
    var worker := s.workers[w];
    assert WorkerInv(s, w, worker);
    assert forall i :: 0 <= i < |worker.toBroker| ==> TrueAnswer(t, worker.toBroker[i]);
    AnswerIsTrue(t, worker.toWorker[0], answer, state);
  }

  lemma AnswerIsTrue(t: State, request: Envelope, answer: Answer, state: string)
    requires request.id in t.answers && t.answers[request.id] == answer
    requires request.id in t.handoffs && t.handoffs[request.id].request == request
    ensures TrueAnswer(t, WorkerReply(request, answer, state))
  {
  }

  lemma HandleKeeps(s: State, w: nat, answer: Answer, state: string)
    requires Inv(s) && w in s.workers && s.workers[w].toWorker != []
    ensures Inv(Handle(s, w, answer, state))
  {
    hide ConnInv, WorkerInv, VerdictInv, AnswersInv, HandoffsInv, WorkerReply, Through;
    var t := Handle(s, w, answer, state);
    HandleFresh(s, w);
    HandledAnswers(s, w, answer, state);
    HandledWorker(s, w, answer, state);
    assert t.workers.Keys == s.workers.Keys;
    HandoffsCarry(s, t, None, Some(w));
    Keeps(s, t, None, None, Some(w));
  }

  // Every run

  lemma StepKeeps(s: State, step: Step)
    requires Inv(s) && Enabled(s, step)
    ensures Inv(Next(s, step))
  {
    hide Inv, Send, Conclude, Take, Forward, Settle, Handle;
    match step
    case ClientSend(c, messageType, action, content) =>
      SendKeeps(s, c, Request(s.next, messageType, action, content), false, true);
    case ClientSendFails(c, messageType, action, content, delivered) =>
      SendKeeps(s, c, Request(s.next, messageType, action, content), true, delivered);
    case ClientClosed(c) => ClosedKeeps(s, c);
    case ClientReceive(c) => ConcludeKeeps(s, c, Some(s.conns[c].toClient[0]));
    case ClientGivesUp(c) => ConcludeKeeps(s, c, None);
    case BrokerTake(c) => TakeKeeps(s, c);
    case BrokerAnswer(c, content) =>
      var request := s.conns[c].thread.request;
      ReplyKeeps(s, c, ResultReply(request.id, request.messageType, content));
    case BrokerRefuse(c, code) => ReplyKeeps(s, c, ErrorReply(s.conns[c].thread.request.id, code, Missing));
    case BrokerForward(c, w) => ForwardKeeps(s, c, w, false, true);
    case BrokerForwardFails(c, w, delivered) => ForwardKeeps(s, c, w, true, delivered);
    case BrokerReceive(c) => SettleKeeps(s, c, Some(s.workers[s.conns[c].thread.worker].toBroker[0]));
    case BrokerGivesUp(c) => SettleKeeps(s, c, None);
    case BrokerSend(c) => SendReplyKeeps(s, c);
    case BrokerThreadDies(c) => ThreadDiesKeeps(s, c);
    case ClientDisconnects(c) => DisconnectKeeps(s, c);
    case WorkerHandle(w, answer, state) => HandleKeeps(s, w, answer, state);
    case WorkerSend(w) => WorkerSendKeeps(s, w);
    case WorkerDies(w) => WorkerDiesKeeps(s, w);
    case WorkerDisconnected(w) => WorkerDisconnectedKeeps(s, w);
  }

  lemma {:induction false} RunKeeps(s: State, steps: seq<Step>)
    requires Inv(s) && CanRun(s, steps)
    ensures Inv(Run(s, steps))
    decreases |steps|
  {
    hide Inv, Enabled, Next;
    if steps != [] {
      StepKeeps(s, steps[0]);
      RunKeeps(Next(s, steps[0]), steps[1..]);
    }
  }

  /** A worker handled the client's request `r`, with the content it was sent with. */
  ghost predicate HandledAs(s: State, r: nat, content: int) {
    exists i :: i in s.answers && i in s.handoffs && s.handoffs[i].origin == r && s.handoffs[i].request.content == content
  }

  /** DELIVERY. In every run from the start, whatever is lost, late or dead: no request
      is handled twice; what was handled is a request that was sent, as it was sent;
      a client told of success has had its request handled, exactly once, and is told
      the worker's answer, but for a rediscovery that the broker answered itself and no
      worker handled; a client whose uncertain request was handled is told the
      worker's own answer or error, or its uncertain code, and so for a command, an edit,
      a terminal's or an elevation's action that just this outcome is unknown; and a
      request that a closed client turned away was never handled. */
  lemma EveryRun(s: State, steps: seq<Step>, r: nat)
    requires IsInitial(s) && CanRun(s, steps)
    ensures var t := Run(s, steps);
      && (forall i, j :: 0 <= i < j < |t.handled| ==> t.handled[i] != t.handled[j])
      && (r in t.handled ==> r in t.issued && Forwardable(t.issued[r].request) && HandledAs(t, r, t.issued[r].request.content))
      && (r in t.verdicts && r in t.issued && Forwardable(t.issued[r].request) ==>
            && (t.verdicts[r].Success? ==>
                  (r in t.handled && HasAnswer(t, r, t.verdicts[r]))
                  || (t.issued[r].request.messageType == "session.rediscover" && r !in t.handled))
            && (Uncertain(t.issued[r].request).Some? && r in t.handled ==>
                  HasAnswer(t, r, t.verdicts[r]) || t.verdicts[r] == Failure(Uncertain(t.issued[r].request).value)))
      && (r in t.verdicts && r in t.handled ==> ToldOfEffect(t, r))
      && (r in t.verdicts && r !in t.issued ==> t.verdicts[r] == Failure("broker_unavailable") && r !in t.handled)
  {
    hide Inv, IsInitial, Run, CanRun, WorkerType, UncertainCode, HasAnswer, HandledAs, ToldOfEffect;
    InitialInv(s);
    RunKeeps(s, steps);
    var t := Run(s, steps);
    HandledOnce(t);
    if r in t.handled {
      HandledRequest(t, r);
    }
    if r in t.verdicts {
      ToldTruly(t, r);
      if r in t.handled { EffectTold(t, r); }
    }
  }

  /** What the client of a handled request with an effect is told: what its worker
      answered, or that the outcome of just this effect is unknown. */
  ghost predicate ToldOfEffect(t: State, r: nat)
    requires r in t.verdicts && r in t.handled
  {
    r in t.issued &&
    var request, v := t.issued[r].request, t.verdicts[r];
    && (request.messageType == "session.exec" ==> HasAnswer(t, r, v) || v == Failure("outcome_unknown"))
    && (request.messageType == "session.file_edit" ==> HasAnswer(t, r, v) || v == Failure("file_outcome_unknown"))
    && (request.messageType == "session.terminal"
        && request.action in {Some("start"), Some("write"), Some("interrupt"), Some("resize"), Some("close")} ==>
          HasAnswer(t, r, v) || v == Failure("outcome_unknown"))
    && (request.messageType == "session.elevation" && request.action in {Some("acquire"), Some("release"), Some("exec")} ==>
          HasAnswer(t, r, v) || v == Failure("elevation_outcome_unknown"))
  }

  lemma EffectTold(t: State, r: nat)
    requires r in t.verdicts && r in t.handled && r in t.issued
    requires Uncertain(t.issued[r].request).Some? ==>
      HasAnswer(t, r, t.verdicts[r]) || t.verdicts[r] == Failure(Uncertain(t.issued[r].request).value)
    ensures ToldOfEffect(t, r)
  {
    hide HasAnswer, UncertainCode;
    var request := t.issued[r].request;
    if IsRequest(request.messageType) && KnownAction(request.messageType, request.action) {
      EffectsAreUncertain(request.messageType, request.action);
    }
  }

  lemma HandledOnce(t: State)
    requires Inv(t)
    ensures forall i, j :: 0 <= i < j < |t.handled| ==> t.handled[i] != t.handled[j]
  {
    hide ConnInv, WorkerInv, VerdictInv, IssuesInv, HandoffsInv;
  }

  /** What a client is told in a state that keeps the invariant. */
  lemma ToldTruly(t: State, r: nat)
    requires Inv(t) && r in t.verdicts
    ensures r in t.issued && Forwardable(t.issued[r].request) ==>
      && (t.verdicts[r].Success? ==>
            (r in t.handled && HasAnswer(t, r, t.verdicts[r]))
            || (t.issued[r].request.messageType == "session.rediscover" && r !in t.handled))
      && (Uncertain(t.issued[r].request).Some? && r in t.handled ==>
            HasAnswer(t, r, t.verdicts[r]) || t.verdicts[r] == Failure(Uncertain(t.issued[r].request).value))
    ensures r !in t.issued ==> t.verdicts[r] == Failure("broker_unavailable") && r !in t.handled
  {
    hide ConnInv, WorkerInv, WorkerType, UncertainCode, Through;
    assert VerdictInv(t, r, t.verdicts[r]);
    if r in t.handled {
      HandledRequest(t, r);
    }
  }

  lemma HandledRequest(t: State, r: nat)
    requires Inv(t) && r in t.handled
    ensures r in t.issued && Forwardable(t.issued[r].request) && IsForwarded(t, r)
    ensures HandledAs(t, r, t.issued[r].request.content)
  {
    hide ConnInv, WorkerInv, VerdictInv, IssuesInv, WorkerType;
    assert Handled(t, r);
    var i :| i in t.answers && i in t.handoffs && t.handoffs[i].origin == r;
    assert HandoffInv(t, i, t.handoffs[i]);
  }
}
