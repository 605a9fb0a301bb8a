/** Every step of the delivery protocol keeps its invariant. */
module DeliverySteps {
  import opened Common
  import opened Outcomes
  import opened Delivery
  import opened DeliverySafety

  lemma RecordGrows(s: State, t: State)
    requires t.next >= s.next && t.issued == s.issued && t.handoffs == s.handoffs && t.answers == s.answers
    ensures Grew(s, t, None)
  {
  }

  /** Steps that only touch one connection. */
  lemma ConnStep(s: State, c: nat, conn: Conn)
    requires Inv(s) && c in s.conns
    requires forall r: nat :: Through(s.conns[c], r) ==> Through(conn, r)
    requires ConnInv(SetConn(s, c, conn), c, conn)
    ensures Inv(SetConn(s, c, conn))
  {
    hide ConnInv, WorkerInv, VerdictInv, AnswersInv, HandoffsInv, Through;
    var t := SetConn(s, c, conn);
    RecordGrows(s, t);
    assert t.conns.Keys == s.conns.Keys;
    HandoffsCarry(s, t, Some(c), None);
    AnswersCarry(s, t, None, Some(c), None);
    Keeps(s, t, None, Some(c), None);
  }

  /** Steps that only touch one worker. */
  lemma WorkerStep(s: State, w: nat, worker: Worker)
    requires Inv(s) && w in s.workers && worker.taken >= s.workers[w].taken
    requires WorkerInv(SetWorker(s, w, worker), w, worker)
    ensures Inv(SetWorker(s, w, worker))
  {
    hide ConnInv, WorkerInv, VerdictInv, HandoffsInv, IssuesInv, Through;
    var t := SetWorker(s, w, worker);
    RecordGrows(s, t);
    assert t.workers.Keys == s.workers.Keys;
    HandoffsCarry(s, t, None, Some(w));
    AnswersKept(s, w, worker);
    Keeps(s, t, None, None, Some(w));
  }

  lemma AnswersKept(s: State, w: nat, worker: Worker)
    requires Inv(s) && w in s.workers && worker.taken >= s.workers[w].taken
    ensures AnswersInv(SetWorker(s, w, worker)) && IssuesInv(SetWorker(s, w, worker))
  {
    hide ConnInv, WorkerInv, VerdictInv, HandoffsInv, Through;
    var t := SetWorker(s, w, worker);
    forall r ensures Handled(t, r) <==> Handled(s, r) {}
  }

  /** A reply that is true for one shape of a connection is true for another. */
  lemma RepliesKept(s: State, t: State, c: nat, conn: Conn, after: Conn)
    requires Inv(s) && Grew(s, t, None) && ConnInv(s, c, conn)
    requires forall r: nat :: Through(conn, r) ==> Through(after, r)
    ensures forall i :: 0 <= i < |conn.toClient| ==> TrueReply(t, c, after, conn.toClient[i])
  {
    hide TrueReply, Through, Ascending, VerdictInv, WorkerInv, HandoffsInv, AnswersInv;
    QueueCarry(s, t, None, c, conn, after);
  }

  lemma TakeKeeps(s: State, c: nat)
    requires Inv(s) && Enabled(s, BrokerTake(c))
    ensures Inv(Take(s, c))
  {
    hide WorkerInv, VerdictInv, AnswersInv, Fits;
    var conn := s.conns[c];
    var t := Take(s, c);
    var after := t.conns[c];
    var request := conn.toBroker[0];
    assert ConnInv(s, c, conn);
    assert after == conn.(thread := Holding(request), taken := request.id, toBroker := conn.toBroker[1..]);
    NotYetPassed(s, c, request);
    RecordGrows(s, t);
    RepliesKept(s, t, c, conn, after);
    TakeQueue(s, c, conn);
    assert t == SetConn(s, c, after);
    TakenConn(s, t, c, conn, after);
    ConnStep(s, c, after);
  }

  lemma TakenConn(s: State, t: State, c: nat, conn: Conn, after: Conn)
    requires Inv(s) && ConnInv(s, c, conn) && t == SetConn(s, c, after) && conn.toBroker != []
    requires after == conn.(thread := Holding(conn.toBroker[0]), taken := conn.toBroker[0].id, toBroker := conn.toBroker[1..])
    requires !IsForwarded(s, conn.toBroker[0].id)
    requires Ascending(after.toBroker, after.taken)
    requires forall i :: 0 <= i < |conn.toClient| ==> TrueReply(t, c, after, conn.toClient[i])
    ensures ConnInv(t, c, after)
  {
    hide WorkerInv, VerdictInv, AnswersInv, HandoffsInv, TrueReply, Ascending;
    var request := conn.toBroker[0];
    assert Known(s, c, request);
    assert Known(t, c, request);
    assert IsForwarded(t, request.id) <==> IsForwarded(s, request.id);
    forall i | 0 <= i < |after.toBroker| ensures Known(t, c, after.toBroker[i]) {
      assert after.toBroker[i] == conn.toBroker[i + 1];
    }
  }

  lemma TakeQueue(s: State, c: nat, conn: Conn)
    requires Ascending(conn.toBroker, conn.taken) && conn.toBroker != []
    ensures Ascending(conn.toBroker[1..], conn.toBroker[0].id) && conn.toBroker[0].id > conn.taken
  {
  }

  /** What still waits in a connection's queue was never passed on. */
  lemma NotYetPassed(s: State, c: nat, request: Envelope)
    requires Inv(s) && c in s.conns && Known(s, c, request) && request.id > s.conns[c].taken
    ensures !IsForwarded(s, request.id)
  {
    hide WorkerInv, VerdictInv, AnswersInv, ConnInv, Fits;
    forall i | i in s.handoffs ensures s.handoffs[i].origin != request.id {
      assert HandoffInv(s, i, s.handoffs[i]);
    }
  }

  /** The broker answers a request that it holds, itself or with a refusal: nothing
      was passed on, and nothing will be. */
  lemma ReplyKeeps(s: State, c: nat, response: Envelope)
    requires Inv(s) && c in s.conns && s.conns[c].thread.Holding?
    requires var request := s.conns[c].thread.request;
      response.id == request.id
      && ((response.messageType == "error" && response.code.Text?)
          || (MayAnswer(request) && response == ResultReply(request.id, request.messageType, response.content)))
    ensures Inv(SetConn(s, c, s.conns[c].(thread := Replying(response))))
  {
    hide WorkerInv, VerdictInv, AnswersInv, HandoffsInv, UncertainCode, WorkerType;
    var conn := s.conns[c];
    var after := conn.(thread := Replying(response));
    var t := SetConn(s, c, after);
    assert ConnInv(s, c, conn);
    RecordGrows(s, t);
    RepliesKept(s, t, c, conn, after);
    NoTypeIsError(conn.thread.request.messageType);
    assert IsForwarded(t, response.id) <==> IsForwarded(s, response.id);
    assert TrueReply(t, c, after, response);
    ConnStep(s, c, after);
  }

  lemma SendReplyKeeps(s: State, c: nat)
    requires Inv(s) && Enabled(s, BrokerSend(c))
    ensures Inv(Next(s, BrokerSend(c)))
  {
    hide WorkerInv, VerdictInv, AnswersInv, HandoffsInv, Fits;
    var conn := s.conns[c];
    var response := conn.thread.response;
    var after := conn.(toClient := conn.toClient + [response], thread := Idle);
    var t := SetConn(s, c, after);
    assert ConnInv(s, c, conn);
    RecordGrows(s, t);
    RepliesKept(s, t, c, conn, after);
    ReplyKnown(s, c, conn, response);
    ReplyCarry(s, t, None, c, conn, after, response);
    ConnStep(s, c, after);
  }

  lemma DisconnectKeeps(s: State, c: nat)
    requires Inv(s) && c in s.conns
    ensures Inv(Next(s, ClientDisconnects(c)))
  {
    hide WorkerInv, VerdictInv, AnswersInv, HandoffsInv, Fits;
    var conn := s.conns[c];
    var after := conn.(open := false);
    var t := SetConn(s, c, after);
    assert ConnInv(s, c, conn);
    RecordGrows(s, t);
    RepliesKept(s, t, c, conn, after);
    SentThread(s, t, c, conn, after);
    ConnStep(s, c, after);
  }

  lemma ThreadDiesKeeps(s: State, c: nat)
    requires Inv(s) && c in s.conns
    ensures Inv(Next(s, BrokerThreadDies(c)))
  {
    hide WorkerInv, VerdictInv, AnswersInv, HandoffsInv, Fits;
    var conn := s.conns[c];
    var after := conn.(thread := Gone);
    var t := SetConn(s, c, after);
    assert ConnInv(s, c, conn);
    RecordGrows(s, t);
    RepliesKept(s, t, c, conn, after);
    ConnStep(s, c, after);
  }

  lemma WorkerSendKeeps(s: State, w: nat)
    requires Inv(s) && Enabled(s, WorkerSend(w))
    ensures Inv(Next(s, WorkerSend(w)))
  {
    hide ConnInv, VerdictInv, AnswersInv, HandoffsInv;
    var worker := s.workers[w];
    assert WorkerInv(s, w, worker);
    WorkerStep(s, w, worker.(toBroker := worker.toBroker + [worker.process.response], process := Reading));
  }

  lemma WorkerDiesKeeps(s: State, w: nat)
    requires Inv(s) && w in s.workers
    ensures Inv(Next(s, WorkerDies(w)))
  {
    hide ConnInv, VerdictInv, AnswersInv, HandoffsInv, IssuesInv, TrueAnswer, Ascending, Enabled;
    var worker := s.workers[w];
    assert WorkerInv(s, w, worker);
    var after := worker.(process := Dead);
    RecordGrows(s, SetWorker(s, w, after));
    WorkerCarry(s, SetWorker(s, w, after), None, w, worker);
    WorkerStep(s, w, after);
  }

  lemma WorkerDisconnectedKeeps(s: State, w: nat)
    requires Inv(s) && w in s.workers
    ensures Inv(Next(s, WorkerDisconnected(w)))
  {
    hide ConnInv, VerdictInv, AnswersInv, HandoffsInv, IssuesInv, TrueAnswer, Ascending, Enabled;
    var worker := s.workers[w];
    assert WorkerInv(s, w, worker);
    var after := worker.(open := false);
    RecordGrows(s, SetWorker(s, w, after));
    WorkerCarry(s, SetWorker(s, w, after), None, w, worker);
    WorkerStep(s, w, after);
  }

  // Steps that add to the record

  lemma ClosedKeeps(s: State, c: nat)
    requires Inv(s) && Enabled(s, ClientClosed(c))
    ensures Inv(Next(s, ClientClosed(c)))
  {
    hide ConnInv, WorkerInv, AnswersInv, HandoffsInv, Fits, Through;
    var t := Next(s, ClientClosed(c));
    RecordGrows(s, t);
    HandoffsCarry(s, t, None, None);
    AnswersCarry(s, t, None, None, None);
    assert VerdictInv(t, s.next, Failure("broker_unavailable"));
    Keeps(s, t, None, None, None);
  }

  lemma TransportFits(s: State, request: Envelope)
    ensures Fits(s, request, ClientTransport(request))
  {
    hide HasAnswer, IsForwarded, WorkerType, UncertainCode;
  }

  lemma SentIssues(s: State, c: nat, request: Envelope, failed: bool, delivered: bool)
    requires Inv(s) && c in s.conns && request.id == s.next
    ensures IssuesInv(Send(s, c, request, failed, delivered))
    ensures Grew(s, Send(s, c, request, failed, delivered), None)
  {
    hide ConnInv, WorkerInv, AnswersInv, VerdictInv;
    var t := Send(s, c, request, failed, delivered);
    assert t.conns.Keys == s.conns.Keys;
    assert s.next !in s.issued;
  }

  /** Nothing in the record has the next id yet. */
  lemma SentConn(s: State, c: nat, request: Envelope, failed: bool, delivered: bool)
    requires Inv(s) && c in s.conns && request.id == s.next
    ensures var t := Send(s, c, request, failed, delivered); ConnInv(t, c, t.conns[c])
  {
    hide WorkerInv, VerdictInv, AnswersInv, HandoffsInv, IssuesInv, TrueReply, ClientTransport, ThreadInv, Through,
      Ascending;
    var t := Send(s, c, request, failed, delivered);
    var conn, after := s.conns[c], t.conns[c];
    assert ConnInv(s, c, conn);
    SentIssues(s, c, request, failed, delivered);
    SameTaken(conn, after);
    RepliesKept(s, t, c, conn, after);
    SentQueue(s, t, c, conn, request);
    SentThread(s, t, c, conn, after);
  }

  lemma SentQueue(s: State, t: State, c: nat, conn: Conn, request: Envelope)
    requires IssuesInv(s) && Grew(s, t, None) && request.id == s.next && conn.taken < s.next && Known(t, c, request)
    requires Ascending(conn.toBroker, conn.taken) && forall i :: 0 <= i < |conn.toBroker| ==> Known(s, c, conn.toBroker[i])
    ensures Ascending(conn.toBroker + [request], conn.taken)
    ensures forall i :: 0 <= i < |conn.toBroker + [request]| ==> Known(t, c, (conn.toBroker + [request])[i])
    ensures forall i :: 0 <= i < |conn.toBroker| ==> Known(t, c, conn.toBroker[i])
  {
    assert forall i :: 0 <= i < |conn.toBroker| ==> conn.toBroker[i].id in s.issued;
  }

  lemma SentThread(s: State, t: State, c: nat, conn: Conn, after: Conn)
    requires IssuesInv(s) && Grew(s, t, None) && ThreadInv(s, c, conn)
    requires after.thread == conn.thread && after.taken == conn.taken
    ensures ThreadInv(t, c, after)
  {
    hide TrueReply;
    match conn.thread
    case Replying(response) => ReplyKnown(s, c, conn, response); ReplyCarry(s, t, None, c, conn, after, response);
    case Holding(request) => assert IsForwarded(t, request.id) ==> IsForwarded(s, request.id);
    case _ =>
  }

  lemma SendKeeps(s: State, c: nat, request: Envelope, failed: bool, delivered: bool)
    requires Inv(s) && c in s.conns && request.id == s.next
    ensures Inv(Send(s, c, request, failed, delivered))
  {
    hide ConnInv, WorkerInv, AnswersInv, HandoffsInv, IssuesInv, Fits, ClientTransport;
    var t := Send(s, c, request, failed, delivered);
    SentIssues(s, c, request, failed, delivered);
    SentConn(s, c, request, failed, delivered);
    assert t.conns.Keys == s.conns.Keys;
    HandoffsCarry(s, t, Some(c), None);
    AnswersCarry(s, t, None, Some(c), None);
    TransportFits(t, request);
    Keeps(s, t, None, Some(c), None);
  }

  /** A client is told what the true reply in front of it says. */
  lemma VerdictFits(s: State, c: nat, conn: Conn, request: Envelope, response: Envelope)
    requires Known(s, c, request) && TrueReply(s, c, conn, response)
    ensures var v := ClientVerdict(request, Some(response)).0;
      Fits(s, request, v) && (Through(conn, request.id) || v == ClientTransport(request))
  {
    hide Fits, ClientTransport, Through;
    TransportFits(s, request);
  }

  lemma ConcludeKeeps(s: State, c: nat, response: Option<Envelope>)
    requires Inv(s) && c in s.conns && s.conns[c].waiting.Some?
    requires response.Some? ==> s.conns[c].toClient != [] && response.value == s.conns[c].toClient[0]
    ensures Inv(Conclude(s, c, response))
  {
    hide WorkerInv, AnswersInv, HandoffsInv, Fits, ClientTransport, TrueReply, Ascending, ClientVerdict, Through;
    var t := Conclude(s, c, response);
    var conn, after, request := s.conns[c], t.conns[c], s.conns[c].waiting.value;
    assert ConnInv(s, c, conn);
    assert after == conn.(toClient := after.toClient, open := after.open, waiting := None);
    RecordGrows(s, t);
    assert t.conns.Keys == s.conns.Keys;
    SameTaken(conn, after);
    RepliesKept(s, t, c, conn, after);
    SentThread(s, t, c, conn, after);
    ConcludedVerdict(s, c, response);
    ConcludedRecord(s, t, request.id, c, after);
    var v := ClientVerdict(request, response).0;
    FitsCarry(s, t, None, request, v);
    assert VerdictInv(t, request.id, v);
    assert ConnInv(t, c, after) by {
      forall i | 0 <= i < |after.toClient| ensures TrueReply(t, c, after, after.toClient[i]) {
        assert after.toClient[i] == conn.toClient[if response.Some? then i + 1 else i];
      }
    }
    HandoffsCarry(s, t, Some(c), None);
    AnswersCarry(s, t, None, Some(c), None);
    Keeps(s, t, None, Some(c), None);
  }

  lemma SameTaken(conn: Conn, after: Conn)
    requires after.thread == conn.thread && after.taken == conn.taken
    ensures forall r: nat :: Through(conn, r) ==> Through(after, r)
  {
  }

  lemma ConcludedVerdict(s: State, c: nat, response: Option<Envelope>)
    requires Inv(s) && c in s.conns && s.conns[c].waiting.Some?
    requires response.Some? ==> s.conns[c].toClient != [] && response.value == s.conns[c].toClient[0]
    ensures var request := s.conns[c].waiting.value;
      var v := ClientVerdict(request, response).0;
      Known(s, c, request) && Fits(s, request, v) && (Through(s.conns[c], request.id) || v == ClientTransport(request))
  {
    hide WorkerInv, AnswersInv, HandoffsInv, Fits, ClientTransport, TrueReply, Ascending, Through;
    var conn := s.conns[c];
    assert ConnInv(s, c, conn);
    if response.Some? {
      VerdictFits(s, c, conn, conn.waiting.value, response.value);
    } else {
      TransportFits(s, conn.waiting.value);
    }
  }

  lemma ConcludedRecord(s: State, t: State, r: nat, c: nat, after: Conn)
    requires IssuesInv(s) && t.issued == s.issued && t.next == s.next && t.unsent == s.unsent && t.conns.Keys == s.conns.Keys
    ensures IssuesInv(t)
  {
  }
}
