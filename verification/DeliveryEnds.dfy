/** The code at each end of a connection: a client's call, the broker's call to a
    worker, and the worker's loop. */
module DeliveryEnds {
  import opened Common
  import opened Outcomes

  /** One end of a pipe. What sending and receiving meet is an oracle; `sent` records
      every message whose sending was tried. */
  class Connection {
    const world: nat -> Option<Envelope>
    const delivers: nat -> bool
    var moment: nat
    var open: bool
    ghost var sent: seq<Envelope>

    constructor (world: nat -> Option<Envelope>, delivers: nat -> bool)
      ensures open && sent == []
    {
      this.world, this.delivers, moment, open, sent := world, delivers, 0, true, [];
    }

    method Send(message: Envelope) returns (ok: bool)
      modifies this
      ensures open == old(open) && ok == (old(open) && delivers(old(moment)))
      ensures moment == old(moment) + if old(open) then 1 else 0
      ensures sent == old(sent) + if old(open) then [message] else []
    {
      if !open {
        return false;
      }
      sent := sent + [message];
      ok := delivers(moment);
      moment := moment + 1;
    }

    /** A receive that fails closes the connection. */
    method Receive() returns (message: Option<Envelope>)
      modifies this
      ensures sent == old(sent)
      ensures open == (old(open) && message.Some?) && message == if old(open) then world(old(moment)) else None
    {
      if !open {
        return None;
      }
      message := world(moment);
      moment := moment + 1;
      open := message.Some?;
    }

    method Close()
      modifies this
      ensures !open && sent == old(sent) && moment == old(moment)
    {
      open := false;
    }
  }

  /** What a request sent at `moment` is answered with: what arrives, if it was sent. */
  function Arrival(connection: Connection, open: bool, moment: nat): Option<Envelope> {
    if open && connection.delivers(moment) then connection.world(moment + 1) else None
  }

  class BrokerClient {
    var connection: Connection?

    constructor (connection: Connection)
      ensures this.connection == connection
    {
      this.connection := connection;
    }

    /** One request, sent at most once and never again. The answer decides the verdict
        and whether the connection is kept; without an answer, or without a usable
        one, the connection is given up. */
    method Request(id: nat, messageType: string, action: Option<string>, content: int)
      returns (v: Verdict, ghost response: Option<Envelope>)
      modifies this, connection
      ensures old(connection) == null ==> v == Failure("broker_unavailable") && connection == null
      ensures old(connection) != null ==>
        var request := Envelope(id, messageType, action, content, Missing, Missing, Missing);
        && v == ClientVerdict(request, response).0
        && response == Arrival(old(connection), old(connection.open), old(connection.moment))
        && connection == (if ClientVerdict(request, response).1 then old(connection) else null)
        && old(connection).sent == old(connection.sent) + (if old(connection.open) then [request] else [])
        && (connection == null ==> !old(connection).open)
        && (v.Success? ==> response.Some? && response.value.id == id && old(connection.open))
    {
      var request := Envelope(id, messageType, action, content, Missing, Missing, Missing);
      response := None;
      if connection == null {
        return Failure("broker_unavailable"), None;
      }
      var answer := None;
      var ok := connection.Send(request);
      if ok {
        answer := connection.Receive();
      }
      response := answer;
      var judged := ClientVerdict(request, answer);
      v := judged.0;
      if !judged.1 {
        Close();
      }
    }

    method Close()
      modifies this, connection
      ensures connection == null
      ensures old(connection) != null ==> !old(connection).open && old(connection).sent == old(connection.sent)
    {
      var closing := connection;
      connection := null;
      if closing != null {
        closing.Close();
      }
    }
  }

  class WorkerLink {
    const connection: Connection

    constructor (connection: Connection)
      ensures this.connection == connection
    {
      this.connection := connection;
    }

    /** The broker's request to a worker: sent at most once; a connection that gave no
        usable answer is closed. */
    method Request(id: nat, messageType: string, action: Option<string>, content: int)
      returns (result: HandleResult, ghost response: Option<Envelope>)
      modifies connection
      ensures var request := Envelope(id, messageType, action, content, Missing, Missing, Missing);
        && response == Arrival(connection, old(connection.open), old(connection.moment))
        && result == HandleVerdict(request, response).0
        && connection.sent == old(connection.sent) + (if old(connection.open) then [request] else [])
        && connection.open == (old(connection.open) && HandleVerdict(request, response).1)
        && (result.Answered? ==> response.Some? && response.value.id == id && old(connection.open))
    {
      var request := Envelope(id, messageType, action, content, Missing, Missing, Missing);
      var answer := None;
      var ok := connection.Send(request);
      if ok {
        answer := connection.Receive();
      }
      response := answer;
      var judged := HandleVerdict(request, answer);
      result := judged.0;
      if !judged.1 {
        connection.Close();
      }
    }
  }

  /** What the worker's service did with one request: its answer, the session's state,
      whether it asked to stop, and whether it failed in an unforeseen way. */
  datatype Handling = Handling(answer: Answer, state: string, stop: bool, crashed: bool)

  function Effective(h: Handling): Handling {
    if h.crashed then Handling(Error("worker_internal_error"), h.state, true, true) else h
  }

  function Reply(request: Envelope, h: Handling): Envelope {
    WorkerReply(request, Effective(h).answer, h.state)
  }

  /** The worker's reply carries its request's id. An unforeseen failure is reported as an
      internal error and ends the worker; otherwise the answer is passed on. */
  lemma ReplyIs(request: Envelope, h: Handling)
    ensures Reply(request, h).id == request.id
    ensures h.crashed ==>
      && Effective(h).stop
      && Reply(request, h).messageType == "error" && Reply(request, h).code == Text("worker_internal_error")
    ensures !h.crashed ==> Effective(h).stop == h.stop
    ensures !h.crashed && h.answer.Done? ==>
      Reply(request, h).messageType == request.messageType + ".result" && Reply(request, h).content == h.answer.content
    ensures !h.crashed && h.answer.Error? ==>
      && Reply(request, h).messageType == "error" && Reply(request, h).code == Text(h.answer.code)
      && Reply(request, h).state == Text(h.state)
  {
  }

  /** A connection that reached the worker: whether it authenticated, and the requests
      that came over it before it ended. */
  datatype Attempt = Attempt(authentic: bool, incoming: seq<Envelope>)

  predicate FirstAuthentic(attempts: seq<Attempt>, k: nat) {
    k < |attempts| && attempts[k].authentic && forall j :: 0 <= j < k ==> !attempts[j].authentic
  }

  /** The requests of one connection, each handled and then answered in turn, until the
      connection ends, a reply cannot be sent, the worker is to stop, or its status
      cannot be recorded after a reply. */
  method ServeConnection(incoming: seq<Envelope>, handler: nat -> Handling, delivers: nat -> bool, records: nat -> bool)
    returns (handled: seq<Envelope>, replies: seq<Envelope>)
    ensures Served(incoming, handler, delivers, records, handled, replies)
  {
    hide Reply, Effective;
    handled, replies := [], [];
    var stop := false;
    while !stop && |handled| < |incoming|
      invariant handled <= incoming && |replies| == |handled|
      invariant forall i :: 0 <= i < |replies| ==> replies[i] == Reply(handled[i], handler(i)) && delivers(i)
      invariant forall i :: 0 <= i < |handled| - 1 ==> !Effective(handler(i)).stop
      invariant forall i :: 0 <= i < |handled| - 1 ==> records(i)
      invariant stop || handled == [] || records(|handled| - 1)
      invariant stop == (handled != [] && Effective(handler(|handled| - 1)).stop)
    {
      var n := |handled|;
      var request := incoming[n];
      var outcome := Effective(handler(n));
      handled := handled + [request];
      if !delivers(n) {
        return;
      }
      replies := replies + [Reply(request, handler(n))];
      stop := outcome.stop;
      if !stop && !records(n) {
        return;
      }
    }
  }

  /** The requests were handled in order, and each answered in turn, until there were no
      more, the worker was to stop, or something failed. */
  ghost predicate Served(incoming: seq<Envelope>, handler: nat -> Handling, delivers: nat -> bool, records: nat -> bool,
                         handled: seq<Envelope>, replies: seq<Envelope>) {
    && handled <= incoming && |handled| - 1 <= |replies| <= |handled|
    && (forall i :: 0 <= i < |replies| ==> replies[i] == Reply(handled[i], handler(i)) && delivers(i))
    && (forall i :: 0 <= i < |handled| - 1 ==> !Effective(handler(i)).stop && i < |replies| && records(i))
    && (|replies| < |handled| ==> !delivers(|replies|))
    && (handled < incoming ==>
          handled != [] && (Effective(handler(|handled| - 1)).stop || |replies| < |handled| || !records(|handled| - 1)))
  }

  lemma OneIsFirst(attempts: seq<Attempt>, k: nat)
    requires FirstAuthentic(attempts, k)
    ensures forall j: nat :: FirstAuthentic(attempts, j) ==> j == k
  {
  }

  /** A worker serves the first connection that authenticates, and then exits: no
      request of any other connection is handled. */
  method RunWorker(attempts: seq<Attempt>, handler: nat -> Handling, delivers: nat -> bool, records: nat -> bool)
    returns (handled: seq<Envelope>, replies: seq<Envelope>)
    ensures forall k: nat :: FirstAuthentic(attempts, k) ==> Served(attempts[k].incoming, handler, delivers, records, handled, replies)
    ensures (forall k :: 0 <= k < |attempts| ==> !attempts[k].authentic) ==> handled == []
    ensures |handled| - 1 <= |replies| <= |handled|
    ensures forall i :: 0 <= i < |replies| ==> replies[i] == Reply(handled[i], handler(i))
  {
    handled, replies := [], [];
    var k := 0;
    while k < |attempts|
      invariant k <= |attempts| && handled == replies == []
      invariant forall j :: 0 <= j < k ==> !attempts[j].authentic
    {
      if attempts[k].authentic {
        handled, replies := ServeConnection(attempts[k].incoming, handler, delivers, records);
        assert FirstAuthentic(attempts, k);
        OneIsFirst(attempts, k);
        return;
      }
      k := k + 1;
    }
  }
}
