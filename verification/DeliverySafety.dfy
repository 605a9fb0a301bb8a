/** What no loss, timeout or death can break: a request is handled at most once, and
    what a client is told about it is true. */
module DeliverySafety {
  import opened Common
  import opened Outcomes
  import opened Delivery

  predicate Forwardable(request: Envelope) {
    WorkerType(request.messageType, request.action).Some?
  }

  function Uncertain(request: Envelope): Option<string> {
    UncertainCode(request.messageType, request.action)
  }

  ghost predicate IsForwarded(s: State, r: nat) {
    exists i :: i in s.handoffs && s.handoffs[i].origin == r
  }

  /** A worker handled `r` and answered `v`. */
  ghost predicate HasAnswer(s: State, r: nat, v: Verdict) {
    exists i :: i in s.answers && i in s.handoffs && s.handoffs[i].origin == r && AsVerdict(s.answers[i]) == v
  }

  predicate MayAnswer(request: Envelope) {
    MayAnswerItself(request.messageType, request.action)
  }

  /** What a client may be told about its request: a success only as the worker gave
      it, or by the broker itself for a rediscovery that was not passed on; a failure, once the request has been passed on, only as the worker gave it
      or under its uncertain code. */
  ghost predicate Fits(s: State, request: Envelope, v: Verdict) {
    Forwardable(request) ==>
      if v.Success? then HasAnswer(s, request.id, v) || (MayAnswer(request) && !IsForwarded(s, request.id))
      else Uncertain(request).Some? && IsForwarded(s, request.id) ==>
        v == Failure(Uncertain(request).value) || HasAnswer(s, request.id, v)
  }

  /** The broker's thread took the request and holds it no longer. */
  predicate Through(conn: Conn, r: nat) {
    r <= conn.taken && !(conn.thread.Holding? && conn.thread.request.id == r)
  }

  predicate Known(s: State, c: nat, e: Envelope) {
    e.id in s.issued && s.issued[e.id] == Issue(c, e)
  }

  ghost predicate TrueReply(s: State, c: nat, conn: Conn, response: Envelope) {
    && response.id in s.issued && s.issued[response.id].conn == c && Through(conn, response.id)
    && var request := s.issued[response.id].request;
    && (response.messageType == "error" ==> response.code.Text? && Fits(s, request, Failure(response.code.text)))
    && (response.messageType == request.messageType + ".result" ==> Fits(s, request, Success(response.content)))
  }

  predicate Ascending(q: seq<Envelope>, above: int) {
    && (forall i :: 0 <= i < |q| ==> q[i].id > above)
    && (forall i, j :: 0 <= i < j < |q| ==> q[i].id < q[j].id)
  }

  ghost predicate ThreadInv(s: State, c: nat, conn: Conn) {
    match conn.thread
    case Holding(request) => Known(s, c, request) && request.id <= conn.taken && !IsForwarded(s, request.id)
    case Awaiting(request, forwarded, w) =>
      && Known(s, c, request) && Through(conn, request.id)
      && forwarded.id in s.handoffs && s.handoffs[forwarded.id] == Handoff(request.id, w, forwarded)
    case Replying(response) => TrueReply(s, c, conn, response)
    case _ => true
  }

  ghost predicate ConnInv(s: State, c: nat, conn: Conn) {
    && conn.taken < s.next
    && Ascending(conn.toBroker, conn.taken)
    && (forall i :: 0 <= i < |conn.toBroker| ==> Known(s, c, conn.toBroker[i]))
    && (conn.waiting.Some? ==> Known(s, c, conn.waiting.value))
    && ThreadInv(s, c, conn)
    && (forall i :: 0 <= i < |conn.toClient| ==> TrueReply(s, c, conn, conn.toClient[i]))
  }

  /** A message from a worker is its recorded answer. */
  predicate TrueAnswer(s: State, response: Envelope) {
    && response.id in s.answers && response.id in s.handoffs
    && response == WorkerReply(s.handoffs[response.id].request, s.answers[response.id],
                               if response.state.Text? then response.state.text else "")
  }

  predicate WorkerInv(s: State, w: nat, worker: Worker) {
    && worker.taken < s.next
    && Ascending(worker.toWorker, worker.taken)
    && (forall i :: 0 <= i < |worker.toWorker| ==>
          var e := worker.toWorker[i];
          e.id in s.handoffs && s.handoffs[e.id].worker == w && s.handoffs[e.id].request == e)
    && (forall i :: 0 <= i < |worker.toBroker| ==> TrueAnswer(s, worker.toBroker[i]))
    && (worker.process.Answering? ==> TrueAnswer(s, worker.process.response))
  }

  ghost predicate IssuesInv(s: State) {
    && (forall r <- s.issued :: r < s.next && s.issued[r].request.id == r && s.issued[r].conn in s.conns)
    && (forall r <- s.unsent :: r < s.next && r !in s.issued)
  }

  ghost predicate HandoffsInv(s: State) {
    && (forall i <- s.handoffs :: HandoffInv(s, i, s.handoffs[i]))
    && (forall i, j :: i in s.handoffs && j in s.handoffs && i != j ==> s.handoffs[i].origin != s.handoffs[j].origin)
  }

  ghost predicate HandoffInv(s: State, i: nat, h: Handoff) {
    && i < s.next && h.worker in s.workers && h.origin in s.issued && s.issued[h.origin].conn in s.conns
    && Through(s.conns[s.issued[h.origin].conn], h.origin)
    && Forwardable(s.issued[h.origin].request)
    && h.request == Forwarded(i, s.issued[h.origin].request)
  }

  ghost predicate AnswersInv(s: State) {
    && (forall i <- s.answers :: i in s.handoffs && s.handoffs[i].worker in s.workers && i <= s.workers[s.handoffs[i].worker].taken)
    && (forall r :: r in s.handled <==> Handled(s, r))
    && (forall i, j :: 0 <= i < j < |s.handled| ==> s.handled[i] != s.handled[j])
  }

  ghost predicate Handled(s: State, r: nat) {
    exists i :: i in s.answers && i in s.handoffs && s.handoffs[i].origin == r
  }

  ghost predicate VerdictInv(s: State, r: nat, v: Verdict) {
    if r in s.issued then
      var issue := s.issued[r];
      && issue.conn in s.conns
      && Fits(s, issue.request, v)
      && (Through(s.conns[issue.conn], r) || v == ClientTransport(issue.request))
    else r in s.unsent && v == Failure("broker_unavailable")
  }

  ghost predicate Inv(s: State) {
    && IssuesInv(s) && HandoffsInv(s) && AnswersInv(s)
    && (forall c <- s.conns :: ConnInv(s, c, s.conns[c]))
    && (forall w <- s.workers :: WorkerInv(s, w, s.workers[w]))
    && (forall r <- s.verdicts :: VerdictInv(s, r, s.verdicts[r]))
  }

  lemma InitialInv(s: State)
    requires IsInitial(s)
    ensures Inv(s)
  {
  }

  // Growth of the record

  /** The record grew; only the request `passed` may have been passed on. */
  predicate Grew(s: State, t: State, passed: Option<nat>) {
    && s.next <= t.next
    && (forall r <- s.issued :: r in t.issued && t.issued[r] == s.issued[r])
    && (forall i <- s.handoffs :: i in t.handoffs && t.handoffs[i] == s.handoffs[i])
    && (forall i <- t.handoffs :: i in s.handoffs || passed == Some(t.handoffs[i].origin))
    && (forall i <- s.answers :: i in t.answers && t.answers[i] == s.answers[i])
  }

  lemma FitsCarry(s: State, t: State, passed: Option<nat>, request: Envelope, v: Verdict)
    requires Grew(s, t, passed) && Fits(s, request, v)
    requires passed != Some(request.id) || v == ClientTransport(request)
    ensures Fits(t, request, v)
  {
    hide WorkerType, UncertainCode;
  }

  lemma ReplyCarry(s: State, t: State, passed: Option<nat>, c: nat, conn: Conn, after: Conn, response: Envelope)
    requires Grew(s, t, passed) && TrueReply(s, c, conn, response)
    requires passed != Some(response.id) && s.issued[response.id].request.id == response.id
    requires Through(after, response.id)
    ensures TrueReply(t, c, after, response)
  {
    hide WorkerType, UncertainCode, Fits, Through;
    var request := s.issued[response.id].request;
    if response.messageType == "error" { FitsCarry(s, t, passed, request, Failure(response.code.text)); }
    if response.messageType == request.messageType + ".result" { FitsCarry(s, t, passed, request, Success(response.content)); }
  }

  /** A connection that a step leaves alone keeps its invariant. */
  lemma ConnCarry(s: State, t: State, passed: Option<nat>, c: nat, conn: Conn)
    requires IssuesInv(s) && Grew(s, t, passed) && ConnInv(s, c, conn)
    requires passed.Some? ==> passed.value in s.issued && s.issued[passed.value].conn != c
    ensures ConnInv(t, c, conn)
  {
    hide TrueReply, Through, Ascending;
    QueueCarry(s, t, passed, c, conn, conn);
    match conn.thread
    case Replying(response) => ReplyKnown(s, c, conn, response); ReplyCarry(s, t, passed, c, conn, conn, response);
    case Holding(request) => assert !IsForwarded(t, request.id);
    case _ =>
  }

  lemma ReplyKnown(s: State, c: nat, conn: Conn, response: Envelope)
    requires IssuesInv(s) && TrueReply(s, c, conn, response)
    ensures response.id in s.issued && s.issued[response.id].conn == c && s.issued[response.id].request.id == response.id
    ensures Through(conn, response.id)
  {
  }

  /** The answers on their way to a client stay true. */
  lemma QueueCarry(s: State, t: State, passed: Option<nat>, c: nat, conn: Conn, after: Conn)
    requires IssuesInv(s) && Grew(s, t, passed)
    requires forall i :: 0 <= i < |conn.toClient| ==> TrueReply(s, c, conn, conn.toClient[i])
    requires forall i :: 0 <= i < |conn.toClient| ==>
      (passed != Some(conn.toClient[i].id) || (passed.value in s.issued && s.issued[passed.value].conn != c))
    requires forall r: nat :: Through(conn, r) ==> Through(after, r)
    ensures forall i :: 0 <= i < |conn.toClient| ==> TrueReply(t, c, after, conn.toClient[i])
  {
    hide TrueReply, Through;
    forall i | 0 <= i < |conn.toClient| ensures TrueReply(t, c, after, conn.toClient[i]) {
      ReplyKnown(s, c, conn, conn.toClient[i]);
      ReplyCarry(s, t, passed, c, conn, after, conn.toClient[i]);
    }
  }

  lemma WorkerCarry(s: State, t: State, passed: Option<nat>, w: nat, worker: Worker)
    requires Grew(s, t, passed) && WorkerInv(s, w, worker)
    ensures WorkerInv(t, w, worker)
  {
    hide WorkerReply, Ascending;
  }

  // One step

  /** What a step leaves alone: all connections but `c`, all workers but `w`. */
  ghost predicate Local(s: State, t: State, c: Option<nat>, w: Option<nat>) {
    && t.conns.Keys == s.conns.Keys && t.workers.Keys == s.workers.Keys
    && (forall d <- s.conns :: c == Some(d) || t.conns[d] == s.conns[d])
    && (forall v <- s.workers :: w == Some(v) || t.workers[v] == s.workers[v])
    && (c.Some? && c.value in s.conns ==>
          forall r: nat :: Through(s.conns[c.value], r) ==> Through(t.conns[c.value], r))
    && (w.Some? && w.value in s.workers ==> s.workers[w.value].taken <= t.workers[w.value].taken)
    && s.unsent <= t.unsent
  }

  /** A request that may now be passed on: its thread has not let go of it. */
  predicate Passes(s: State, r: nat) {
    r in s.issued && s.issued[r].conn in s.conns && !Through(s.conns[s.issued[r].conn], r)
  }

  lemma HandoffsCarry(s: State, t: State, c: Option<nat>, w: Option<nat>)
    requires Inv(s) && Grew(s, t, None) && Local(s, t, c, w) && t.handoffs == s.handoffs
    ensures HandoffsInv(t)
  {
    hide ConnInv, WorkerInv, VerdictInv, AnswersInv, Forwarded, WorkerType, Through;
    forall i | i in t.handoffs ensures HandoffInv(t, i, t.handoffs[i]) {
      assert HandoffInv(s, i, s.handoffs[i]);
    }
  }

  lemma AnswersCarry(s: State, t: State, passed: Option<nat>, c: Option<nat>, w: Option<nat>)
    requires Inv(s) && Grew(s, t, passed) && Local(s, t, c, w)
    requires t.answers == s.answers && t.handled == s.handled
    ensures AnswersInv(t)
  {
    hide ConnInv, WorkerInv, VerdictInv, HandoffsInv, IssuesInv, Through;
    forall r ensures Handled(t, r) <==> Handled(s, r) {}
  }

  lemma VerdictCarry(s: State, t: State, passed: Option<nat>, c: Option<nat>, w: Option<nat>, r: nat)
    requires Inv(s) && Grew(s, t, passed) && Local(s, t, c, w) && IssuesInv(t) && r in s.verdicts
    requires passed.Some? ==> Passes(s, passed.value)
    ensures VerdictInv(t, r, s.verdicts[r])
  {
    hide ConnInv, WorkerInv, HandoffsInv, AnswersInv, Fits, WorkerType, UncertainCode, Through;
    assert VerdictInv(s, r, s.verdicts[r]);
    if r in s.issued {
      FitsCarry(s, t, passed, s.issued[r].request, s.verdicts[r]);
    }
  }

  /** A step keeps the invariant if it keeps it where it acts. */
  lemma Keeps(s: State, t: State, passed: Option<nat>, c: Option<nat>, w: Option<nat>)
    requires Inv(s) && Grew(s, t, passed) && Local(s, t, c, w)
    requires IssuesInv(t) && HandoffsInv(t) && AnswersInv(t)
    requires passed.Some? ==> Passes(s, passed.value) && c == Some(s.issued[passed.value].conn)
    requires c.Some? && c.value in s.conns ==> ConnInv(t, c.value, t.conns[c.value])
    requires w.Some? && w.value in s.workers ==> WorkerInv(t, w.value, t.workers[w.value])
    requires forall r <- t.verdicts :: (r in s.verdicts && t.verdicts[r] == s.verdicts[r]) || VerdictInv(t, r, t.verdicts[r])
    ensures Inv(t)
  {
    hide ConnInv, WorkerInv, VerdictInv, HandoffsInv, AnswersInv, IssuesInv, Grew, Through;
    forall d | d in t.conns ensures ConnInv(t, d, t.conns[d]) {
      if c != Some(d) { ConnCarry(s, t, passed, d, s.conns[d]); }
    }
    forall v | v in t.workers ensures WorkerInv(t, v, t.workers[v]) {
      if w != Some(v) { WorkerCarry(s, t, passed, v, s.workers[v]); }
    }
    forall r | r in t.verdicts ensures VerdictInv(t, r, t.verdicts[r]) {
      if r in s.verdicts && t.verdicts[r] == s.verdicts[r] { VerdictCarry(s, t, passed, c, w, r); }
    }
  }
}
