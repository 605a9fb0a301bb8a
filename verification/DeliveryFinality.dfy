/** A client is told once: no later step takes a verdict back, so what holds of it at
    the end of every run held when it was given. */
module DeliveryFinality {
  import opened Common
  import opened Outcomes
  import opened Delivery
  import opened DeliverySafety
  import opened DeliveryHandoff

  /** A client that still waits has not been told yet. */
  ghost predicate Untold(s: State) {
    && (forall c <- s.conns :: s.conns[c].waiting.Some? ==> s.conns[c].waiting.value.id !in s.verdicts)
    && (forall r <- s.verdicts :: r < s.next)
  }

  /** The ids that connections wait for are all different. */
  lemma WaitingApart(s: State, c: nat, d: nat)
    requires Inv(s) && c in s.conns && d in s.conns && c != d && s.conns[c].waiting.Some? && s.conns[d].waiting.Some?
    ensures s.conns[c].waiting.value.id != s.conns[d].waiting.value.id
  {
    hide WorkerInv, VerdictInv, AnswersInv, HandoffsInv, ThreadInv, TrueReply, Ascending;
    assert ConnInv(s, c, s.conns[c]) && ConnInv(s, d, s.conns[d]);
  }

  lemma WaitingKnown(s: State, c: nat)
    requires Inv(s) && c in s.conns && s.conns[c].waiting.Some?
    ensures s.conns[c].waiting.value.id < s.next
  {
    hide WorkerInv, VerdictInv, AnswersInv, HandoffsInv, ThreadInv, TrueReply, Ascending;
    assert ConnInv(s, c, s.conns[c]);
  }

  lemma SendUntold(s: State, c: nat, request: Envelope, failed: bool, delivered: bool)
    requires Inv(s) && Untold(s) && c in s.conns && s.conns[c].waiting == None && request.id == s.next
    ensures var t := Send(s, c, request, failed, delivered);
      Untold(t) && forall r <- s.verdicts :: r in t.verdicts && t.verdicts[r] == s.verdicts[r]
  {
    hide Inv, ClientTransport;
    forall d | d in s.conns && s.conns[d].waiting.Some? ensures s.conns[d].waiting.value.id < s.next {
      WaitingKnown(s, d);
    }
  }

  lemma ConcludeUntold(s: State, c: nat, response: Option<Envelope>)
    requires Inv(s) && Untold(s) && c in s.conns && s.conns[c].waiting.Some?
    requires response.Some? ==> s.conns[c].toClient != []
    ensures var t := Conclude(s, c, response);
      Untold(t) && forall r <- s.verdicts :: r in t.verdicts && t.verdicts[r] == s.verdicts[r]
  {
    hide Inv, ClientVerdict;
    WaitingKnown(s, c);
    forall d | d in s.conns && d != c && s.conns[d].waiting.Some?
      ensures s.conns[d].waiting.value.id != s.conns[c].waiting.value.id
    {
      WaitingApart(s, c, d);
    }
  }

  lemma ClosedUntold(s: State, c: nat)
    requires Inv(s) && Untold(s) && Enabled(s, ClientClosed(c))
    ensures var t := Next(s, ClientClosed(c));
      Untold(t) && forall r <- s.verdicts :: r in t.verdicts && t.verdicts[r] == s.verdicts[r]
  {
    hide Inv;
    forall d | d in s.conns && s.conns[d].waiting.Some? ensures s.conns[d].waiting.value.id < s.next {
      WaitingKnown(s, d);
    }
  }

  predicate ToldElsewhere(step: Step) {
    step.ClientSend? || step.ClientSendFails? || step.ClientClosed? || step.ClientReceive? || step.ClientGivesUp?
  }

  /** No step of broker or worker tells a client anything. */
  lemma OthersTellNothing(s: State, step: Step)
    requires Untold(s) && Enabled(s, step) && !ToldElsewhere(step)
    ensures Untold(Next(s, step)) && Next(s, step).verdicts == s.verdicts
  {
    hide Next, Enabled;
    if WorkerStep(step) { WorkerTellsNothing(s, step); } else { BrokerTellsNothing(s, step); }
  }

  predicate WorkerStep(step: Step) {
    step.WorkerHandle? || step.WorkerSend? || step.WorkerDies? || step.WorkerDisconnected?
  }

  /** Nobody was told anything, and every client waits as before. */
  predicate SameWaiting(s: State, t: State) {
    && t.verdicts == s.verdicts && s.next <= t.next && t.conns.Keys == s.conns.Keys
    && forall c <- s.conns :: t.conns[c].waiting == s.conns[c].waiting
  }

  lemma WorkerTellsNothing(s: State, step: Step)
    requires Enabled(s, step) && WorkerStep(step)
    ensures SameWaiting(s, Next(s, step))
  {
    hide WorkerReply;
  }

  lemma BrokerTellsNothing(s: State, step: Step)
    requires Enabled(s, step) && !WorkerStep(step) && !ToldElsewhere(step)
    ensures SameWaiting(s, Next(s, step))
  {
    hide BrokerReply, HandleVerdict, Forwarded, WorkerType;
  }

  lemma StepFinal(s: State, step: Step)
    requires Inv(s) && Untold(s) && Enabled(s, step)
    ensures Untold(Next(s, step))
    ensures forall r <- s.verdicts :: r in Next(s, step).verdicts && Next(s, step).verdicts[r] == s.verdicts[r]
  {
    hide Inv, Untold, Send, Conclude, Take, Forward, Settle, Handle;
    match step
    case ClientSend(c, messageType, action, content) =>
      SendUntold(s, c, Request(s.next, messageType, action, content), false, true);
    case ClientSendFails(c, messageType, action, content, delivered) =>
      SendUntold(s, c, Request(s.next, messageType, action, content), true, delivered);
    case ClientClosed(c) => ClosedUntold(s, c);
    case ClientReceive(c) => ConcludeUntold(s, c, Some(s.conns[c].toClient[0]));
    case ClientGivesUp(c) => ConcludeUntold(s, c, None);
    case _ => OthersTellNothing(s, step);
  }

  lemma {:induction false} RunFinal(s: State, steps: seq<Step>)
    requires Inv(s) && Untold(s) && CanRun(s, steps)
    ensures forall r <- s.verdicts :: r in Run(s, steps).verdicts && Run(s, steps).verdicts[r] == s.verdicts[r]
    ensures Inv(Run(s, steps)) && Untold(Run(s, steps))
    decreases |steps|
  {
    hide Inv, Untold, Enabled, Next;
    if steps != [] {
      StepKeeps(s, steps[0]);
      StepFinal(s, steps[0]);
      RunFinal(Next(s, steps[0]), steps[1..]);
    }
  }

  lemma {:induction false} RunJoins(s: State, first: seq<Step>, later: seq<Step>)
    requires CanRun(s, first + later)
    ensures CanRun(s, first) && CanRun(Run(s, first), later) && Run(s, first + later) == Run(Run(s, first), later)
    decreases |first|
  {
    hide Enabled, Next;
    if first == [] {
      assert first + later == later;
    } else {
      assert (first + later)[0] == first[0] && (first + later)[1..] == first[1..] + later;
      RunJoins(Next(s, first[0]), first[1..], later);
    }
  }

  /** TOLD ONCE, AND FOR GOOD. What a client was told at any moment of a run is what it
      has been told at the end. A request that was reported as never sent is not handled
      later either, nor is an uncertain one that was refused under another code without
      a worker's answer; and one reported as successful was handled by then, unless it
      was a rediscovery. */
  lemma ToldForGood(s: State, first: seq<Step>, later: seq<Step>, r: nat)
    requires IsInitial(s) && CanRun(s, first + later)
    ensures CanRun(s, first)
    ensures var told, end := Run(s, first), Run(s, first + later);
      r in told.verdicts ==>
        && r in end.verdicts && end.verdicts[r] == told.verdicts[r]
        && (r in told.unsent ==> r !in end.handled)
        && (r in told.issued && Forwardable(told.issued[r].request) && Uncertain(told.issued[r].request).Some?
            && told.verdicts[r] != Failure(Uncertain(told.issued[r].request).value) && !HasAnswer(end, r, told.verdicts[r]) ==>
              r !in end.handled)
        && (r in told.issued && Forwardable(told.issued[r].request) && told.verdicts[r].Success?
            && told.issued[r].request.messageType != "session.rediscover" ==>
              r in told.handled && r in end.handled)
  {
    hide Inv, Untold, Enabled, Next, Fits, HasAnswer, Forwardable;
    InitialInv(s);
    InitialUntold(s);
    RunJoins(s, first, later);
    RunFinal(s, first);
    RunFinal(Run(s, first), later);
    EveryRun(s, first, r);
    EveryRun(s, first + later, r);
    RecordKept(Run(s, first), later, r);
  }

  lemma InitialUntold(s: State)
    requires IsInitial(s)
    ensures Untold(s)
  {
  }

  /** What was sent, not sent, or handled stays so. */
  lemma {:induction false} RecordKept(s: State, steps: seq<Step>, r: nat)
    requires Inv(s) && CanRun(s, steps)
    ensures var t := Run(s, steps);
      && (r in s.issued ==> r in t.issued && t.issued[r] == s.issued[r])
      && (r in s.unsent ==> r in t.unsent && r !in t.issued) && (r in s.handled ==> r in t.handled)
    decreases |steps|
  {
    hide Inv, Enabled, Next;
    if steps != [] {
      StepRecord(s, steps[0], r);
      StepKeeps(s, steps[0]);
      RecordKept(Next(s, steps[0]), steps[1..], r);
    } else {
      UnsentApart(s, r);
    }
  }

  lemma UnsentApart(s: State, r: nat)
    requires Inv(s)
    ensures r in s.unsent ==> r !in s.issued
    ensures s.next !in s.issued
  {
    hide ConnInv, WorkerInv, VerdictInv, AnswersInv, HandoffsInv;
  }

  lemma StepRecord(s: State, step: Step, r: nat)
    requires Inv(s) && Enabled(s, step)
    ensures var t := Next(s, step);
      && (r in s.issued ==> r in t.issued && t.issued[r] == s.issued[r])
      && (r in s.unsent ==> r in t.unsent) && (r in s.handled ==> r in t.handled)
  {
    hide Inv, BrokerReply, HandleVerdict, WorkerReply, Forwarded, WorkerType, ClientVerdict, ClientTransport;
    UnsentApart(s, r);
  }
}
