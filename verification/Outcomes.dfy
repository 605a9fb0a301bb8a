/** Which requests have effects that cannot be inferred once they were delivered,
    and what each end of a connection makes of an answer. */
module Outcomes {
  import opened Common

  /** A field of a JSON object: absent, a text, or something else. */
  datatype Field = Missing | Text(text: string) | Other

  /** A message: requests carry an action and their content, errors a code. */
  datatype Envelope = Envelope(id: nat, messageType: string, action: Option<string>, content: int,
                               code: Field, note: Field, state: Field)

  datatype Verdict = Success(content: int) | Failure(code: string)

  const TERMINAL_MUTATIONS := {"start", "write", "interrupt", "resize", "close"}
  const ELEVATION_MUTATIONS := {"acquire", "release", "exec", "open_root_session", "close_root_session"}

  function UncertainCode(messageType: string, action: Option<string>): Option<string> {
    if messageType in {"session.exec", "worker.exec"} then Some("outcome_unknown")
    else if messageType in {"session.file_edit", "worker.file_edit"} then Some("file_outcome_unknown")
    else if messageType in {"session.elevation", "worker.elevation"} then
      if action.Some? && action.value in ELEVATION_MUTATIONS then Some("elevation_outcome_unknown") else None
    else if messageType in {"session.terminal", "worker.terminal"} then
      if action.Some? && action.value in TERMINAL_MUTATIONS then Some("outcome_unknown") else None
    else if messageType in {"session.create", "session.open", "session.close", "broker.shutdown", "worker.open", "worker.shutdown"} then
      Some("outcome_unknown")
    else None
  }

  /** The requests that the broker knows. */
  predicate IsRequest(messageType: string) {
    messageType in {"broker.ping", "broker.shutdown", "session.create", "session.open", "session.list", "session.status",
                    "session.rediscover", "session.exec", "session.terminal", "session.files", "session.file_edit",
                    "session.elevation", "session.close"}
  }

  /** An action that its request can carry; other requests carry none that matters. */
  predicate KnownAction(messageType: string, action: Option<string>) {
    if messageType == "session.terminal" then
      action in {Some("start"), Some("read"), Some("write"), Some("interrupt"), Some("resize"), Some("close"), Some("status")}
    else if messageType == "session.elevation" then
      action in {Some("acquire"), Some("status"), Some("release"), Some("exec"), Some("open_root_session"),
                 Some("close_root_session")}
    else true
  }

  /** Requests that leave everything as it is. */
  predicate ReadsOnly(messageType: string, action: Option<string>) {
    || messageType in {"broker.ping", "session.list", "session.status", "session.rediscover", "session.files"}
    || (messageType == "session.terminal" && action in {Some("read"), Some("status")})
    || (messageType == "session.elevation" && action == Some("status"))
  }

  /** The requests with an uncertain code are all that do not only read, each under the
      code of what it acts on. */
  lemma EffectsAreUncertain(messageType: string, action: Option<string>)
    requires IsRequest(messageType) && KnownAction(messageType, action)
    ensures UncertainCode(messageType, action) ==
      if ReadsOnly(messageType, action) then None
      else if messageType == "session.file_edit" then Some("file_outcome_unknown")
      else if messageType == "session.elevation" then Some("elevation_outcome_unknown")
      else Some("outcome_unknown")
    ensures UncertainCode("worker.open", action) == UncertainCode("worker.shutdown", action) == Some("outcome_unknown")
  {
  }

  predicate EndsIn(text: string, end: string) {
    |end| <= |text| && text[|text| - |end|..] == end
  }

  lemma UncertainCodesEnd(messageType: string, action: Option<string>)
    ensures var code := UncertainCode(messageType, action);
      code.Some? ==> EndsIn(code.value, "outcome_unknown")
  {
    assert EndsIn("outcome_unknown", "outcome_unknown");
    assert EndsIn("file_outcome_unknown", "outcome_unknown");
    assert EndsIn("elevation_outcome_unknown", "outcome_unknown");
    hide EndsIn;
  }

  /** What the broker passes a client's request on as; None when it acts itself. */
  function WorkerType(messageType: string, action: Option<string>): Option<string> {
    if messageType in {"session.status", "session.rediscover"} then Some("worker.status")
    else if messageType == "session.exec" then Some("worker.exec")
    else if messageType == "session.terminal" then Some("worker.terminal")
    else if messageType == "session.files" then Some("worker.files")
    else if messageType == "session.file_edit" then Some("worker.file_edit")
    else if messageType == "session.elevation" && action in {Some("acquire"), Some("status"), Some("release"), Some("exec")} then
      Some("worker.elevation")
    else None
  }

  /** The broker answers a rediscovery of a lost session itself, and otherwise passes it
      on as a status request. */
  predicate MayAnswerItself(messageType: string, action: Option<string>) {
    WorkerType(messageType, action) == None || messageType == "session.rediscover"
  }

  /** Both hops agree on which forwarded requests are uncertain, and under which code. */
  lemma HopsAgree(messageType: string, action: Option<string>)
    requires WorkerType(messageType, action).Some?
    ensures UncertainCode(WorkerType(messageType, action).value, action) == UncertainCode(messageType, action)
  {
  }

  /** No uncertain code can be taken for an unavailable broker or a dead worker. */
  lemma UncertainIsNotUnavailable(messageType: string, action: Option<string>)
    ensures UncertainCode(messageType, action) !in
      {Some("broker_unavailable"), Some("worker_ipc_failed"), Some("broker_request_failed")}
  {
    assert "broker_unavailable"[17] == 'e' && "worker_ipc_failed"[16] == 'd' && "broker_request_failed"[20] == 'd';
  }

  /** What a client reports when its connection failed. */
  function ClientTransport(request: Envelope): Verdict {
    match UncertainCode(request.messageType, request.action)
    case Some(code) => Failure(code)
    case None => Failure("broker_unavailable")
  }

  /** What a client makes of the broker's answer to its request; None when the
      connection failed. The flag says whether the connection stays usable. */
  function ClientVerdict(request: Envelope, response: Option<Envelope>): (Verdict, bool) {
    match response
    case None => (ClientTransport(request), false)
    case Some(r) =>
      if r.id != request.id then (ClientTransport(request), false)
      else if r.messageType == "error" then
        if r.code.Other? || r.note.Other? then (ClientTransport(request), false)
        else (Failure(if r.code.Text? then r.code.text else "broker_request_failed"), true)
      else if r.messageType != request.messageType + ".result" then (ClientTransport(request), false)
      else (Success(r.content), true)
  }

  predicate IsErrorTo(request: Envelope, response: Envelope) {
    response.id == request.id && response.messageType == "error" && response.code.Text?
  }

  /** A client is told of success exactly by an answer to its own request, of the type that
      belongs to it; everything else that is no error of the broker's is a failure of
      the connection. */
  lemma SuccessIff(request: Envelope, response: Option<Envelope>, content: int)
    ensures ClientVerdict(request, response).0 == Success(content) <==>
      response.Some? && response.value.id == request.id && response.value.content == content
      && response.value.messageType == request.messageType + ".result"
    ensures ClientVerdict(request, response).0.Success? ==> ClientVerdict(request, response).1
    ensures response.Some? && IsErrorTo(request, response.value) && !response.value.note.Other? ==>
      ClientVerdict(request, response) == (Failure(response.value.code.text), true)
  {
    NoTypeIsError(request.messageType);
  }

  datatype HandleResult = Answered(content: int) | Refused(code: string, state: Option<string>)

  function HandleTransport(request: Envelope): HandleResult {
    match UncertainCode(request.messageType, request.action)
    case Some(code) => Refused(code, Some("lost"))
    case None => Refused("worker_ipc_failed", Some("lost"))
  }

  /** What the broker makes of a worker's answer. */
  function HandleVerdict(request: Envelope, response: Option<Envelope>): (HandleResult, bool) {
    match response
    case None => (HandleTransport(request), false)
    case Some(r) =>
      if r.id != request.id then (HandleTransport(request), false)
      else if r.messageType == "error" then
        if r.code.Other? || r.note.Other? || r.state.Other? then (HandleTransport(request), false)
        else (Refused(if r.code.Text? then r.code.text else "worker_error",
                      if r.state.Text? then Some(r.state.text) else None), true)
      else if r.messageType != request.messageType + ".result" then (HandleTransport(request), false)
      else (Answered(r.content), true)
  }

  /** The broker takes for an answer exactly one to its own request, of its type. */
  lemma AnsweredIff(request: Envelope, response: Option<Envelope>, content: int)
    ensures HandleVerdict(request, response).0 == Answered(content) <==>
      response.Some? && response.value.id == request.id && response.value.content == content
      && response.value.messageType == request.messageType + ".result"
    ensures response.Some? && IsErrorTo(request, response.value) && !response.value.note.Other? && response.value.state.Text? ==>
      HandleVerdict(request, response) == (Refused(response.value.code.text, Some(response.value.state.text)), true)
  {
    NoTypeIsError(request.messageType);
  }

  function ErrorReply(id: nat, code: string, state: Field): Envelope {
    Envelope(id, "error", None, 0, Text(code), Text(""), state)
  }

  function ResultReply(id: nat, messageType: string, content: int): Envelope {
    Envelope(id, messageType + ".result", None, content, Missing, Missing, Missing)
  }

  /** The broker's answer to a request, once the worker's part is known. */
  function BrokerReply(request: Envelope, result: HandleResult): Envelope {
    match result
    case Answered(content) => ResultReply(request.id, request.messageType, content)
    case Refused(code, _) => ErrorReply(request.id, code, Missing)
  }

  /** What a worker did with a request. */
  datatype Answer = Done(content: int) | Error(code: string)

  function WorkerReply(request: Envelope, answer: Answer, state: string): Envelope {
    match answer
    case Done(content) => ResultReply(request.id, request.messageType, content)
    case Error(code) => ErrorReply(request.id, code, Text(state))
  }

  function AsVerdict(answer: Answer): Verdict {
    match answer
    case Done(content) => Success(content)
    case Error(code) => Failure(code)
  }

  /** An undisturbed answer reaches the client as the worker gave it. */
  lemma AnswerArrives(request: Envelope, forwarded: Envelope, answer: Answer, state: string)
    requires WorkerType(request.messageType, request.action) == Some(forwarded.messageType)
    ensures var (result, open) := HandleVerdict(forwarded, Some(WorkerReply(forwarded, answer, state)));
      open && ClientVerdict(request, Some(BrokerReply(request, result))) == (AsVerdict(answer), true)
  {
    NoTypeIsError(request.messageType);
    NoTypeIsError(forwarded.messageType);
  }

  lemma NoTypeIsError(messageType: string)
    ensures messageType + ".result" != "error"
  {
    if |messageType| == 0 {
      assert (messageType + ".result")[0] == '.';
    }
  }
}
