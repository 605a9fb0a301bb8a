/** The ten states of a session and the moves between them. */
module SessionState {
  import opened Common

  datatype State =
    | Created | Starting | AuthenticationRequired | Ready | Executing
    | Interactive | Lost | Closing | Closed | Failed

  function Allowed(s: State): set<State> {
    match s
    case Created => {Starting, Closing}
    case Starting => {AuthenticationRequired, Ready, Lost, Failed, Closing}
    case AuthenticationRequired => {Starting, Executing, Lost, Failed, Closing}
    case Ready => {Executing, Interactive, Lost, Failed, Closing}
    case Executing => {AuthenticationRequired, Ready, Lost, Failed, Closing}
    case Interactive => {Ready, Lost, Failed, Closing}
    case Lost => {Closing, Closed}
    case Failed => {Closing, Closed}
    case Closing => {Closed}
    case Closed => {}
  }

  /** A state that a call may leave behind; the others only exist while a call runs. */
  predicate AtRest(s: State) {
    s !in {Starting, AuthenticationRequired, Executing, Closing}
  }

  /** No command can be delivered in these states or in any that follow. */
  predicate Over(s: State) {
    s in {Lost, Failed, Closing, Closed}
  }

  /** Every path of allowed moves from a session that is over stays over, and ends
      for good once closed. */
  lemma {:induction false} OverForGood(path: seq<State>)
    requires path != [] && Over(path[0])
    requires forall i :: 0 <= i < |path| - 1 ==> path[i + 1] in Allowed(path[i])
    ensures forall i :: 0 <= i < |path| ==> Over(path[i])
    ensures |path| <= 3 && (path[0] == Closing ==> |path| <= 2) && (path[0] == Closed ==> |path| == 1)
  {
    if |path| > 1 {
      assert path[0 + 1] in Allowed(path[0]);
      OverForGood(path[1..]);
      assert path == [path[0]] + path[1..];
    }
  }

  class SessionStateMachine {
    var state: State
    var generation: nat
    var authReturn: Option<State>

    constructor ()
      ensures state == Created && generation == 0 && authReturn == None
    {
      state, generation, authReturn := Created, 0, None;
    }

    method Transition(target: State) returns (ok: bool)
      modifies this`state, this`generation
      ensures ok == (target in Allowed(old(state)))
      ensures state == (if ok then target else old(state)) && generation == old(generation) + if ok then 1 else 0
    {
      ok := target in Allowed(state);
      if ok {
        state, generation := target, generation + 1;
      }
    }

    method BeginAuthentication() returns (ok: bool)
      modifies this
      ensures ok == (old(state) in {Starting, Executing})
      ensures ok ==> state == AuthenticationRequired && authReturn == Some(old(state)) && generation == old(generation) + 1
      ensures !ok ==> unchanged(this)
    {
      if state !in {Starting, Executing} {
        return false;
      }
      authReturn := Some(state);
      ok := Transition(AuthenticationRequired);
    }

    method FinishAuthentication() returns (ok: bool)
      modifies this
      ensures ok == (old(state) == AuthenticationRequired && old(authReturn).Some?
                     && old(authReturn).value in Allowed(AuthenticationRequired))
      ensures ok ==> state == old(authReturn).value && authReturn == None && generation == old(generation) + 1
      ensures !ok ==> state == old(state)
    {
      if state != AuthenticationRequired {
        return false;
      }
      var target := authReturn;
      authReturn := None;
      if target == None {
        return false;
      }
      ok := Transition(target.value);
    }

    /** Whether there is anything to close; a close already begun may be begun again. */
    method BeginClose() returns (toDo: bool)
      modifies this
      ensures toDo == (old(state) != Closed)
      ensures state == if toDo then Closing else Closed
      ensures generation == old(generation) + if old(state) in {Closing, Closed} then 0 else 1
    {
      if state == Closed {
        return false;
      }
      if state == Closing {
        return true;
      }
      authReturn := None;
      toDo := Transition(Closing);
    }
  }
}
