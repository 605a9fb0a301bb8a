/** Who owns a pipe handle while a listener accepts and is closed at the same time. */
module Listener {
  import opened Common

  /** Where the one accepting thread is: outside, waiting for a client on a handle, on
      its way out after an exception, or about to close the handle it still owned. */
  datatype Acceptor = Outside | Waiting(handle: nat) | Raised(handle: nat) | Closing(handle: nat)

  /** The fields under the lock, the accepting thread, the handles that a close has
      taken and still has to close, those already closed, those handed to connections,
      and how many were created. */
  datatype State = State(
    isClosed: bool, pending: Option<nat>, connecting: Option<nat>, acceptor: Acceptor,
    doomed: multiset<nat>, shut: multiset<nat>, given: set<nat>, next: nat)

  datatype Created = Made | NotMade | Unsafe

  /** Regions under the lock, and the closings between them. */
  datatype Step =
    | BeginAccept(created: Created)
    | FinishAccept
    | AcceptRaises
    | AbandonAccept
    | CloseAbandoned
    | Close
    | CloseDoomed(handle: nat)

  function Initial(): State {
    State(false, Some(0), None, Outside, multiset{}, multiset{}, {}, 1)
  }

  predicate Enabled(s: State, step: Step) {
    match step
    case BeginAccept(_) => s.acceptor == Outside
    case FinishAccept => s.acceptor.Waiting?
    case AcceptRaises => s.acceptor.Waiting?
    case AbandonAccept => s.acceptor.Raised?
    case CloseAbandoned => s.acceptor.Closing?
    case Close => true
    case CloseDoomed(handle) => handle in s.doomed
  }

  function AsDoomed(handle: Option<nat>): multiset<nat> {
    if handle.Some? then multiset{handle.value} else multiset{}
  }

  function Next(s: State, step: Step): State
    requires Enabled(s, step)
  {
    match step
    case BeginAccept(created) =>
      if s.isClosed then s
      else if s.pending.Some? then s.(pending := None, connecting := s.pending, acceptor := Waiting(s.pending.value))
      else if created.NotMade? then s
      else if created.Unsafe? then s.(next := s.next + 1)
      else s.(connecting := Some(s.next), acceptor := Waiting(s.next), next := s.next + 1)
    case FinishAccept =>
      if s.isClosed || s.connecting != Some(s.acceptor.handle) then s.(acceptor := Raised(s.acceptor.handle))
      else s.(connecting := None, acceptor := Outside, given := s.given + {s.acceptor.handle})
    case AcceptRaises => s.(acceptor := Raised(s.acceptor.handle))
    case AbandonAccept =>
      if s.connecting == Some(s.acceptor.handle) then
        s.(connecting := None, acceptor := if s.isClosed then Outside else Closing(s.acceptor.handle))
      else s.(acceptor := Outside)
    case CloseAbandoned => s.(shut := s.shut + multiset{s.acceptor.handle}, acceptor := Outside)
    case Close =>
      if s.isClosed then s
      else s.(isClosed := true, pending := None, connecting := None,
              doomed := s.doomed + AsDoomed(s.pending) + AsDoomed(s.connecting))
    case CloseDoomed(handle) => s.(doomed := s.doomed - multiset{handle}, shut := s.shut + multiset{handle})
  }

  function One(held: bool): nat {
    if held then 1 else 0
  }

  /** In how many places a handle is owned or closed. */
  function Places(s: State, h: nat): nat {
    One(s.pending == Some(h)) + One(s.connecting == Some(h)) + One(s.acceptor == Closing(h)) + s.doomed[h]
    + s.shut[h] + One(h in s.given)
  }

  /** A handle that was created and that nothing of the listener or of a connection
      refers to: no call will close it. */
  predicate Unowned(s: State, h: nat) {
    h < s.next && Places(s, h) == 0
  }

  /** Every handle is in at most one place, and only once created; a closed listener
      owns none; and a handle being connected is the accepting thread's. */
  ghost predicate Inv(s: State) {
    (forall h: nat :: Placed(s, h)) && Shape(s)
  }

  predicate Placed(s: State, h: nat) {
    Places(s, h) <= One(h < s.next)
  }

  predicate Shape(s: State) {
    && (s.isClosed ==> s.pending == None && s.connecting == None)
    && (s.connecting.Some? ==> s.acceptor in {Waiting(s.connecting.value), Raised(s.connecting.value)})
    && (s.acceptor.Waiting? || s.acceptor.Raised? ==>
          (s.isClosed || s.connecting == Some(s.acceptor.handle)) && s.acceptor.handle !in s.given)
  }

  lemma InitialInv()
    ensures Inv(Initial())
  {
  }

  lemma StepInv(s: State, step: Step)
    requires Inv(s) && Enabled(s, step)
    ensures Inv(Next(s, step)) && s.given <= Next(s, step).given && s.next <= Next(s, step).next
  {
    hide Enabled, Next, Places, Shape, DropsInstance;
    forall h: nat ensures Placed(Next(s, step), h) {
      assert Placed(s, h);
      StepPlaces(s, step, h);
    }
    StepPlaces(s, step, 0);
    if s.pending.Some? { NotGiven(s, s.pending.value); }
    NotGiven(s, s.next);
    StepShape(s, step);
  }

  /** A step moves a handle from place to place: only a new one gets its first place,
      unless it is dropped. */
  lemma StepPlaces(s: State, step: Step, h: nat)
    requires Shape(s) && Enabled(s, step)
    ensures s.given <= Next(s, step).given && s.next <= Next(s, step).next <= s.next + 1
    ensures Places(Next(s, step), h)
      == Places(s, h) + One(Next(s, step).next > s.next && !DropsInstance(s, step) && h == s.next)
    ensures DropsInstance(s, step) ==> Next(s, step).next > s.next
  {
    hide Places, Next;
    match step
    case BeginAccept(created) => BeginPlaces(s, created, h);
    case Close => ClosePlaces(s, h);
    case CloseDoomed(handle) => DoomedPlaces(s, handle, h);
    case _ => ThreadPlaces(s, step, h);
  }

  lemma BeginPlaces(s: State, created: Created, h: nat)
    requires Shape(s) && Enabled(s, BeginAccept(created))
    ensures var t := Next(s, BeginAccept(created));
      && s.given == t.given && s.next <= t.next <= s.next + 1
      && Places(t, h) == Places(s, h) + One(t.next > s.next && !DropsInstance(s, BeginAccept(created)) && h == s.next)
      && (DropsInstance(s, BeginAccept(created)) ==> t.next > s.next)
  {
  }

  lemma ThreadPlaces(s: State, step: Step, h: nat)
    requires Shape(s) && Enabled(s, step)
    requires step.FinishAccept? || step.AcceptRaises? || step.AbandonAccept? || step.CloseAbandoned?
    ensures Places(Next(s, step), h) == Places(s, h)
    ensures s.given <= Next(s, step).given && s.next == Next(s, step).next
  {
    if step.FinishAccept? && !s.isClosed { assert s.acceptor.handle !in s.given; }
  }

  lemma ClosePlaces(s: State, h: nat)
    ensures Places(Next(s, Step.Close), h) == Places(s, h)
    ensures s.given == Next(s, Step.Close).given && s.next == Next(s, Step.Close).next
  {
    DoomedAlso(s.doomed, s.pending, h);
    DoomedAlso(s.doomed + AsDoomed(s.pending), s.connecting, h);
  }

  lemma DoomedAlso(doomed: multiset<nat>, handle: Option<nat>, h: nat)
    ensures (doomed + AsDoomed(handle))[h] == doomed[h] + One(handle == Some(h))
  {
  }

  lemma DoomedPlaces(s: State, handle: nat, h: nat)
    requires handle in s.doomed
    ensures Places(Next(s, CloseDoomed(handle)), h) == Places(s, h)
    ensures s.given == Next(s, CloseDoomed(handle)).given && s.next == Next(s, CloseDoomed(handle)).next
  {
  }

  lemma StepShape(s: State, step: Step)
    requires Shape(s) && Enabled(s, step) && s.next !in s.given
    requires s.pending.Some? ==> s.pending.value !in s.given
    ensures Shape(Next(s, step))
  {
    hide Placed, Places;
  }

  lemma NotGiven(s: State, h: nat)
    requires Inv(s) && (s.pending == Some(h) || h == s.next)
    ensures h !in s.given
  {
    hide Shape;
    assert Placed(s, h);
  }

  /** A new instance that is made and then found unsafe, on an open listener with
      nothing pending. */
  predicate DropsInstance(s: State, step: Step) {
    step == BeginAccept(Unsafe) && !s.isClosed && s.pending == None
  }

  /** THE EXACT CONDITION. A handle becomes unowned in a step if and only if the step
      makes it as a new instance whose security check then raises; a handle that was
      once owned is never let go of but by closing it or handing it over. */
  lemma UnownedIff(s: State, step: Step, h: nat)
    requires Inv(s) && Enabled(s, step)
    ensures Unowned(Next(s, step), h) <==> Unowned(s, h) || (DropsInstance(s, step) && h == s.next)
  {
    hide Enabled, Next, Places, Shape;
    assert Placed(s, h) && Placed(s, s.next);
    StepPlaces(s, step, h);
  }

  predicate CanRun(s: State, steps: seq<Step>)
    decreases |steps|
  {
    steps == [] || (Enabled(s, steps[0]) && CanRun(Next(s, steps[0]), steps[1..]))
  }

  function Run(s: State, steps: seq<Step>): State
    requires CanRun(s, steps)
    decreases |steps|
  {
    if steps == [] then s else Run(Next(s, steps[0]), steps[1..])
  }

  /** How often a run drops a new instance. */
  function Drops(s: State, steps: seq<Step>): nat
    requires CanRun(s, steps)
    decreases |steps|
  {
    if steps == [] then 0 else One(DropsInstance(s, steps[0])) + Drops(Next(s, steps[0]), steps[1..])
  }

  lemma {:induction false} RunInv(s: State, steps: seq<Step>)
    requires Inv(s) && CanRun(s, steps)
    ensures Inv(Run(s, steps)) && s.given <= Run(s, steps).given
    decreases |steps|
  {
    hide Inv, Enabled, Next;
    if steps != [] {
      StepInv(s, steps[0]);
      RunInv(Next(s, steps[0]), steps[1..]);
    }
  }

  /** Over a run, no handle becomes unowned if and only if no new instance was dropped. */
  lemma {:induction false} RunUnownedIff(s: State, steps: seq<Step>)
    requires Inv(s) && CanRun(s, steps)
    ensures (forall h: nat :: Unowned(Run(s, steps), h) ==> Unowned(s, h)) <==> Drops(s, steps) == 0
    ensures forall h: nat :: Unowned(s, h) ==> Unowned(Run(s, steps), h)
    decreases |steps|
  {
    hide Inv, Enabled, Next, Places, DropsInstance;
    if steps != [] {
      var t := Next(s, steps[0]);
      StepInv(s, steps[0]);
      RunUnownedIff(t, steps[1..]);
      forall h: nat ensures Unowned(t, h) <==> Unowned(s, h) || (DropsInstance(s, steps[0]) && h == s.next) {
        UnownedIff(s, steps[0], h);
      }
      if DropsInstance(s, steps[0]) {
        assert Unowned(t, s.next) && !Unowned(s, s.next);
        assert Unowned(Run(t, steps[1..]), s.next);
      }
    }
  }

  /** HANDLE OWNERSHIP, in every interleaving of accepting, failing and closing: no
      handle is closed twice; one handed to a connection is never closed by the
      listener, nor about to be; and once the listener is closed and its threads are
      done, every handle was handed over or closed, but for new instances dropped on a
      failed security check. */
  lemma EveryHandleOnce(steps: seq<Step>, h: nat)
    requires CanRun(Initial(), steps)
    ensures var t := Run(Initial(), steps);
      && t.shut[h] <= 1
      && (h in t.given ==> t.shut[h] == 0 && h !in t.doomed && t.acceptor != Closing(h))
      && (t.isClosed && t.doomed == multiset{} && t.acceptor == Outside && h < t.next ==>
            h in t.given || h in t.shut || Unowned(t, h))
      && ((forall g: nat :: !Unowned(t, g)) <==> Drops(Initial(), steps) == 0)
  {
    hide CanRun, Run, Next, Enabled, Drops;
    InitialInv();
    RunInv(Initial(), steps);
    RunUnownedIff(Initial(), steps);
    assert forall g: nat :: !Unowned(Initial(), g);
    assert Placed(Run(Initial(), steps), h);
  }

  lemma OneStep(s: State, step: Step)
    requires Enabled(s, step)
    ensures CanRun(s, [step]) && Run(s, [step]) == Next(s, step)
  {
    assert [step][1..] == [];
    assert Run(Next(s, step), []) == Next(s, step);
  }

  /** It happens: the second instance of a listener, made and then found unsafe. */
  lemma UnsafeInstanceUnowned() returns (steps: seq<Step>)
    ensures CanRun(Initial(), steps) && Unowned(Run(Initial(), steps), 1)
  {
    steps := [BeginAccept(Made), FinishAccept, BeginAccept(Unsafe)];
    var s1 := Next(Initial(), steps[0]);
    var s2 := Next(s1, steps[1]);
    var s3 := Next(s2, steps[2]);
    assert steps[2..] == [steps[2]] && steps[1..][0] == steps[1] && steps[1..][1..] == steps[2..];
    OneStep(s2, steps[2]);
    assert CanRun(s1, steps[1..]) && Run(s1, steps[1..]) == s3;
  }

  /** The listener's fields as its methods change them; every method is one region. */
  class NamedPipeListener {
    var isClosed: bool
    var pending: Option<nat>
    var connecting: Option<nat>
    var next: nat
    ghost var rest: State

    ghost function View(): State
      reads this
    {
      rest.(isClosed := isClosed, pending := pending, connecting := connecting, next := next)
    }

    constructor ()
      ensures View() == Initial() && Inv(View())
    {
      isClosed, pending, connecting, next := false, Some(0), None, 1;
      rest := Initial();
      new;
      InitialInv();
    }

    /** The handle to wait on, or none when the listener is closed or has none to offer. */
    method BeginAccept(created: Created) returns (handle: Option<nat>)
      requires Inv(View()) && View().acceptor == Outside
      modifies this
      ensures Inv(View()) && View() == Next(old(View()), Step.BeginAccept(created))
      ensures handle == if View().acceptor.Waiting? then Some(View().acceptor.handle) else None
    {
      StepInv(View(), Step.BeginAccept(created));
      ghost var after := Next(View(), Step.BeginAccept(created));
      handle := None;
      if !isClosed {
        if pending != None {
          handle := pending;
        } else if !created.NotMade? {
          if created.Made? {
            handle := Some(next);
          }
          next := next + 1;
        }
        if handle != None {
          pending, connecting := None, handle;
        }
      }
      rest := after;
    }

    /** Hands the handle over to a connection, unless a close came first. */
    method FinishAccept(handle: nat) returns (handedOver: bool)
      requires Inv(View()) && View().acceptor == Waiting(handle)
      modifies this
      ensures Inv(View()) && View() == Next(old(View()), Step.FinishAccept)
      ensures handedOver == (handle in View().given)
    {
      StepInv(View(), Step.FinishAccept);
      ghost var after := Next(View(), Step.FinishAccept);
      handedOver := !isClosed && connecting == Some(handle);
      if handedOver {
        connecting := None;
      }
      rest := after;
    }

    /** After an exception: whether the handle is still the listener's to close. */
    method AbandonAccept(handle: nat) returns (toClose: bool)
      requires Inv(View()) && View().acceptor == Raised(handle)
      modifies this
      ensures Inv(View()) && View() == Next(old(View()), Step.AbandonAccept)
      ensures toClose == (View().acceptor == Closing(handle))
    {
      StepInv(View(), Step.AbandonAccept);
      ghost var after := Next(View(), Step.AbandonAccept);
      var owned := connecting == Some(handle);
      toClose := owned && !isClosed;
      if owned {
        connecting := None;
      }
      rest := after;
    }

    /** Takes the handles that the listener still owns; a second close takes none. */
    method Close() returns (first: Option<nat>, second: Option<nat>)
      requires Inv(View())
      modifies this
      ensures Inv(View()) && View() == Next(old(View()), Step.Close) && isClosed
      ensures View().doomed == old(View()).doomed + AsDoomed(first) + AsDoomed(second)
    {
      StepInv(View(), Step.Close);
      ghost var after := Next(View(), Step.Close);
      first, second := None, None;
      if !isClosed {
        first, second := pending, connecting;
        isClosed, pending, connecting := true, None, None;
      }
      rest := after;
    }
  }
}
