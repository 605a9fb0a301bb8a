/** The supervisor's two tables under interleaving. Every step here is one region that
    the code runs under its lock; threads may run anything between two of them. */
module SupervisorTable {
  datatype Record = Record(sessionId: string, state: string, lastActivity: int)

  /** A live handle, by its identity, and the record it carries. */
  datatype Held = Held(handle: nat, record: Record)

  /** `closing` are the sessions whose handle a shutdown has taken and whose entry it
      has still to remove. */
  datatype Table = Table(handles: map<string, Held>, registry: map<string, Record>, closing: set<string>, used: set<string>)

  datatype Step =
    | Publish(sid: string, handle: nat, record: Record)
    | Update(sid: string, handle: nat, updated: Record)
    | Refresh(dead: set<nat>, at: int)
    | BeginShutdown(sid: string)
    | FinishShutdown(sid: string)
    | Invalidate(sid: string, handle: nat)

  /** What the region reports to its caller. */
  datatype Reply = Fine | Removed(record: Record) | NotFound | Exists

  function WithState(r: Record, state: string, at: int): Record {
    r.(state := state, lastActivity := at)
  }

  predicate Holds(t: Table, sid: string, handle: nat) {
    sid in t.handles && t.handles[sid].handle == handle
  }

  function Lost(h: Held, at: int): Held {
    h.(record := WithState(h.record, "lost", at))
  }

  predicate Dies(h: Held, dead: set<nat>) {
    h.handle in dead && h.record.state != "lost"
  }

  function Next(t: Table, step: Step): (Table, Reply) {
    match step
    case Publish(sid, handle, record) =>
      var u := t.(handles := t.handles[sid := Held(handle, record)], used := t.used + {sid});
      if sid in t.registry then (u, Exists) else (u.(registry := t.registry[sid := record]), Fine)
    case Update(sid, handle, updated) =>
      if !Holds(t, sid, handle) then (t, Fine)
      else
        var u := t.(handles := t.handles[sid := Held(handle, updated)]);
        if sid !in t.registry then (u, NotFound) else (u.(registry := t.registry[sid := updated]), Fine)
    case Refresh(dead, at) =>
      (t.(handles := map sid | sid in t.handles :: if Dies(t.handles[sid], dead) then Lost(t.handles[sid], at) else t.handles[sid],
          registry := map sid | sid in t.registry ::
            if sid in t.handles && Dies(t.handles[sid], dead) then Lost(t.handles[sid], at).record else t.registry[sid]), Fine)
    case BeginShutdown(sid) =>
      if sid in t.handles then (t.(handles := t.handles - {sid}, closing := t.closing + {sid}), Fine)
      else if sid !in t.registry then (t, NotFound)
      else if t.registry[sid].state == "lost" then (t.(registry := t.registry - {sid}), Removed(t.registry[sid]))
      else (t, NotFound)
    case FinishShutdown(sid) =>
      if sid in t.registry then (t.(registry := t.registry - {sid}, closing := t.closing - {sid}), Removed(t.registry[sid]))
      else (t.(closing := t.closing - {sid}), NotFound)
    case Invalidate(sid, handle) =>
      (if Holds(t, sid, handle) then t.(handles := t.handles - {sid}) else t, Fine)
  }

  /** What the callers see to: a session id is new and starts out created or ready, a
      record is the session's own, and a shutdown only finishes what it began. */
  predicate Allowed(t: Table, step: Step) {
    match step
    case Publish(sid, _, record) => sid !in t.used && record.sessionId == sid && record.state in {"created", "ready"}
    case Update(sid, _, updated) => updated.sessionId == sid
    case FinishShutdown(sid) => sid in t.closing
    case _ => true
  }

  /** Every handle has a registry entry, equal to its own record. */
  predicate Matched(t: Table) {
    && (forall sid <- t.handles :: sid in t.registry && t.registry[sid] == t.handles[sid].record
                                   && t.handles[sid].record.sessionId == sid)
    && (forall sid <- t.registry :: sid in t.used)
    && (forall sid <- t.closing :: sid in t.used && sid !in t.handles)
  }

  predicate IsOrphan(t: Table, sid: string) {
    sid in t.registry && sid !in t.handles
  }

  /** An entry that no handle, no shutdown and no later close can ever remove. */
  predicate IsZombie(t: Table, sid: string) {
    IsOrphan(t, sid) && sid !in t.closing && t.registry[sid].state != "lost"
  }

  ghost predicate NoZombies(t: Table) {
    forall sid :: !IsZombie(t, sid)
  }

  const Empty := Table(map[], map[], {}, {})

  lemma EmptyMatched()
    ensures Matched(Empty) && NoZombies(Empty)
  {
  }

  /** Every step keeps handles and registry matched; so an update never fails for want
      of an entry, and a new session never finds its id taken. */
  lemma StepMatched(t: Table, step: Step)
    requires Matched(t) && Allowed(t, step)
    ensures Matched(Next(t, step).0)
    ensures step.Update? || step.Publish? ==> Next(t, step).1 == Fine
  {
  }

  /** A refresh marks every session of a dead worker as lost, in both tables, and leaves
      all others as they are. */
  lemma RefreshMarks(t: Table, dead: set<nat>, at: int, sid: string)
    requires Matched(t) && sid in t.handles
    ensures var u := Next(t, Refresh(dead, at)).0;
      && sid in u.handles && sid in u.registry && u.handles[sid].handle == t.handles[sid].handle
      && u.registry[sid] == u.handles[sid].record
      && (t.handles[sid].handle in dead ==> u.registry[sid].state == "lost")
      && (t.handles[sid].handle in dead && t.handles[sid].record.state != "lost" ==> u.registry[sid].lastActivity == at)
      && (t.handles[sid].handle !in dead || t.handles[sid].record.state == "lost" ==> u.registry[sid] == t.registry[sid])
  {
  }

  /** Entries without a handle are left as they are, and no session comes or goes. */
  lemma RefreshKeeps(t: Table, dead: set<nat>, at: int)
    ensures var u := Next(t, Refresh(dead, at)).0;
      && u.handles.Keys == t.handles.Keys && u.registry.Keys == t.registry.Keys && u.closing == t.closing
      && forall sid <- t.registry :: sid !in t.handles ==> u.registry[sid] == t.registry[sid]
  {
  }

  predicate CanRun(t: Table, steps: seq<Step>)
    decreases |steps|
  {
    steps == [] || (Allowed(t, steps[0]) && CanRun(Next(t, steps[0]).0, steps[1..]))
  }

  function Run(t: Table, steps: seq<Step>): Table
    decreases |steps|
  {
    if steps == [] then t else Run(Next(t, steps[0]).0, steps[1..])
  }

  lemma {:induction false} RunMatched(t: Table, steps: seq<Step>)
    requires Matched(t) && CanRun(t, steps)
    ensures Matched(Run(t, steps))
    decreases |steps|
  {
    hide Matched, Next, Allowed;
    if steps != [] {
      StepMatched(t, steps[0]);
      RunMatched(Next(t, steps[0]).0, steps[1..]);
    }
  }

  /** In every run from the start, handles and registry are matched. */
  lemma AlwaysMatched(steps: seq<Step>)
    requires CanRun(Empty, steps)
    ensures Matched(Run(Empty, steps))
  {
    EmptyMatched();
    RunMatched(Empty, steps);
  }

  /** THE EXACT CONDITION. A step leaves no zombie behind if and only if it does not
      take away a handle whose record is not lost. Shutdowns never do; only a thread
      whose request failed can, when another thread's answer overwrote its "lost". */
  lemma StepLeavesNoZombie(t: Table, step: Step)
    requires Matched(t) && Allowed(t, step) && NoZombies(t)
    ensures NoZombies(Next(t, step).0) <==>
      !(step.Invalidate? && Holds(t, step.sid, step.handle) && t.handles[step.sid].record.state != "lost")
  {
    var u := Next(t, step).0;
    if step.Invalidate? && Holds(t, step.sid, step.handle) {
      assert IsZombie(u, step.sid) <==> t.handles[step.sid].record.state != "lost";
    }
    forall sid | !(step.Invalidate? && sid == step.sid) ensures !IsZombie(u, sid) {
      assert !IsZombie(t, sid);
    }
  }

  /** A failed request handled in one go, "lost" recorded and the handle taken away
      with nothing in between, leaves no zombie. */
  lemma FailureAloneIsClean(t: Table, sid: string, handle: nat, at: int)
    requires Matched(t) && NoZombies(t) && Holds(t, sid, handle)
    ensures var u := Next(t, Update(sid, handle, WithState(t.handles[sid].record, "lost", at))).0;
      NoZombies(Next(u, Invalidate(sid, handle)).0)
  {
    var step := Update(sid, handle, WithState(t.handles[sid].record, "lost", at));
    StepMatched(t, step);
    StepLeavesNoZombie(t, step);
    StepLeavesNoZombie(Next(t, step).0, Invalidate(sid, handle));
  }

  /** A run that leaves a zombie: one thread's answer, received before the worker was
      lost, is recorded between another thread's "lost" and its removal of the handle. */
  lemma ZombieRun(sid: string, handle: nat) returns (steps: seq<Step>)
    ensures CanRun(Empty, steps) && IsZombie(Run(Empty, steps), sid)
  {
    var record := Record(sid, "ready", 0);
    steps := [Publish(sid, handle, record), Update(sid, handle, WithState(record, "lost", 1)),
              Update(sid, handle, WithState(record, "ready", 2)), Invalidate(sid, handle)];
    var t1 := Next(Empty, steps[0]).0;
    var t2 := Next(t1, steps[1]).0;
    var t3 := Next(t2, steps[2]).0;
    var t4 := Next(t3, steps[3]).0;
    assert t3.handles[sid].record.state == "ready" && t3.registry[sid].state == "ready";
    assert IsZombie(t4, sid);
    assert steps[1..][0] == steps[1] && steps[1..][1..] == steps[2..] && steps[2..][1..] == steps[3..] && steps[3..][1..] == [];
    assert CanRun(t3, steps[3..]) && Run(t3, steps[3..]) == Run(t4, []) == t4;
    assert CanRun(t2, steps[2..]) && Run(t2, steps[2..]) == t4;
    assert CanRun(t1, steps[1..]) && Run(t1, steps[1..]) == t4;
  }

  /** A zombie stays as it is through every run, and closing it always fails. */
  lemma {:induction false} ZombieForever(t: Table, steps: seq<Step>, sid: string)
    requires Matched(t) && CanRun(t, steps) && IsZombie(t, sid)
    ensures IsZombie(Run(t, steps), sid) && Run(t, steps).registry[sid] == t.registry[sid]
    ensures Next(Run(t, steps), BeginShutdown(sid)) == (Run(t, steps), NotFound)
    decreases |steps|
  {
    hide Matched;
    if steps != [] {
      StepMatched(t, steps[0]);
      ZombieStep(t, steps[0], sid);
      ZombieForever(Next(t, steps[0]).0, steps[1..], sid);
    }
  }

  lemma ZombieStep(t: Table, step: Step, sid: string)
    requires Matched(t) && Allowed(t, step) && IsZombie(t, sid)
    ensures IsZombie(Next(t, step).0, sid) && Next(t, step).0.registry[sid] == t.registry[sid]
  {
  }

  /** An entry whose shutdown is under way stays as it is, unless it is lost and another
      close takes it away. */
  lemma ClosingStep(t: Table, step: Step, sid: string)
    requires Matched(t) && Allowed(t, step) && sid in t.closing && step != FinishShutdown(sid)
    ensures var u := Next(t, step).0;
      && sid in u.closing
      && (sid in u.registry <==> sid in t.registry && !(step == BeginShutdown(sid) && t.registry[sid].state == "lost"))
      && (sid in u.registry ==> u.registry[sid] == t.registry[sid])
  {
  }

  lemma {:induction false} ClosingRun(t: Table, steps: seq<Step>, sid: string)
    requires Matched(t) && CanRun(t, steps) && sid in t.closing && FinishShutdown(sid) !in steps
    ensures var u := Run(t, steps);
      && (sid in u.registry <==> sid in t.registry && !(BeginShutdown(sid) in steps && t.registry[sid].state == "lost"))
      && (sid in u.registry ==> u.registry[sid] == t.registry[sid])
    decreases |steps|
  {
    hide Matched, Allowed, Next;
    if steps != [] {
      assert steps[0] in steps && steps == [steps[0]] + steps[1..];
      StepMatched(t, steps[0]);
      ClosingStep(t, steps[0], sid);
      ClosingRun(Next(t, steps[0]).0, steps[1..], sid);
    }
  }

  /** THE EXACT CONDITION. Whatever happens between the two halves of a shutdown, the
      second one finds the entry as the first one left it, or finds it gone; and that
      if and only if the session was lost by then and another close came in between. */
  lemma FinishFindsEntry(t: Table, steps: seq<Step>, sid: string)
    requires Matched(t) && sid in t.handles && FinishShutdown(sid) !in steps
    requires CanRun(Next(t, BeginShutdown(sid)).0, steps)
    ensures var reply := Next(Run(Next(t, BeginShutdown(sid)).0, steps), FinishShutdown(sid)).1;
      && reply in {NotFound, Removed(t.handles[sid].record)}
      && (reply == NotFound <==> t.handles[sid].record.state == "lost" && BeginShutdown(sid) in steps)
  {
    StepMatched(t, BeginShutdown(sid));
    ClosingRun(Next(t, BeginShutdown(sid)).0, steps, sid);
  }

  /** Two closes of a session whose worker died: the second removes the entry, and the
      first, which had the handle, reports that the session does not exist. */
  lemma FirstCloseLoses(sid: string, handle: nat) returns (steps: seq<Step>)
    ensures CanRun(Empty, steps) && sid in Run(Empty, steps).closing
    ensures Next(Run(Empty, steps), FinishShutdown(sid)).1 == NotFound
  {
    steps := [Publish(sid, handle, Record(sid, "ready", 0)), Refresh({handle}, 1), BeginShutdown(sid), BeginShutdown(sid)];
    var t1 := Next(Empty, steps[0]).0;
    var t2 := Next(t1, steps[1]).0;
    var t3 := Next(t2, steps[2]).0;
    var t4 := Next(t3, steps[3]).0;
    assert Dies(t1.handles[sid], {handle}) && t2.registry[sid].state == "lost";
    assert steps[1..][0] == steps[1] && steps[1..][1..] == steps[2..] && steps[2..][1..] == steps[3..] && steps[3..][1..] == [];
    assert CanRun(t3, steps[3..]) && Run(t3, steps[3..]) == Run(t4, []) == t4;
    assert CanRun(t2, steps[2..]) && Run(t2, steps[2..]) == t4;
    assert CanRun(t1, steps[1..]) && Run(t1, steps[1..]) == t4;
  }
}
