/** The supervisor and its registry as they run: dictionaries of live handles and of
    session records, changed in place one locked region at a time. */
module Supervisor {
  import opened Common
  import opened Outcomes
  import opened SupervisorTable

  class SessionRegistry {
    var records: map<string, Record>

    constructor ()
      ensures records == map[]
    {
      records := map[];
    }

    method Add(record: Record) returns (reply: Reply)
      modifies this
      ensures reply == if record.sessionId in old(records) then Exists else Fine
      ensures records == if reply == Fine then old(records)[record.sessionId := record] else old(records)
    {
      if record.sessionId in records {
        return Exists;
      }
      records := records[record.sessionId := record];
      reply := Fine;
    }

    method Replace(record: Record) returns (reply: Reply)
      modifies this
      ensures reply == if record.sessionId in old(records) then Fine else NotFound
      ensures records == if reply == Fine then old(records)[record.sessionId := record] else old(records)
    {
      if record.sessionId !in records {
        return NotFound;
      }
      records := records[record.sessionId := record];
      reply := Fine;
    }

    method Remove(sid: string) returns (reply: Reply)
      modifies this
      ensures reply == if sid in old(records) then Removed(old(records)[sid]) else NotFound
      ensures records == old(records) - {sid}
    {
      if sid !in records {
        return NotFound;
      }
      reply := Removed(records[sid]);
      records := records - {sid};
    }
  }

  class WorkerHandle {
    const id: nat
    var record: Record

    constructor (id: nat, record: Record)
      ensures this.id == id && this.record == record
    {
      this.id, this.record := id, record;
    }
  }

  /** A table with the sessions in `done` marked. */
  function Refreshed(t: Table, done: set<string>, dead: set<nat>, at: int): Table {
    t.(handles := map sid | sid in t.handles ::
         if sid in done && Dies(t.handles[sid], dead) then Lost(t.handles[sid], at) else t.handles[sid],
       registry := map sid | sid in t.registry ::
         if sid in done && sid in t.handles && Dies(t.handles[sid], dead) then Lost(t.handles[sid], at).record else t.registry[sid])
  }

  /** A table with one more session marked. */
  function RefreshedBy(t: Table, sid: string, dead: set<nat>, at: int): Table
    requires sid in t.handles
  {
    if Dies(t.handles[sid], dead) then
      var h := Lost(t.handles[sid], at);
      t.(handles := t.handles[sid := h], registry := t.registry[sid := h.record])
    else t
  }

  lemma Published(t: Table, sid: string, handle: nat, record: Record)
    requires Matched(t) && Allowed(t, Publish(sid, handle, record))
    ensures Next(t, Publish(sid, handle, record)) ==
      (t.(handles := t.handles[sid := Held(handle, record)], registry := t.registry[sid := record], used := t.used + {sid}), Fine)
    ensures Matched(Next(t, Publish(sid, handle, record)).0) && record.sessionId == sid && sid !in t.registry && sid !in t.handles
  {
    StepMatched(t, Publish(sid, handle, record));
  }

  lemma RefreshedNone(t: Table, dead: set<nat>, at: int)
    ensures Refreshed(t, {}, dead, at) == t
  {
    assert Refreshed(t, {}, dead, at).handles == t.handles && Refreshed(t, {}, dead, at).registry == t.registry;
  }

  lemma RefreshedOne(t: Table, done: set<string>, sid: string, dead: set<nat>, at: int)
    requires Matched(t) && sid in t.handles && sid !in done
    ensures var u := Refreshed(t, done, dead, at);
      && sid in u.handles && u.handles[sid] == t.handles[sid] && sid in u.registry && u.handles[sid].record.sessionId == sid
      && RefreshedBy(u, sid, dead, at) == Refreshed(t, done + {sid}, dead, at)
  {
    var u, v := Refreshed(t, done, dead, at), Refreshed(t, done + {sid}, dead, at);
    assert RefreshedBy(u, sid, dead, at).handles == v.handles;
    assert RefreshedBy(u, sid, dead, at).registry == v.registry;
  }

  lemma RefreshedAll(t: Table, dead: set<nat>, at: int)
    ensures Refreshed(t, t.handles.Keys, dead, at) == Next(t, Refresh(dead, at)).0
  {
    assert Refreshed(t, t.handles.Keys, dead, at).handles == Next(t, Refresh(dead, at)).0.handles;
    assert Refreshed(t, t.handles.Keys, dead, at).registry == Next(t, Refresh(dead, at)).0.registry;
  }

  class WorkerSupervisor {
    const registry: SessionRegistry
    var handles: map<string, WorkerHandle>
    ghost var closing: set<string>
    ghost var used: set<string>

    ghost function View(): Table
      reads this, registry, handles.Values
    {
      Table(map sid | sid in handles :: Held(handles[sid].id, handles[sid].record), registry.records, closing, used)
    }

    /** One handle per session, told apart by their identities. */
    ghost predicate Valid()
      reads this, registry, handles.Values
    {
      && Matched(View())
      && forall a, b :: a in handles && b in handles && a != b ==> handles[a] != handles[b] && handles[a].id != handles[b].id
    }

    constructor ()
      ensures Valid() && View() == Empty && fresh(registry)
    {
      registry := new SessionRegistry();
      handles, closing, used := map[], {}, {};
    }

    /** The end of a start: the new worker becomes visible, handle and entry together. */
    method Publish(sid: string, handle: WorkerHandle) returns (reply: Reply)
      requires Valid() && Allowed(View(), Step.Publish(sid, handle.id, handle.record))
      requires handle !in handles.Values && forall a <- handles :: handles[a].id != handle.id
      modifies this, registry
      ensures Valid() && (View(), reply) == Next(old(View()), Step.Publish(sid, handle.id, handle.record)) && reply == Fine
    {
      hide Matched, Next, Allowed;
      Published(View(), sid, handle.id, handle.record);
      ghost var after := Next(View(), Step.Publish(sid, handle.id, handle.record)).0;
      handles := handles[sid := handle];
      used := used + {sid};
      reply := registry.Add(handle.record);
      assert View().handles == after.handles;
    }

    /** Records a state computed earlier from the handle's record; nothing happens when
        the handle is no longer the session's. */
    method UpdateRecordState(sid: string, handle: WorkerHandle, updated: Record) returns (reply: Reply)
      requires Valid() && updated.sessionId == sid
      requires forall a <- handles :: handles[a].id == handle.id ==> handles[a] == handle
      modifies handle, registry
      ensures Valid() && (View(), reply) == Next(old(View()), Update(sid, handle.id, updated)) && reply == Fine
    {
      hide Matched;
      ghost var after := Next(View(), Update(sid, handle.id, updated)).0;
      StepMatched(View(), Update(sid, handle.id, updated));
      reply := Fine;
      if sid in handles && handles[sid] == handle {
        handle.record := updated;
        reply := registry.Replace(updated);
      }
      assert View().handles == after.handles;
    }

    /** The first half of a shutdown: takes the handle, or removes the entry of a session
        already lost. */
    method BeginShutdown(sid: string) returns (handle: WorkerHandle?, reply: Reply)
      requires Valid()
      modifies this, registry
      ensures Valid() && (View(), reply) == Next(old(View()), Step.BeginShutdown(sid))
      ensures if sid in old(handles) then handle == old(handles)[sid] else handle == null
    {
      hide Matched;
      ghost var after := Next(View(), Step.BeginShutdown(sid)).0;
      StepMatched(View(), Step.BeginShutdown(sid));
      handle := null;
      if sid in handles {
        handle := handles[sid];
        handles := handles - {sid};
        closing := closing + {sid};
        reply := Fine;
      } else if sid !in registry.records {
        reply := NotFound;
      } else if registry.records[sid].state == "lost" {
        reply := registry.Remove(sid);
      } else {
        reply := NotFound;
      }
      assert View().handles == after.handles;
    }

    /** The second half, after the worker was asked to end: removes the entry. */
    method FinishShutdown(sid: string) returns (reply: Reply)
      requires Valid() && sid in closing
      modifies this`closing, registry
      ensures Valid() && (View(), reply) == Next(old(View()), Step.FinishShutdown(sid))
    {
      hide Matched;
      ghost var after := Next(View(), Step.FinishShutdown(sid)).0;
      StepMatched(View(), Step.FinishShutdown(sid));
      reply := registry.Remove(sid);
      closing := closing - {sid};
      assert View().handles == after.handles && View().registry == after.registry;
    }

    method InvalidateHandle(sid: string, handle: WorkerHandle)
      requires Valid()
      requires forall a <- handles :: handles[a].id == handle.id ==> handles[a] == handle
      modifies this
      ensures Valid() && View() == Next(old(View()), Invalidate(sid, handle.id)).0
    {
      hide Matched;
      ghost var after := Next(View(), Invalidate(sid, handle.id)).0;
      StepMatched(View(), Invalidate(sid, handle.id));
      if sid in handles && handles[sid] == handle {
        handles := handles - {sid};
      }
      assert View().handles == after.handles;
    }

    /** Marks the sessions whose worker process has ended. */
    method RefreshDeadWorkers(dead: set<nat>, at: int)
      requires Valid()
      modifies registry, handles.Values
      ensures Valid() && View() == Next(old(View()), Refresh(dead, at)).0
    {
      hide Matched, Next, Refreshed, RefreshedBy, Dies, Lost;
      ghost var before := View();
      StepMatched(before, Refresh(dead, at));
      var left := handles.Keys;
      RefreshedNone(before, dead, at);
      assert handles.Keys - left == {};
      while left != {}
        invariant left <= handles.Keys
        invariant View() == Refreshed(before, handles.Keys - left, dead, at)
      {
        var sid :| sid in left;
        assert handles.Keys - (left - {sid}) == (handles.Keys - left) + {sid};
        RefreshedOne(before, handles.Keys - left, sid, dead, at);
        RefreshHandle(sid, handles[sid], dead, at);
        left := left - {sid};
      }
      assert handles.Keys - left == before.handles.Keys;
      RefreshedAll(before, dead, at);
    }

    method RefreshHandle(sid: string, handle: WorkerHandle, dead: set<nat>, at: int)
      requires sid in handles && handles[sid] == handle && handle.record.sessionId == sid && sid in registry.records
      requires forall a, b :: a in handles && b in handles && a != b ==> handles[a] != handles[b]
      modifies registry, handle
      ensures View() == RefreshedBy(old(View()), sid, dead, at)
    {
      if handle.id in dead && handle.record.state != "lost" {
        handle.record := WithState(handle.record, "lost", at);
        var reply := registry.Replace(handle.record);
      }
      assert View().handles == RefreshedBy(old(View()), sid, dead, at).handles;
      assert View().registry == RefreshedBy(old(View()), sid, dead, at).registry;
    }

    /** A request's aftermath when no other thread comes between: the state the worker
        named is recorded, unless it answered with the one already recorded, and a lost
        worker's handle is taken away. */
    method Conclude(sid: string, handle: WorkerHandle, result: HandleResult, told: Option<string>, at: int)
      requires Valid() && NoZombies(View()) && sid in handles && handles[sid] == handle
      modifies this, handle, registry
      ensures Valid() && NoZombies(View())
      ensures result.Refused? && result.state == Some("lost") ==>
        sid !in handles && sid in registry.records && registry.records[sid].state == "lost"
      ensures result.Answered? && told.Some? ==> sid in registry.records && registry.records[sid].state == told.value
      ensures result.Answered? && (told == None || told.value == old(handle.record.state)) ==> View() == old(View())
      ensures handle.record == (
        if result.Answered? && told.Some? && told.value != old(handle.record.state) then WithState(old(handle.record), told.value, at)
        else if result.Refused? && result.state.Some? then WithState(old(handle.record), result.state.value, at)
        else old(handle.record))
    {
      var state := if !result.Answered? then result.state else if told != Some(handle.record.state) then told else None;
      if state != None {
        var updated := WithState(handle.record, state.value, at);
        assert View().handles[sid] == Held(handle.id, handle.record);
        StepLeavesNoZombie(View(), Update(sid, handle.id, updated));
        var reply := UpdateRecordState(sid, handle, updated);
      }
      if result.Refused? && result.state == Some("lost") {
        StepLeavesNoZombie(View(), Invalidate(sid, handle.id));
        InvalidateHandle(sid, handle);
      }
    }
  }
}
