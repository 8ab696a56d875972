/** The wake side of the fleet-supervisor service: the scans as methods over the durable queue. */
module Supervisor {
  import opened Prelude
  import opened WakeQueue

  datatype WakeError = NoTarget | NoKind

  datatype Group = Group(agentId: Agent, members: seq<nat>)

  /** The queue's invariant: unique issued ids, and every tracking record matches a woken entry. */
  ghost predicate QueueKept(entries: seq<WakeEntry>, active: map<string, ActiveWake>, wakeSeq: nat) {
    && IdsDistinct(entries)
    && (forall i :: 0 <= i < |entries| ==> Issued(entries[i], wakeSeq))
    && (forall id :: id in active ==> exists i :: 0 <= i < |entries| && Matches(entries[i], id, active[id]))
  }

  predicate Issued(e: WakeEntry, wakeSeq: nat) {
    exists n: nat :: 1 <= n <= wakeSeq && e.id == EntryId(e.kind, n)
  }

  predicate Matches(e: WakeEntry, id: string, record: ActiveWake) {
    e.id == id && e.status == Woken && e.targetAgentId == record.agentId && e.wokenAt == Some(record.wokeAt)
  }

  function NewEntry(input: WakeInput, serial: nat, now: int): WakeEntry {
    WakeEntry(EntryId(input.kind, serial), input.targetAgentId, if input.dueAt.Some? then input.dueAt.value else now,
              input.kind, input.context, Pending, now, None, None, None, 0)
  }

  class FleetSupervisor {
    const orphanThresholdMs: int
    const budgetRetryMs: int
    var entries: seq<WakeEntry>
    var activeWakes: map<string, ActiveWake>
    var wakeSeq: nat

    ghost predicate Valid()
      reads this
    {
      QueueKept(entries, activeWakes, wakeSeq)
    }

    constructor (orphanThresholdMs: int, budgetRetryMs: int)
      ensures Valid() && entries == [] && activeWakes == map[] && wakeSeq == 0
      ensures this.orphanThresholdMs == orphanThresholdMs && this.budgetRetryMs == budgetRetryMs
    {
      this.orphanThresholdMs := orphanThresholdMs;
      this.budgetRetryMs := budgetRetryMs;
      entries := [];
      activeWakes := map[];
      wakeSeq := 0;
    }

    /** Inserts an entry, or replaces the entry with its id. */
    method Upsert(entry: WakeEntry)
      modifies this`entries
      ensures match Find(old(entries), entry.id)
              case None => entries == old(entries) + [entry]
              case Some(i) => entries == old(entries)[i := entry]
    {
      var at := Find(entries, entry.id);
      entries := if at.Some? then entries[at.value := entry] else entries + [entry];
    }

    method EnqueueWake(input: WakeInput, now: int) returns (r: Result<WakeEntry, WakeError>)
      requires Valid()
      modifies this
      ensures Valid() && activeWakes == old(activeWakes)
      ensures input.targetAgentId == "" ==> r == Err(NoTarget)
      ensures input.targetAgentId != "" && input.kind == "" ==> r == Err(NoKind)
      ensures r.Err? ==> entries == old(entries) && wakeSeq == old(wakeSeq)
      ensures input.targetAgentId != "" && input.kind != "" ==>
                && wakeSeq == old(wakeSeq) + 1
                && r == Ok(NewEntry(input, wakeSeq, now)) && entries == old(entries) + [r.value]
    {
      if |input.targetAgentId| == 0 { return Err(NoTarget); }
      if |input.kind| == 0 { return Err(NoKind); }
      NewIdIsFresh(entries, activeWakes, wakeSeq, input, now);
      wakeSeq := wakeSeq + 1;
      var entry := NewEntry(input, wakeSeq, now);
      Upsert(entry);
      return Ok(entry);
    }

    /** Marks one wake completed, whatever its state, and stops tracking it. */
    method CompleteWake(entryId: string, agentId: Agent)
      requires Valid()
      modifies this
      ensures Valid() && wakeSeq == old(wakeSeq) && activeWakes == old(activeWakes) - {entryId}
      ensures |entries| == |old(entries)|
      ensures forall i :: 0 <= i < |entries| ==>
                entries[i] == if old(entries)[i].id == entryId then old(entries)[i].(status := Completed)
                  else old(entries)[i]
    {
      ghost var es, active := entries, activeWakes;
      activeWakes := activeWakes - {entryId};
      var at := Find(entries, entryId);
      if at.Some? {
        Upsert(entries[at.value].(status := Completed));
      }
      CompletionKeeps(es, active, wakeSeq, entryId, entries);
    }

    /** Completes every tracked wake of an agent. */
    method CompleteAgent(agentId: Agent)
      requires Valid()
      modifies this
      ensures Valid() && wakeSeq == old(wakeSeq)
      ensures activeWakes == map id | id in old(activeWakes)
              && old(activeWakes)[id].agentId != agentId :: old(activeWakes)[id]
      ensures |entries| == |old(entries)|
      ensures forall i :: 0 <= i < |entries| ==>
                entries[i] == if old(entries)[i].id in old(activeWakes)
                  && old(activeWakes)[old(entries)[i].id].agentId == agentId
                              then old(entries)[i].(status := Completed) else old(entries)[i]
    {
      hide QueueKept;
      ghost var es := entries;
      var snapshot := activeWakes;
      var rest := snapshot.Keys;
      while rest != {}
        invariant rest <= snapshot.Keys
        invariant Valid() && wakeSeq == old(wakeSeq)
        invariant activeWakes == map id | id in snapshot
                  && (snapshot[id].agentId != agentId || id in rest) :: snapshot[id]
        invariant |entries| == |es|
        invariant forall i :: 0 <= i < |es| ==>
                    entries[i] == if es[i].id in snapshot && snapshot[es[i].id].agentId == agentId && es[i].id !in rest
                                  then es[i].(status := Completed) else es[i]
      {
        HasText(rest);
        var id :| id in rest;
        rest := rest - {id};
        if snapshot[id].agentId == agentId {
          CompleteWake(id, agentId);
        }
      }
    }

    /**
     * Due entries, one wake per agent: agents that are disabled or out of reach keep them pending, a budget
     * warning blocks them.
     */
    method WakeScan(now: int, world: World) returns (deliveries: seq<Delivery>)
      requires Valid()
      modifies this
      ensures Valid() && wakeSeq == old(wakeSeq)
      ensures ScanDone(world, now, budgetRetryMs, old(entries), old(activeWakes), entries, activeWakes, deliveries)
    {
      hide QueueKept, DueAt, Handled, Due, TrackedAfter, Delivered;
      ghost var es, act := entries, activeWakes;
      DistinctOf(es, act, wakeSeq);
      Reactivate(now);
      ghost var rs := entries;
      assert rs == AllReactivated(es, now);
      var groups := GroupByAgent(entries, now);
      deliveries := [];
      ghost var done: set<Agent> := {};
      NothingDelivered(world, now, rs, act);
      for g := 0 to |groups|
        invariant wakeSeq == old(wakeSeq)
        invariant done == AgentsOf(groups[..g])
        invariant HandledIn(world, now, budgetRetryMs, rs, entries, done)
        invariant TrackedAfter(world, now, rs, act, activeWakes, done)
        invariant Delivered(world, now, rs, done, deliveries)
      {
        var agent, members := groups[g].agentId, groups[g].members;
        NewAgent(rs, now, groups, g);
        AgentsNext(groups, g);
        DeliveredNext(world, now, rs, done, agent, deliveries);
        ghost var mid, tracked := entries, activeWakes;
        MembersOpen(world, now, budgetRetryMs, rs, entries, done, agent, members);
        if !world.enabled(agent) || (world.level(agent) == "ok" && !world.live(agent)) {
          SkippedGroup(world, now, budgetRetryMs, rs, act, entries, activeWakes, done, agent);
          done := done + {agent};
          continue;
        }
        if world.level(agent) != "ok" {
          BlockAll(members, world.level(agent), now + budgetRetryMs);
          BlockedGroup(world, now, budgetRetryMs, rs, act, mid, entries, activeWakes, done, agent, members);
          done := done + {agent};
          continue;
        }
        deliveries := deliveries + [Delivery(agent, IdsAt(entries, members))];
        WakeAll(members, agent, now);
        WokenGroup(world, now, budgetRetryMs, rs, act, mid, tracked, entries, activeWakes, done, agent, members);
        done := done + {agent};
      }
      assert groups[..|groups|] == groups;
      ScanFinished(world, now, budgetRetryMs, es, act, rs, entries, activeWakes, groups, deliveries);
      ScanKeeps(world, now, budgetRetryMs, es, act, wakeSeq, entries, activeWakes, deliveries);
    }

    method Reactivate(now: int)
      modifies this`entries
      ensures entries == AllReactivated(old(entries), now)
    {
      ghost var es := entries;
      for i := 0 to |entries|
        invariant |entries| == |es|
        invariant forall k :: 0 <= k < |es| ==> entries[k] == if k < i then Reactivated(es[k], now) else es[k]
      {
        var entry := entries[i];
        if entry.status == Blocked && entry.retryAt.Some? && entry.retryAt.value <= now {
          entries := entries[i := entry.(status := Pending, blockedReason := None)];
        }
      }
    }

    method BlockAll(members: seq<nat>, level: string, retryAt: int)
      requires forall k :: 0 <= k < |members| ==> members[k] < |entries|
      requires forall j, k :: 0 <= j < k < |members| ==> members[j] < members[k]
      modifies this`entries
      ensures |entries| == |old(entries)|
      ensures forall i :: 0 <= i < |entries| ==>
                entries[i] == if i in members then BlockedEntry(old(entries)[i], level, retryAt) else old(entries)[i]
    {
      ghost var es := entries;
      for k := 0 to |members|
        invariant |entries| == |es|
        invariant forall i :: 0 <= i < |es| ==>
                    entries[i] == if i in members[..k] then BlockedEntry(es[i], level, retryAt) else es[i]
      {
        assert members[..k + 1] == members[..k] + [members[k]];
        entries := entries[members[k] := BlockedEntry(entries[members[k]], level, retryAt)];
      }
      assert members[..|members|] == members;
    }

    method WakeAll(members: seq<nat>, agent: Agent, now: int)
      requires forall k :: 0 <= k < |members| ==> members[k] < |entries|
      requires forall j, k :: 0 <= j < k < |members| ==> members[j] < members[k]
      modifies this`entries, this`activeWakes
      ensures |entries| == |old(entries)|
      ensures forall i :: 0 <= i < |entries| ==>
                entries[i] == if i in members then WokenEntry(old(entries)[i], now) else old(entries)[i]
      ensures forall i :: i in members ==>
                old(entries)[i].id in activeWakes && activeWakes[old(entries)[i].id] == ActiveWake(agent, now)
      ensures forall id :: id in activeWakes ==>
                (id in old(activeWakes) && activeWakes[id] == old(activeWakes)[id])
                || (activeWakes[id] == ActiveWake(agent, now) && exists i :: i in members && old(entries)[i].id == id)
      ensures forall id :: id in old(activeWakes) ==>
                && id in activeWakes
                && (activeWakes[id] == old(activeWakes)[id] || exists i :: i in members && old(entries)[i].id == id)
    {
      hide WokenEntry;
      ghost var es := entries;
      for k := 0 to |members|
        invariant |entries| == |es|
        invariant forall i :: 0 <= i < |es| ==>
                    entries[i] == if i in members[..k] then WokenEntry(es[i], now) else es[i]
        invariant forall i :: i in members[..k] ==>
                    es[i].id in activeWakes && activeWakes[es[i].id] == ActiveWake(agent, now)
        invariant forall id :: id in activeWakes ==>
                    (id in old(activeWakes) && activeWakes[id] == old(activeWakes)[id])
                    || (activeWakes[id] == ActiveWake(agent, now) && exists i :: i in members[..k] && es[i].id == id)
        invariant forall id :: id in old(activeWakes) ==>
                    && id in activeWakes
                    && (activeWakes[id] == old(activeWakes)[id] || exists i :: i in members[..k] && es[i].id == id)
      {
        assert members[..k + 1] == members[..k] + [members[k]];
        var entry := entries[members[k]];
        entries := entries[members[k] := WokenEntry(entry, now)];
        activeWakes := activeWakes[entry.id := ActiveWake(agent, now)];
      }
      assert members[..|members|] == members;
    }

    /** The wakes of stalled agents go to their successors, each at most once per scan. */
    method TakeoverScan(agents: seq<(Agent, bool)>, successor: Agent -> Option<Agent>, now: int)
      requires Valid()
      modifies this
      ensures Valid() && wakeSeq == old(wakeSeq)
      ensures TakeoverDone(StalledOf(agents), successor, now, old(entries), old(activeWakes), entries, activeWakes)
    {
      hide QueueKept;
      ghost var es, act := entries, activeWakes;
      DistinctOf(es, act, wakeSeq);
      var seen: set<string> := {};
      NothingTaken(successor, now, es, act);
      for k := 0 to |agents|
        invariant wakeSeq == old(wakeSeq)
        invariant TakeoverDone(StalledOf(agents[..k]), successor, now, es, act, entries, activeWakes)
        invariant forall id :: id in seen <==> TakeableId(es, StalledOf(agents[..k]), id)
      {
        StalledNext(agents, k);
        if !agents[k].1 { continue; }
        ghost var mid, tracked, before := entries, activeWakes, seen;
        seen := TakeFrom(agents[k].0, successor, seen, now);
        TakeoverNext(StalledOf(agents[..k]), agents[k].0, successor, now, es, act, mid, tracked, before, entries,
                     activeWakes, seen);
      }
      assert agents[..|agents|] == agents;
      TakeoverKeeps(StalledOf(agents), successor, now, es, act, wakeSeq, entries, activeWakes);
    }

    method TakeFrom(agent: Agent, successor: Agent -> Option<Agent>, seen: set<string>, now: int)
      returns (seen': set<string>)
      requires IdsDistinct(entries)
      modifies this`entries, this`activeWakes
      ensures |entries| == |old(entries)|
      ensures forall i :: 0 <= i < |entries| ==>
                entries[i] == if Taken(old(entries)[i], agent, seen) then TakenEntry(old(entries)[i], successor, now)
                  else old(entries)[i]
      ensures forall id :: id in seen' <==> id in seen || TakenId(old(entries), agent, seen, id)
      ensures forall id :: id in activeWakes <==>
                id in old(activeWakes) && !TakenId(old(entries), agent, seen, id)
      ensures forall id :: id in activeWakes ==> activeWakes[id] == old(activeWakes)[id]
    {
      hide TakenEntry;
      seen' := seen;
      ghost var es := entries;
      for n := 0 to |entries|
        invariant |entries| == |es|
        invariant forall i :: 0 <= i < |es| ==>
                    entries[i] == if i < n && Taken(es[i], agent, seen) then TakenEntry(es[i], successor, now)
                      else es[i]
        invariant forall id :: id in seen'
                    <==> id in seen || exists i :: 0 <= i < n && es[i].id == id && Taken(es[i], agent, seen)
        invariant forall id :: id in activeWakes <==>
                    id in old(activeWakes) && !exists i :: 0 <= i < n && es[i].id == id && Taken(es[i], agent, seen)
        invariant forall id :: id in activeWakes ==> activeWakes[id] == old(activeWakes)[id]
      {
        var entry := entries[n];
        if entry.targetAgentId == agent && (entry.status == Pending || entry.status == Woken) && entry.id !in seen {
          seen' := seen' + {entry.id};
          entries := entries[n := TakenEntry(entry, successor, now)];
          activeWakes := activeWakes - {entry.id};
        }
      }
    }

    /** Delivered wakes without completion or sign of life are pending again; stale records go. */
    method OrphanScan(lastSeen: Agent -> Option<int>, now: int)
      requires Valid()
      modifies this
      ensures Valid() && wakeSeq == old(wakeSeq)
      ensures OrphansDone(lastSeen, now, orphanThresholdMs, old(entries), old(activeWakes), entries, activeWakes)
    {
      hide QueueKept, OrphanedEntry;
      ghost var es := entries;
      var snapshot := activeWakes;
      DistinctOf(es, snapshot, wakeSeq);
      var rest := snapshot.Keys;
      while rest != {}
        invariant rest <= snapshot.Keys && wakeSeq == old(wakeSeq)
        invariant |entries| == |es|
        invariant forall i :: 0 <= i < |es| ==>
                    entries[i] == if es[i].id in snapshot && es[i].id !in rest
                      && Dead(snapshot[es[i].id], now, orphanThresholdMs, lastSeen)
                                  then OrphanedEntry(es[i], now) else es[i]
        invariant activeWakes == map id | id in snapshot
                  && (id in rest || !TimedOut(snapshot[id], now, orphanThresholdMs)) :: snapshot[id]
      {
        HasText(rest);
        var id :| id in rest;
        rest := rest - {id};
        var record := snapshot[id];
        if now - record.wokeAt <= orphanThresholdMs { continue; }
        activeWakes := activeWakes - {id};
        var at := Find(entries, id);
        if at.None? {
          NotThere(es, entries, id);
          continue;
        }
        var seenAt := lastSeen(record.agentId);
        if seenAt.Some? && seenAt.value > record.wokeAt { continue; }
        SameIds(es, entries, at.value);
        entries := entries[at.value := OrphanedEntry(entries[at.value], now)];
      }
      OrphansKeep(lastSeen, now, orphanThresholdMs, es, snapshot, wakeSeq, entries, activeWakes);
    }
  }

  lemma NewIdIsFresh(entries: seq<WakeEntry>, active: map<string, ActiveWake>, wakeSeq: nat, input: WakeInput, now: int)
    requires QueueKept(entries, active, wakeSeq)
    ensures var e := NewEntry(input, wakeSeq + 1, now);
            Find(entries, e.id).None? && QueueKept(entries + [e], active, wakeSeq + 1)
  {
    hide EntryId;
    var e := NewEntry(input, wakeSeq + 1, now);
    forall i | 0 <= i < |entries| ensures entries[i].id != e.id {
      assert Issued(entries[i], wakeSeq);
      var n: nat :| 1 <= n <= wakeSeq && entries[i].id == EntryId(entries[i].kind, n);
      EntryIdsUnique(entries[i].kind, n, input.kind, wakeSeq + 1);
    }
    var next := entries + [e];
    forall id | id in active ensures exists i :: 0 <= i < |next| && Matches(next[i], id, active[id]) {
      var i :| 0 <= i < |entries| && Matches(entries[i], id, active[id]);
      assert next[i] == entries[i];
    }
  }

  lemma CompletionKeeps(entries: seq<WakeEntry>, active: map<string, ActiveWake>, wakeSeq: nat, id: string,
          next: seq<WakeEntry>)
    requires QueueKept(entries, active, wakeSeq)
    requires match Find(entries, id)
             case None => next == entries
             case Some(i) => next == entries[i := entries[i].(status := Completed)]
    ensures QueueKept(next, active - {id}, wakeSeq)
    ensures forall i :: 0 <= i < |entries| ==>
              next[i] == if entries[i].id == id then entries[i].(status := Completed) else entries[i]
  {
    hide EntryId;
    assert forall i :: 0 <= i < |entries| ==> next[i].id == entries[i].id && next[i].kind == entries[i].kind;
    forall x | x in active - {id} ensures exists i :: 0 <= i < |next| && Matches(next[i], x, active[x]) {
      var i :| 0 <= i < |entries| && Matches(entries[i], x, active[x]);
      assert next[i] == entries[i];
    }
  }

  // ---- takeover ----

  function StalledOf(agents: seq<(Agent, bool)>): set<Agent> {
    set k | 0 <= k < |agents| && agents[k].1 :: agents[k].0
  }

  predicate Taken(e: WakeEntry, agent: Agent, seen: set<string>) {
    e.targetAgentId == agent && (e.status == Pending || e.status == Woken) && e.id !in seen
  }

  ghost predicate TakenId(entries: seq<WakeEntry>, agent: Agent, seen: set<string>, id: string) {
    exists i :: 0 <= i < |entries| && entries[i].id == id && Taken(entries[i], agent, seen)
  }

  lemma DistinctOf(entries: seq<WakeEntry>, active: map<string, ActiveWake>, wakeSeq: nat)
    requires QueueKept(entries, active, wakeSeq)
    ensures IdsDistinct(entries)
  {
  }

  lemma StalledNext(agents: seq<(Agent, bool)>, k: nat)
    requires k < |agents|
    ensures StalledOf(agents[..0]) == {}
    ensures StalledOf(agents[..k + 1]) == StalledOf(agents[..k]) + if agents[k].1 then {agents[k].0} else {}
  {
    var a, b := agents[..k], agents[..k + 1];
    assert b[k] == agents[k];
    assert forall j :: 0 <= j < k ==> a[j] == b[j];
    forall x | x in StalledOf(a) ensures x in StalledOf(b) {
      var j :| 0 <= j < k && a[j].1 && a[j].0 == x;
      assert b[j].1;
    }
    forall x | x in StalledOf(b) && !(agents[k].1 && x == agents[k].0) ensures x in StalledOf(a) {
      var j :| 0 <= j < k + 1 && b[j].1 && b[j].0 == x;
      assert a[j].1;
    }
    assert agents[k].1 ==> agents[k].0 in StalledOf(b) by { assert agents[k].1 ==> b[k].1; }
  }

  lemma NothingTaken(successor: Agent -> Option<Agent>, now: int, es: seq<WakeEntry>, act: map<string, ActiveWake>)
    ensures TakeoverDone({}, successor, now, es, act, es, act)
  {
  }

  /** One more stalled agent: exactly its entries that nobody took before are taken. */
  lemma TakeoverNext(stalled: set<Agent>, agent: Agent, successor: Agent -> Option<Agent>, now: int, es: seq<WakeEntry>,
          act: map<string, ActiveWake>, mid: seq<WakeEntry>, tracked: map<string, ActiveWake>, seen: set<string>,
          entries: seq<WakeEntry>, active: map<string, ActiveWake>, seen': set<string>)
    requires IdsDistinct(es) && TakeoverDone(stalled, successor, now, es, act, mid, tracked)
    requires forall id :: id in seen <==> TakeableId(es, stalled, id)
    requires |entries| == |mid|
    requires forall i :: 0 <= i < |mid| ==>
               entries[i] == if Taken(mid[i], agent, seen) then TakenEntry(mid[i], successor, now) else mid[i]
    requires forall id :: id in seen' <==> id in seen || TakenId(mid, agent, seen, id)
    requires forall id :: id in active <==> id in tracked && !TakenId(mid, agent, seen, id)
    requires forall id :: id in active ==> active[id] == tracked[id]
    ensures TakeoverDone(stalled + {agent}, successor, now, es, act, entries, active)
    ensures forall id :: id in seen' <==> TakeableId(es, stalled + {agent}, id)
  {
    hide IdsDistinct, Taken, TakenEntry, Takeable, TakenId, TakeableId;
    TakenPlaces(stalled, agent, successor, now, es, act, mid, tracked, seen);
    TakenIds(stalled, agent, es, mid, seen);
  }

  /** An entry taken by now was taken before or is this agent's. */
  lemma TakenIds(stalled: set<Agent>, agent: Agent, es: seq<WakeEntry>, mid: seq<WakeEntry>, seen: set<string>)
    requires |mid| == |es|
    requires forall id :: id in seen <==> TakeableId(es, stalled, id)
    requires forall i :: 0 <= i < |es| ==>
               && mid[i].id == es[i].id
               && (Taken(mid[i], agent, seen) <==> Takeable(es[i], stalled + {agent}) && !Takeable(es[i], stalled))
               && (Takeable(es[i], stalled) ==> Takeable(es[i], stalled + {agent}))
    ensures forall id :: TakeableId(es, stalled + {agent}, id) <==> id in seen || TakenId(mid, agent, seen, id)
  {
    hide Taken, Takeable;
    forall id
      ensures TakeableId(es, stalled + {agent}, id) <==> id in seen || TakenId(mid, agent, seen, id)
    {
      if i :| 0 <= i < |es| && es[i].id == id && Takeable(es[i], stalled + {agent}) {
        assert Takeable(es[i], stalled) || Taken(mid[i], agent, seen);
      }
    }
  }

  /** The entries this agent loses are its own that no agent before it lost. */
  lemma TakenPlaces(stalled: set<Agent>, agent: Agent, successor: Agent -> Option<Agent>, now: int, es: seq<WakeEntry>,
          act: map<string, ActiveWake>, mid: seq<WakeEntry>, tracked: map<string, ActiveWake>, seen: set<string>)
    requires IdsDistinct(es) && TakeoverDone(stalled, successor, now, es, act, mid, tracked)
    requires forall id :: id in seen <==> TakeableId(es, stalled, id)
    ensures forall i :: 0 <= i < |es| ==>
              && mid[i].id == es[i].id
              && (Taken(mid[i], agent, seen) <==> Takeable(es[i], stalled + {agent}) && !Takeable(es[i], stalled))
              && (Takeable(es[i], stalled) ==> Takeable(es[i], stalled + {agent}) && mid[i].id in seen)
              && (!Takeable(es[i], stalled) ==> mid[i] == es[i])
  {
    forall i | 0 <= i < |es|
      ensures mid[i].id == es[i].id
      ensures Taken(mid[i], agent, seen) <==> Takeable(es[i], stalled + {agent}) && !Takeable(es[i], stalled)
      ensures Takeable(es[i], stalled) ==> mid[i].id in seen
      ensures !Takeable(es[i], stalled) ==> mid[i] == es[i]
    {
      if es[i].id in seen {
        var j :| 0 <= j < |es| && es[j].id == es[i].id && Takeable(es[j], stalled);
        assert i == j;
      }
    }
  }

  lemma TakeoverKeeps(stalled: set<Agent>, successor: Agent -> Option<Agent>, now: int, es: seq<WakeEntry>,
          act: map<string, ActiveWake>, wakeSeq: nat, entries: seq<WakeEntry>, active: map<string, ActiveWake>)
    requires QueueKept(es, act, wakeSeq) && TakeoverDone(stalled, successor, now, es, act, entries, active)
    ensures QueueKept(entries, active, wakeSeq)
  {
    hide EntryId;
    forall i | 0 <= i < |es| ensures entries[i].id == es[i].id && Issued(entries[i], wakeSeq) {
      assert Issued(es[i], wakeSeq);
    }
    forall id | id in active ensures exists i :: 0 <= i < |entries| && Matches(entries[i], id, active[id]) {
      var i :| 0 <= i < |es| && Matches(es[i], id, act[id]);
      assert entries[i] == es[i];
    }
  }

  // ---- orphans ----

  lemma NotThere(es: seq<WakeEntry>, entries: seq<WakeEntry>, id: string)
    requires |entries| == |es| && forall i :: 0 <= i < |es| ==>
               entries[i] == es[i] || exists now :: entries[i] == OrphanedEntry(es[i], now)
    requires forall i :: 0 <= i < |entries| ==> entries[i].id != id
    ensures forall i :: 0 <= i < |es| ==> es[i].id != id
  {
    assert forall i :: 0 <= i < |es| ==> entries[i].id == es[i].id;
  }

  lemma SameIds(es: seq<WakeEntry>, entries: seq<WakeEntry>, at: nat)
    requires IdsDistinct(es) && |entries| == |es| && at < |es|
    requires forall i :: 0 <= i < |es| ==> entries[i] == es[i] || exists now :: entries[i] == OrphanedEntry(es[i], now)
    ensures es[at].id == entries[at].id
    ensures forall i :: 0 <= i < |es| && es[i].id == es[at].id ==> i == at
  {
  }

  lemma OrphansKeep(lastSeen: Agent -> Option<int>, now: int, thresholdMs: int, es: seq<WakeEntry>,
          act: map<string, ActiveWake>, wakeSeq: nat, entries: seq<WakeEntry>, active: map<string, ActiveWake>)
    requires QueueKept(es, act, wakeSeq) && OrphansDone(lastSeen, now, thresholdMs, es, act, entries, active)
    ensures QueueKept(entries, active, wakeSeq)
  {
    hide EntryId;
    forall i | 0 <= i < |es| ensures entries[i].id == es[i].id && Issued(entries[i], wakeSeq) {
      assert Issued(es[i], wakeSeq);
    }
    forall id | id in active ensures exists i :: 0 <= i < |entries| && Matches(entries[i], id, active[id]) {
      var i :| 0 <= i < |es| && Matches(es[i], id, act[id]);
      assert entries[i] == es[i];
    }
  }

  // ---- the wake scan ----

  /** One group per agent with due entries, its members in queue order. */
  method GroupByAgent(entries: seq<WakeEntry>, now: int) returns (groups: seq<Group>)
    ensures Grouped(entries, now, groups)
  {
    hide Due, Indexed;
    groups := [];
    var at: map<Agent, nat> := map[];
    NothingIndexed(entries, now);
    for i := 0 to |entries|
      invariant Indexed(entries, i, now, groups, at)
    {
      var e := entries[i];
      DueMeans(e, now);
      if e.status == Pending && e.dueAt <= now && (e.retryAt.None? || e.retryAt.value <= now) {
        if e.targetAgentId in at {
          GroupGrows(entries, i, now, groups, at);
          var g := at[e.targetAgentId];
          groups := groups[g := groups[g].(members := groups[g].members + [i])];
        } else {
          GroupStarts(entries, i, now, groups, at);
          at := at[e.targetAgentId := |groups|];
          groups := groups + [Group(e.targetAgentId, [i])];
        }
      } else {
        GroupsStay(entries, i, now, groups, at);
      }
    }
    AllIndexed(entries, now, groups, at);
  }

  /** The groups over the first `i` entries, and the table of their positions. */
  ghost predicate Indexed(entries: seq<WakeEntry>, i: nat, now: int, groups: seq<Group>, at: map<Agent, nat>) {
    && i <= |entries|
    && (forall agent :: agent in at ==> at[agent] < |groups| && groups[at[agent]].agentId == agent)
    && (forall g :: 0 <= g < |groups| ==> groups[g].agentId in at && at[groups[g].agentId] == g)
    && (forall g :: 0 <= g < |groups| ==> groups[g].members == DueAt(entries[..i], groups[g].agentId, now) != [])
    && (forall agent :: DueAt(entries[..i], agent, now) != [] ==> agent in at)
  }

  lemma NothingIndexed(entries: seq<WakeEntry>, now: int)
    ensures Indexed(entries, 0, now, [], map[])
  {
    hide DueAt;
    forall agent ensures DueAt(entries[..0], agent, now) == [] { NothingDue(agent, now); }
  }

  lemma AllIndexed(entries: seq<WakeEntry>, now: int, groups: seq<Group>, at: map<Agent, nat>)
    requires Indexed(entries, |entries|, now, groups, at)
    ensures Grouped(entries, now, groups)
  {
    hide DueAt;
    assert entries[..|entries|] == entries;
  }

  lemma DueSteps(entries: seq<WakeEntry>, i: nat, now: int)
    requires i < |entries|
    ensures forall agent ::
      DueAt(entries[..i + 1], agent, now)
        == DueAt(entries[..i], agent, now)
          + (if Due(entries[i], now) && entries[i].targetAgentId == agent then [i] else [])
  {
    hide DueAt, Due;
    forall agent ensures DueAt(entries[..i + 1], agent, now)
         == DueAt(entries[..i], agent, now)
           + (if Due(entries[i], now) && entries[i].targetAgentId == agent then [i] else [])
    {
      DueNext(entries, i, agent, now);
    }
  }

  lemma GroupsStay(entries: seq<WakeEntry>, i: nat, now: int, groups: seq<Group>, at: map<Agent, nat>)
    requires i < |entries| && Indexed(entries, i, now, groups, at) && !Due(entries[i], now)
    ensures Indexed(entries, i + 1, now, groups, at)
  {
    hide DueAt, Due;
    DueSteps(entries, i, now);
  }

  lemma GroupGrows(entries: seq<WakeEntry>, i: nat, now: int, groups: seq<Group>, at: map<Agent, nat>)
    requires i < |entries| && Indexed(entries, i, now, groups, at) && Due(entries[i], now)
    requires entries[i].targetAgentId in at
    ensures var g := at[entries[i].targetAgentId];
            && g < |groups|
            && Indexed(entries, i + 1, now, groups[g := groups[g].(members := groups[g].members + [i])], at)
  {
    hide DueAt, Due;
    var g := at[entries[i].targetAgentId];
    var next := groups[g := groups[g].(members := groups[g].members + [i])];
    forall h | 0 <= h < |next|
      ensures next[h].agentId == groups[h].agentId
      ensures next[h].members == DueAt(entries[..i + 1], next[h].agentId, now) != []
    {
      DueNext(entries, i, groups[h].agentId, now);
    }
    forall agent | DueAt(entries[..i + 1], agent, now) != [] ensures agent in at {
      DueNext(entries, i, agent, now);
    }
  }

  lemma GroupStarts(entries: seq<WakeEntry>, i: nat, now: int, groups: seq<Group>, at: map<Agent, nat>)
    requires i < |entries| && Indexed(entries, i, now, groups, at) && Due(entries[i], now)
    requires entries[i].targetAgentId !in at
    ensures var agent := entries[i].targetAgentId;
            Indexed(entries, i + 1, now, groups + [Group(agent, [i])], at[agent := |groups|])
  {
    hide DueAt, Due;
    DueSteps(entries, i, now);
    assert DueAt(entries[..i], entries[i].targetAgentId, now) == [];
  }

  lemma DueMeans(e: WakeEntry, now: int)
    ensures Due(e, now) <==> e.status == Pending && e.dueAt <= now && (e.retryAt.None? || e.retryAt.value <= now)
  {
  }

  lemma NothingDue(agent: Agent, now: int)
    ensures DueAt([], agent, now) == []
  {
  }

  lemma DueNext(entries: seq<WakeEntry>, i: nat, agent: Agent, now: int)
    requires i < |entries|
    ensures DueAt(entries[..i + 1], agent, now)
         == DueAt(entries[..i], agent, now)
           + (if Due(entries[i], now) && entries[i].targetAgentId == agent then [i] else [])
  {
    assert entries[..i + 1][..i] == entries[..i];
  }

  ghost predicate Grouped(entries: seq<WakeEntry>, now: int, groups: seq<Group>) {
    && (forall g, h :: 0 <= g < h < |groups| ==> groups[g].agentId != groups[h].agentId)
    && (forall g :: 0 <= g < |groups| ==> groups[g].members == DueAt(entries, groups[g].agentId, now) != [])
    && (forall agent :: DueAt(entries, agent, now) != [] ==>
          exists g :: 0 <= g < |groups| && groups[g].agentId == agent)
  }

  /** The reactivated entries `rs` with the due entries of the agents of `done` handled. */
  ghost predicate HandledIn(world: World, now: int, retryMs: int, rs: seq<WakeEntry>, entries: seq<WakeEntry>,
          done: set<Agent>) {
    && |entries| == |rs|
    && forall i :: 0 <= i < |rs| ==>
         entries[i] == if Due(rs[i], now) && rs[i].targetAgentId in done then Handled(world, rs[i], now, retryMs)
           else rs[i]
  }

  predicate DueAndWoken(world: World, e: WakeEntry, now: int, done: set<Agent>) {
    Due(e, now) && Wakes(world, e.targetAgentId) && e.targetAgentId in done
  }

  ghost predicate TrackedAfter(world: World, now: int, rs: seq<WakeEntry>, act: map<string, ActiveWake>,
          active: map<string, ActiveWake>, done: set<Agent>) {
    && (forall i :: 0 <= i < |rs| && DueAndWoken(world, rs[i], now, done) ==>
          rs[i].id in active && active[rs[i].id] == ActiveWake(rs[i].targetAgentId, now))
    && (forall id :: id in active ==>
          || (id in act && active[id] == act[id])
          || exists i :: 0 <= i < |rs| && rs[i].id == id && DueAndWoken(world, rs[i], now, done))
    && (forall id :: id in act ==> id in active)
  }

  ghost function Recipients(deliveries: seq<Delivery>): set<Agent> {
    set d | 0 <= d < |deliveries| :: deliveries[d].agentId
  }

  /** One delivery for each agent of `done` that can be woken, with the ids due for it. */
  ghost predicate Delivered(world: World, now: int, rs: seq<WakeEntry>, done: set<Agent>, deliveries: seq<Delivery>) {
    && (forall d :: 0 <= d < |deliveries| ==>
          && Wakes(world, deliveries[d].agentId) && deliveries[d].agentId in done
          && deliveries[d].entryIds == IdsAt(rs, DueAt(rs, deliveries[d].agentId, now)))
    && (forall c, d :: 0 <= c < d < |deliveries| ==> deliveries[c].agentId != deliveries[d].agentId)
    && (forall agent :: agent in done && Wakes(world, agent) ==> agent in Recipients(deliveries))
  }

  ghost function AgentsOf(groups: seq<Group>): set<Agent> {
    set h | 0 <= h < |groups| :: groups[h].agentId
  }

  lemma AgentsNext(groups: seq<Group>, g: nat)
    requires g < |groups|
    ensures AgentsOf(groups[..g + 1]) == AgentsOf(groups[..g]) + {groups[g].agentId}
    ensures AgentsOf(groups[..0]) == {}
  {
    var a, b := groups[..g], groups[..g + 1];
    assert b[g] == groups[g];
    assert forall h :: 0 <= h < g ==> a[h] == b[h];
    forall x ensures x in AgentsOf(b) <==> x in AgentsOf(a) || x == groups[g].agentId {
      if h :| 0 <= h < |a| && a[h].agentId == x { assert b[h].agentId == x; }
      if h :| 0 <= h < |b| && b[h].agentId == x { assert h < g ==> a[h].agentId == x; }
      assert b[g].agentId == groups[g].agentId;
    }
  }

  lemma NewAgent(rs: seq<WakeEntry>, now: int, groups: seq<Group>, g: nat)
    requires Grouped(rs, now, groups) && g < |groups|
    ensures groups[g].agentId !in AgentsOf(groups[..g])
  {
    hide DueAt;
    assert forall h :: 0 <= h < g ==> groups[..g][h] == groups[h];
  }

  lemma NothingDelivered(world: World, now: int, rs: seq<WakeEntry>, act: map<string, ActiveWake>)
    ensures forall retryMs :: HandledIn(world, now, retryMs, rs, rs, {})
    ensures TrackedAfter(world, now, rs, act, act, {})
    ensures Delivered(world, now, rs, {}, [])
    ensures forall groups: seq<Group> :: groups[..0] == [] && AgentsOf(groups[..0]) == {}
  {
  }

  /** The deliveries after one more group, which may or may not be woken. */
  lemma DeliveredNext(world: World, now: int, rs: seq<WakeEntry>, done: set<Agent>, agent: Agent,
          deliveries: seq<Delivery>)
    requires Delivered(world, now, rs, done, deliveries) && agent !in done
    ensures !Wakes(world, agent) ==> Delivered(world, now, rs, done + {agent}, deliveries)
    ensures Wakes(world, agent) ==>
              Delivered(world, now, rs, done + {agent},
                        deliveries + [Delivery(agent, IdsAt(rs, DueAt(rs, agent, now)))])
  {
    hide DueAt, IdsAt, Wakes, Recipients;
    RecipientsNext(deliveries, Delivery(agent, IdsAt(rs, DueAt(rs, agent, now))));
  }

  lemma RecipientsNext(deliveries: seq<Delivery>, d: Delivery)
    ensures Recipients(deliveries + [d]) == Recipients(deliveries) + {d.agentId}
  {
    var next := deliveries + [d];
    assert next[|deliveries|].agentId == d.agentId;
    forall x | x in Recipients(deliveries) ensures x in Recipients(next) {
      var k :| 0 <= k < |deliveries| && deliveries[k].agentId == x;
      assert next[k].agentId == x;
    }
  }

  /** The members of a group that is still to come are as the scan found them. */
  lemma MembersOpen(world: World, now: int, retryMs: int, rs: seq<WakeEntry>, entries: seq<WakeEntry>, done: set<Agent>,
          agent: Agent, members: seq<nat>)
    requires HandledIn(world, now, retryMs, rs, entries, done) && agent !in done && members == DueAt(rs, agent, now)
    ensures forall k :: 0 <= k < |members| ==> members[k] < |entries|
    ensures forall j, k :: 0 <= j < k < |members| ==> members[j] < members[k]
    ensures forall i :: i in members <==> 0 <= i < |rs| && Due(rs[i], now) && rs[i].targetAgentId == agent
    ensures forall i :: i in members ==> entries[i] == rs[i]
    ensures IdsAt(entries, members) == IdsAt(rs, DueAt(rs, agent, now))
  {
    hide Due, Handled;
    forall i | i in members ensures entries[i] == rs[i] {
    }
    forall k | 0 <= k < |members| ensures members[k] in members && entries[members[k]].id == rs[members[k]].id {
    }
  }

  lemma SkippedGroup(world: World, now: int, retryMs: int, rs: seq<WakeEntry>, act: map<string, ActiveWake>,
          entries: seq<WakeEntry>, active: map<string, ActiveWake>, done: set<Agent>, agent: Agent)
    requires HandledIn(world, now, retryMs, rs, entries, done) && TrackedAfter(world, now, rs, act, active, done)
    requires !world.enabled(agent) || (world.level(agent) == "ok" && !world.live(agent))
    ensures HandledIn(world, now, retryMs, rs, entries, done + {agent})
    ensures TrackedAfter(world, now, rs, act, active, done + {agent})
  {
    hide Due;
    UnwokenTracked(world, now, rs, act, active, done, agent);
  }

  lemma UnwokenTracked(world: World, now: int, rs: seq<WakeEntry>, act: map<string, ActiveWake>,
          active: map<string, ActiveWake>, done: set<Agent>, agent: Agent)
    requires TrackedAfter(world, now, rs, act, active, done) && !Wakes(world, agent)
    ensures TrackedAfter(world, now, rs, act, active, done + {agent})
  {
    assert forall i :: 0 <= i < |rs| ==>
      DueAndWoken(world, rs[i], now, done + {agent}) == DueAndWoken(world, rs[i], now, done);
  }

  lemma BlockedGroup(world: World, now: int, retryMs: int, rs: seq<WakeEntry>, act: map<string, ActiveWake>,
          mid: seq<WakeEntry>, entries: seq<WakeEntry>, active: map<string, ActiveWake>, done: set<Agent>, agent: Agent,
          members: seq<nat>)
    requires HandledIn(world, now, retryMs, rs, mid, done) && TrackedAfter(world, now, rs, act, active, done)
    requires agent !in done
    requires world.enabled(agent) && world.level(agent) != "ok"
    requires forall i :: i in members <==> 0 <= i < |rs| && Due(rs[i], now) && rs[i].targetAgentId == agent
    requires |entries| == |mid|
    requires forall i :: 0 <= i < |mid| ==>
               entries[i] == if i in members then BlockedEntry(mid[i], world.level(agent), now + retryMs) else mid[i]
    ensures HandledIn(world, now, retryMs, rs, entries, done + {agent})
    ensures TrackedAfter(world, now, rs, act, active, done + {agent})
  {
    hide Due, BlockedEntry, TrackedAfter;
    UnwokenTracked(world, now, rs, act, active, done, agent);
    forall i | 0 <= i < |rs|
      ensures entries[i] == if Due(rs[i], now) && rs[i].targetAgentId in done + {agent} then
                Handled(world, rs[i], now, retryMs) else rs[i]
    {
      assert i in members <==> Due(rs[i], now) && rs[i].targetAgentId == agent;
    }
  }

  lemma WokenGroup(world: World, now: int, retryMs: int, rs: seq<WakeEntry>, act: map<string, ActiveWake>,
          mid: seq<WakeEntry>, tracked: map<string, ActiveWake>, entries: seq<WakeEntry>,
          active: map<string, ActiveWake>, done: set<Agent>, agent: Agent, members: seq<nat>)
    requires HandledIn(world, now, retryMs, rs, mid, done) && TrackedAfter(world, now, rs, act, tracked, done)
    requires agent !in done
    requires Wakes(world, agent) && IdsDistinct(rs)
    requires forall i :: i in members <==> 0 <= i < |rs| && Due(rs[i], now) && rs[i].targetAgentId == agent
    requires forall i :: i in members ==> mid[i] == rs[i]
    requires |entries| == |mid|
    requires forall i :: 0 <= i < |mid| ==> entries[i] == if i in members then WokenEntry(mid[i], now) else mid[i]
    requires forall i :: i in members ==> mid[i].id in active && active[mid[i].id] == ActiveWake(agent, now)
    requires forall id :: id in active ==>
               (id in tracked && active[id] == tracked[id])
                 || (active[id] == ActiveWake(agent, now) && exists i :: i in members && mid[i].id == id)
    requires forall id :: id in tracked ==>
               id in active && (active[id] == tracked[id] || exists i :: i in members && mid[i].id == id)
    ensures HandledIn(world, now, retryMs, rs, entries, done + {agent})
    ensures TrackedAfter(world, now, rs, act, active, done + {agent})
  {
    hide Due, WokenEntry;
    forall i | 0 <= i < |rs|
      ensures entries[i] == if Due(rs[i], now) && rs[i].targetAgentId in done + {agent} then
                Handled(world, rs[i], now, retryMs) else rs[i]
    {
      assert i in members <==> Due(rs[i], now) && rs[i].targetAgentId == agent;
    }
    WokenTracked(world, now, rs, act, tracked, active, done, agent, members);
  }

  lemma WokenTracked(world: World, now: int, rs: seq<WakeEntry>, act: map<string, ActiveWake>,
          tracked: map<string, ActiveWake>, active: map<string, ActiveWake>, done: set<Agent>, agent: Agent,
          members: seq<nat>)
    requires TrackedAfter(world, now, rs, act, tracked, done) && agent !in done && Wakes(world, agent)
    requires IdsDistinct(rs)
    requires forall i :: i in members <==> 0 <= i < |rs| && Due(rs[i], now) && rs[i].targetAgentId == agent
    requires forall i :: i in members ==> rs[i].id in active && active[rs[i].id] == ActiveWake(agent, now)
    requires forall id :: id in active ==>
               (id in tracked && active[id] == tracked[id])
                 || (active[id] == ActiveWake(agent, now) && exists i :: i in members && rs[i].id == id)
    requires forall id :: id in tracked ==>
               id in active && (active[id] == tracked[id] || exists i :: i in members && rs[i].id == id)
    ensures TrackedAfter(world, now, rs, act, active, done + {agent})
  {
    hide Due, Wakes;
    var next := done + {agent};
    forall i | 0 <= i < |rs| && DueAndWoken(world, rs[i], now, next)
      ensures rs[i].id in active && active[rs[i].id] == ActiveWake(rs[i].targetAgentId, now)
    {
      if rs[i].targetAgentId == agent {
        assert i in members;
      } else {
        assert DueAndWoken(world, rs[i], now, done);
      }
    }
    forall id | id in active
      ensures || (id in act && active[id] == act[id])
              || exists i :: 0 <= i < |rs| && rs[i].id == id && DueAndWoken(world, rs[i], now, next)
    {
      if i :| i in members && rs[i].id == id {
        assert DueAndWoken(world, rs[i], now, next);
      } else if i :| 0 <= i < |rs| && rs[i].id == id && DueAndWoken(world, rs[i], now, done) {
        assert DueAndWoken(world, rs[i], now, next);
      }
    }
  }

  /** All groups handled: the scan has done what it promises. */
  lemma ScanFinished(world: World, now: int, retryMs: int, es: seq<WakeEntry>, act: map<string, ActiveWake>,
          rs: seq<WakeEntry>, entries: seq<WakeEntry>, active: map<string, ActiveWake>, groups: seq<Group>,
          deliveries: seq<Delivery>)
    requires rs == AllReactivated(es, now) && Grouped(rs, now, groups)
    requires HandledIn(world, now, retryMs, rs, entries, AgentsOf(groups))
    requires TrackedAfter(world, now, rs, act, active, AgentsOf(groups))
    requires Delivered(world, now, rs, AgentsOf(groups), deliveries)
    ensures ScanDone(world, now, retryMs, es, act, entries, active, deliveries)
  {
    hide Scanned, Delivers, HandledIn, TrackedAfter, Delivered, DueAt, OneDeliveryEach;
    AllDueGrouped(now, rs, groups);
    EntriesFinished(world, now, retryMs, es, rs, entries, AgentsOf(groups));
    TrackingFinished(world, now, es, act, rs, active, AgentsOf(groups));
    OneEach(world, now, es, rs, groups, deliveries);
  }

  lemma AllDueGrouped(now: int, rs: seq<WakeEntry>, groups: seq<Group>)
    requires Grouped(rs, now, groups)
    ensures forall i :: 0 <= i < |rs| && Due(rs[i], now) ==> rs[i].targetAgentId in AgentsOf(groups)
  {
    hide Due;
    forall i | 0 <= i < |rs| && Due(rs[i], now) ensures rs[i].targetAgentId in AgentsOf(groups) {
      assert i in DueAt(rs, rs[i].targetAgentId, now);
      var g :| 0 <= g < |groups| && groups[g].agentId == rs[i].targetAgentId;
    }
  }

  lemma EntriesFinished(world: World, now: int, retryMs: int, es: seq<WakeEntry>, rs: seq<WakeEntry>,
          entries: seq<WakeEntry>, done: set<Agent>)
    requires rs == AllReactivated(es, now) && HandledIn(world, now, retryMs, rs, entries, done)
    requires forall i :: 0 <= i < |rs| && Due(rs[i], now) ==> rs[i].targetAgentId in done
    ensures |entries| == |es| && forall i :: 0 <= i < |es| ==> entries[i] == Scanned(world, es[i], now, retryMs)
  {
    hide Due, Reactivated, Handled;
  }

  lemma TrackingFinished(world: World, now: int, es: seq<WakeEntry>, act: map<string, ActiveWake>, rs: seq<WakeEntry>,
                         active: map<string, ActiveWake>, done: set<Agent>)
    requires rs == AllReactivated(es, now) && TrackedAfter(world, now, rs, act, active, done)
    requires forall i :: 0 <= i < |rs| && Due(rs[i], now) ==> rs[i].targetAgentId in done
    ensures forall i :: 0 <= i < |es| && Delivers(world, es[i], now) ==>
              es[i].id in active && active[es[i].id] == ActiveWake(es[i].targetAgentId, now)
    ensures forall id :: id in active ==>
              || (id in act && active[id] == act[id])
              || exists i :: 0 <= i < |es| && es[i].id == id && Delivers(world, es[i], now)
    ensures forall id :: id in act ==> id in active
  {
    hide Due, Reactivated, Wakes, AllReactivated;
    forall i | 0 <= i < |es|
      ensures rs[i] == Reactivated(es[i], now) && rs[i].id == es[i].id && rs[i].targetAgentId == es[i].targetAgentId
      ensures Delivers(world, es[i], now) <==> DueAndWoken(world, rs[i], now, done)
    {
      SameIdentity(es[i], now);
    }
    forall id | id in active
      ensures || (id in act && active[id] == act[id])
              || exists i :: 0 <= i < |es| && es[i].id == id && Delivers(world, es[i], now)
    {
      if i :| 0 <= i < |rs| && rs[i].id == id && DueAndWoken(world, rs[i], now, done) {
        assert es[i].id == id && Delivers(world, es[i], now);
      }
    }
  }

  lemma SameIdentity(e: WakeEntry, now: int)
    ensures var r := Reactivated(e, now); r.id == e.id && r.kind == e.kind && r.targetAgentId == e.targetAgentId
  {
  }

  lemma OneEach(world: World, now: int, es: seq<WakeEntry>, rs: seq<WakeEntry>, groups: seq<Group>,
          deliveries: seq<Delivery>)
    requires rs == AllReactivated(es, now) && Grouped(rs, now, groups)
    requires Delivered(world, now, rs, AgentsOf(groups), deliveries)
    ensures OneDeliveryEach(world, now, es, deliveries)
  {
    hide DueAt, Wakes, AllReactivated;
    forall g | 0 <= g < |deliveries| ensures deliveries[g].entryIds == DueIds(es, deliveries[g].agentId, now) != [] {
      var h :| 0 <= h < |groups| && groups[h].agentId == deliveries[g].agentId;
      assert groups[h].members != [];
    }
    forall agent | Wakes(world, agent) && DueIds(es, agent, now) != []
      ensures exists g :: 0 <= g < |deliveries| && deliveries[g].agentId == agent
    {
      var h :| 0 <= h < |groups| && groups[h].agentId == agent;
      assert agent in AgentsOf(groups);
    }
  }

  lemma ScanKeeps(world: World, now: int, retryMs: int, es: seq<WakeEntry>, act: map<string, ActiveWake>, wakeSeq: nat,
                  entries: seq<WakeEntry>, active: map<string, ActiveWake>, deliveries: seq<Delivery>)
    requires QueueKept(es, act, wakeSeq) && ScanDone(world, now, retryMs, es, act, entries, active, deliveries)
    ensures QueueKept(entries, active, wakeSeq)
  {
    hide EntryId, OneDeliveryEach, Scanned, Delivers;
    forall i | 0 <= i < |es| ensures entries[i].id == es[i].id && Issued(entries[i], wakeSeq) {
      ScannedEntry(world, es[i], now, retryMs);
      assert Issued(es[i], wakeSeq);
    }
    forall id | id in active ensures exists i :: 0 <= i < |entries| && Matches(entries[i], id, active[id]) {
      if i :| 0 <= i < |es| && es[i].id == id && Delivers(world, es[i], now) {
        ScannedEntry(world, es[i], now, retryMs);
        assert Matches(entries[i], id, active[id]);
      } else {
        var i :| 0 <= i < |es| && Matches(es[i], id, act[id]);
        ScannedEntry(world, es[i], now, retryMs);
        assert Matches(entries[i], id, active[id]);
      }
    }
  }

  lemma ScannedEntry(world: World, e: WakeEntry, now: int, retryMs: int)
    ensures var s := Scanned(world, e, now, retryMs);
            && s.id == e.id && s.kind == e.kind && s.targetAgentId == e.targetAgentId
            && (Delivers(world, e, now) ==> s.status == Woken && s.wokenAt == Some(now))
            && (e.status == Woken || e.status == Completed ==> s == e && !Delivers(world, e, now))
  {
  }
}
