/** What the scans mean for one wake: who is woken, when, and by which prompt. */
module WakeLaws {
  import opened Prelude
  import opened WakeQueue
  import opened Supervisor
  import opened WakeRuns

  /** The agent can be woken: enabled, within budget, and reachable. */
  predicate Reachable(world: World, agent: Agent) {
    world.enabled(agent) && world.level(agent) == "ok" && world.live(agent)
  }

  /** The wake is open for a scan at `now`: pending and due, or blocked until a time that has come. */
  predicate Ripe(e: WakeEntry, now: int) {
    && e.dueAt <= now
    && ((e.status == Pending && (e.retryAt.None? || e.retryAt.value <= now))
        || (e.status == Blocked && e.retryAt.Some? && e.retryAt.value <= now))
  }

  /** Exactly one prompt of the scan carries the wake, and it goes to the agent. */
  ghost predicate CarriedTo(deliveries: seq<Delivery>, id: string, agent: Agent) {
    exists g :: 0 <= g < |deliveries|
             && deliveries[g].agentId == agent && id in deliveries[g].entryIds
             && forall h :: 0 <= h < |deliveries| && id in deliveries[h].entryIds ==> h == g
  }

  /** A scan wakes an entry's agent exactly when the entry is ripe and the agent can be woken. */
  lemma WokenExactly(config: Config, q: Queue, world: World, now: int, deliveries: seq<Delivery>, r: Queue, i: nat)
    requires Kept(q) && Follows(config, q, Scanning(world, now, deliveries), r) && i < |q.entries|
    ensures var e := q.entries[i];
            && (Ripe(e, now) && Reachable(world, e.targetAgentId) <==> CarriedTo(deliveries, e.id, e.targetAgentId))
            && (Ripe(e, now) && Reachable(world, e.targetAgentId) ==>
                  && i < |r.entries| && r.entries[i].status == Woken && r.entries[i].wokenAt == Some(now)
                  && r.entries[i].targetAgentId == e.targetAgentId && r.entries[i].attempt == e.attempt + 1
                  && e.id in r.active && r.active[e.id] == ActiveWake(e.targetAgentId, now))
  {
    hide QueueKept, DueIds;
    var e := q.entries[i];
    OneEntryPerId(q, i);
    DueIdsAre(q.entries, e.targetAgentId, now);
    if Ripe(e, now) && Reachable(world, e.targetAgentId) {
      assert e.id in DueIds(q.entries, e.targetAgentId, now);
      var g :| 0 <= g < |deliveries| && deliveries[g].agentId == e.targetAgentId;
      forall h | 0 <= h < |deliveries| && e.id in deliveries[h].entryIds ensures h == g {
        DueIdsAre(q.entries, deliveries[h].agentId, now);
      }
    }
  }

  /** The ids a scan finds due for an agent are those of its ripe entries. */
  lemma DueIdsAre(entries: seq<WakeEntry>, agent: Agent, now: int)
    ensures forall id :: id in DueIds(entries, agent, now) <==>
              exists i :: 0 <= i < |entries| && entries[i].id == id && entries[i].targetAgentId == agent
                && Ripe(entries[i], now)
  {
    var es := AllReactivated(entries, now);
    var at := DueAt(es, agent, now);
    forall i | 0 <= i < |entries|
      ensures i in at <==> entries[i].targetAgentId == agent && Ripe(entries[i], now)
      ensures es[i].id == entries[i].id
    {
    }
    forall id | id in DueIds(entries, agent, now)
      ensures exists i ::
                && 0 <= i < |entries|
                && entries[i].id == id
                && entries[i].targetAgentId == agent
                && Ripe(entries[i], now)
    {
      var k :| 0 <= k < |at| && IdsAt(es, at)[k] == id;
      assert at[k] in at;
    }
    forall i | 0 <= i < |entries| && entries[i].targetAgentId == agent && Ripe(entries[i], now)
      ensures entries[i].id in DueIds(entries, agent, now)
    {
      var k :| 0 <= k < |at| && at[k] == i;
      assert IdsAt(es, at)[k] == entries[i].id;
    }
  }

  /** A ripe wake whose agent cannot be woken: over budget it is blocked until the retry time, else it stays pending. */
  lemma NotWoken(config: Config, q: Queue, world: World, now: int, deliveries: seq<Delivery>, r: Queue, i: nat)
    requires Follows(config, q, Scanning(world, now, deliveries), r) && i < |q.entries|
    requires Ripe(q.entries[i], now) && !Reachable(world, q.entries[i].targetAgentId)
    ensures var e, f := q.entries[i], r.entries[i];
            && f.targetAgentId == e.targetAgentId && f.dueAt == e.dueAt && f.attempt == e.attempt
            && if world.enabled(e.targetAgentId) && world.level(e.targetAgentId) != "ok"
               then f.status == Blocked && f.retryAt == Some(now + config.budgetRetryMs)
               else f.status == Pending && f.retryAt == e.retryAt
  {
    hide OneDeliveryEach;
  }

  /** A wake that is not ripe is left alone, but for a block whose time has come. */
  lemma UnripeStays(config: Config, q: Queue, world: World, now: int, deliveries: seq<Delivery>, r: Queue, i: nat)
    requires Follows(config, q, Scanning(world, now, deliveries), r) && i < |q.entries| && !Ripe(q.entries[i], now)
    ensures var e := q.entries[i];
            r.entries[i] == if e.status == Blocked && e.retryAt.Some? && e.retryAt.value <= now
                            then e.(status := Pending, blockedReason := None) else e
  {
    hide OneDeliveryEach;
  }

  /** So a wake blocked by the budget comes back exactly when the retry time is over. */
  lemma BlockedUntilRetry(config: Config, q: Queue, world: World, now: int, deliveries: seq<Delivery>, r: Queue,
          world2: World, later: int, deliveries2: seq<Delivery>, s: Queue, i: nat)
    requires Kept(q) && Follows(config, q, Scanning(world, now, deliveries), r) && i < |q.entries|
    requires Follows(config, r, Scanning(world2, later, deliveries2), s) && later >= now
    requires var agent := q.entries[i].targetAgentId;
             Ripe(q.entries[i], now) && world.enabled(agent) && world.level(agent) != "ok" && Reachable(world2, agent)
    ensures CarriedTo(deliveries2, q.entries[i].id, q.entries[i].targetAgentId)
            <==> later >= now + config.budgetRetryMs
  {
    hide Kept, Follows, CarriedTo;
    NotWoken(config, q, world, now, deliveries, r, i);
    EntryStays(config, q, Scanning(world, now, deliveries), r, i);
    EventKeeps(config, q, Scanning(world, now, deliveries), r);
    WokenExactly(config, r, world2, later, deliveries2, s, i);
  }

  // ---- enqueue ----

  /** A new wake reaches its agent, with its kind and context, at the first scan from its due time on. */
  lemma EnqueuedIsWoken(config: Config, q: Queue, input: WakeInput, now: int, r: Queue, world: World, later: int,
          deliveries: seq<Delivery>, s: Queue)
    requires Kept(q) && Follows(config, q, Enqueued(input, now), r)
    requires Follows(config, r, Scanning(world, later, deliveries), s) && Reachable(world, input.targetAgentId)
    ensures |r.entries| == |q.entries| + 1
    ensures var e := r.entries[|q.entries|];
            && e.kind == input.kind && e.context == input.context && e.targetAgentId == input.targetAgentId
            && e.createdAt == now && e.attempt == 0
            && (CarriedTo(deliveries, e.id, input.targetAgentId) <==> later >= Or(input.dueAt, now))
  {
    hide Kept, Follows, CarriedTo;
    NewEntryIs(config, q, input, now, r);
    EventKeeps(config, q, Enqueued(input, now), r);
    WokenExactly(config, r, world, later, deliveries, s, |q.entries|);
  }

  lemma NewEntryIs(config: Config, q: Queue, input: WakeInput, now: int, r: Queue)
    requires Follows(config, q, Enqueued(input, now), r)
    ensures |r.entries| == |q.entries| + 1
    ensures var e := r.entries[|q.entries|];
            && e.kind == input.kind && e.context == input.context && e.targetAgentId == input.targetAgentId
            && e.createdAt == now && e.attempt == 0 && e.status == Pending && e.retryAt == None
            && e.dueAt == Or(input.dueAt, now)
  {
    hide EntryId;
  }

  // ---- takeover ----

  /**
   * Takeover hands every open wake of a stalled agent to the agent's successor, if it has one, due at once;
   * it touches no other entry.
   */
  lemma TakeoverHandsOver(config: Config, q: Queue, stalled: set<Agent>, successor: Agent -> Option<Agent>, now: int,
          r: Queue, i: nat)
    requires Follows(config, q, Takeover(stalled, successor, now), r) && i < |q.entries|
    ensures i < |r.entries|
    ensures var e, f := q.entries[i], r.entries[i];
            if e.targetAgentId in stalled && (e.status == Pending || e.status == Woken) then
              && (successor(e.targetAgentId).Some? ==> f.targetAgentId == successor(e.targetAgentId).value)
              && (successor(e.targetAgentId).None? ==> f.targetAgentId == e.targetAgentId)
              && f.dueAt == now && f.attempt == e.attempt + 1
              && f.status == e.status && f.retryAt == e.retryAt && f.context == e.context && f.id == e.id
            else f == e
  {
  }

  /** And the next scan carries a pending one to the successor, in one prompt, once its retry time is past. */
  lemma SuccessorIsWoken(config: Config, q: Queue, stalled: set<Agent>, successor: Agent -> Option<Agent>, now: int,
          r: Queue, world: World, later: int, deliveries: seq<Delivery>, s: Queue, i: nat)
    requires Kept(q) && Follows(config, q, Takeover(stalled, successor, now), r) && i < |q.entries|
    requires Follows(config, r, Scanning(world, later, deliveries), s) && later >= now
    requires var e := q.entries[i]; e.targetAgentId in stalled && e.status == Pending
    ensures var e := q.entries[i];
            var heir := Or(successor(e.targetAgentId), e.targetAgentId);
            CarriedTo(deliveries, e.id, heir)
            <==> (e.retryAt.None? || e.retryAt.value <= later) && Reachable(world, heir)
  {
    hide Kept, Follows, CarriedTo;
    TakeoverHandsOver(config, q, stalled, successor, now, r, i);
    EventKeeps(config, q, Takeover(stalled, successor, now), r);
    WokenExactly(config, r, world, later, deliveries, s, i);
  }

  // ---- orphans ----

  /** The orphan scan revives a tracked wake exactly when its window is over without a sign of life since the wake. */
  lemma RevivedExactly(config: Config, q: Queue, lastSeen: Agent -> Option<int>, now: int, r: Queue, i: nat)
    requires Kept(q) && Follows(config, q, Orphans(lastSeen, now), r) && i < |q.entries| && q.entries[i].id in q.active
    ensures i < |r.entries|
    ensures var e, f, record := q.entries[i], r.entries[i], q.active[q.entries[i].id];
            var seen := lastSeen(record.agentId);
            if now - record.wokeAt > config.orphanThresholdMs && (seen.None? || seen.value <= record.wokeAt) then
              f == e.(status := Pending, dueAt := now, attempt := e.attempt + 1) && e.id !in r.active
            else f == e && (e.id in r.active <==> now - record.wokeAt <= config.orphanThresholdMs)
  {
  }

  /** And the next scan wakes the agent again. */
  lemma OrphanIsWokenAgain(config: Config, q: Queue, lastSeen: Agent -> Option<int>, now: int, r: Queue, world: World,
          later: int, deliveries: seq<Delivery>, s: Queue, i: nat)
    requires Kept(q) && Follows(config, q, Orphans(lastSeen, now), r) && i < |q.entries| && q.entries[i].id in q.active
    requires Follows(config, r, Scanning(world, later, deliveries), s) && later >= now
    requires var record := q.active[q.entries[i].id];
             && now - record.wokeAt > config.orphanThresholdMs
             && (lastSeen(record.agentId).None? || lastSeen(record.agentId).value <= record.wokeAt)
    requires var e := q.entries[i]; (e.retryAt.None? || e.retryAt.value <= later) && Reachable(world, e.targetAgentId)
    ensures CarriedTo(deliveries, q.entries[i].id, q.entries[i].targetAgentId)
  {
    hide Kept, Follows, CarriedTo;
    RevivedExactly(config, q, lastSeen, now, r, i);
    EventKeeps(config, q, Orphans(lastSeen, now), r);
    WokenExactly(config, r, world, later, deliveries, s, i);
  }
}
