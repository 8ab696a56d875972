/** The wake queue over whole runs of enqueue, scan, takeover, orphan recovery and completion. */
module WakeRuns {
  import opened Prelude
  import opened WakeQueue
  import opened Supervisor

  datatype Queue = Queue(entries: seq<WakeEntry>, active: map<string, ActiveWake>, wakeSeq: nat)

  datatype Config = Config(orphanThresholdMs: int, budgetRetryMs: int)

  datatype Event =
    | Enqueued(input: WakeInput, now: int)
    | Scanning(world: World, now: int, deliveries: seq<Delivery>)
    | Takeover(stalled: set<Agent>, successor: Agent -> Option<Agent>, now: int)
    | Orphans(lastSeen: Agent -> Option<int>, now: int)
    | Completion(id: string)
    | AgentCompletion(agentId: Agent)

  /** One operation, as the service's methods are specified. */
  ghost predicate Follows(config: Config, q: Queue, event: Event, r: Queue) {
    match event
    case Enqueued(input, now) =>
      r == Queue(q.entries + [NewEntry(input, q.wakeSeq + 1, now)], q.active, q.wakeSeq + 1)
    case Scanning(world, now, deliveries) =>
      r.wakeSeq == q.wakeSeq && ScanDone(world, now, config.budgetRetryMs, q.entries, q.active, r.entries, r.active,
                                         deliveries)
    case Takeover(stalled, successor, now) =>
      r.wakeSeq == q.wakeSeq && TakeoverDone(stalled, successor, now, q.entries, q.active, r.entries, r.active)
    case Orphans(lastSeen, now) =>
      r.wakeSeq == q.wakeSeq && OrphansDone(lastSeen, now, config.orphanThresholdMs, q.entries, q.active, r.entries,
                                            r.active)
    case Completion(id) =>
      && r.wakeSeq == q.wakeSeq && r.active == q.active - {id} && |r.entries| == |q.entries|
      && forall i :: 0 <= i < |q.entries| ==>
           r.entries[i] == if q.entries[i].id == id then q.entries[i].(status := Completed) else q.entries[i]
    case AgentCompletion(agentId) =>
      && r.wakeSeq == q.wakeSeq && |r.entries| == |q.entries|
      && r.active == (map id | id in q.active && q.active[id].agentId != agentId :: q.active[id])
      && forall i :: 0 <= i < |q.entries| ==>
           r.entries[i] == if HeldBy(q, i, agentId) then q.entries[i].(status := Completed) else q.entries[i]
  }

  /** The wake of the entry at position `i` is tracked for the agent. */
  predicate HeldBy(q: Queue, i: nat, agentId: Agent) {
    i < |q.entries| && q.entries[i].id in q.active && q.active[q.entries[i].id].agentId == agentId
  }

  /** A run of events through the queues of `trace`. */
  ghost predicate Runs(config: Config, trace: seq<Queue>, events: seq<Event>) {
    && |trace| == |events| + 1
    && forall i :: 0 <= i < |events| ==> Follows(config, trace[i], events[i], trace[i + 1])
  }

  ghost predicate Kept(q: Queue) {
    QueueKept(q.entries, q.active, q.wakeSeq)
  }

  lemma EventKeeps(config: Config, q: Queue, event: Event, r: Queue)
    requires Kept(q) && Follows(config, q, event, r)
    ensures Kept(r)
  {
    hide QueueKept, ScanDone, TakeoverDone, OrphansDone;
    match event
    case Enqueued(input, now) => NewIdIsFresh(q.entries, q.active, q.wakeSeq, input, now);
    case Scanning(world, now, deliveries) =>
      ScanKeeps(world, now, config.budgetRetryMs, q.entries, q.active, q.wakeSeq, r.entries, r.active, deliveries);
    case Takeover(stalled, successor, now) =>
      TakeoverKeeps(stalled, successor, now, q.entries, q.active, q.wakeSeq, r.entries, r.active);
    case Orphans(lastSeen, now) =>
      OrphansKeep(lastSeen, now, config.orphanThresholdMs, q.entries, q.active, q.wakeSeq, r.entries, r.active);
    case Completion(id) => CompletedKeeps(q, id, r);
    case AgentCompletion(agentId) => AgentCompletedKeeps(q, agentId, r);
  }

  lemma AgentCompletedKeeps(q: Queue, agentId: Agent, r: Queue)
    requires Kept(q) && r.wakeSeq == q.wakeSeq && |r.entries| == |q.entries|
    requires r.active == (map id | id in q.active && q.active[id].agentId != agentId :: q.active[id])
    requires forall i :: 0 <= i < |q.entries| ==>
               r.entries[i] == if HeldBy(q, i, agentId) then q.entries[i].(status := Completed) else q.entries[i]
    ensures Kept(r)
  {
    hide EntryId;
    forall i | 0 <= i < |q.entries| ensures r.entries[i].id == q.entries[i].id && Issued(r.entries[i], r.wakeSeq) {
      assert Issued(q.entries[i], q.wakeSeq);
    }
    forall id | id in r.active ensures exists i :: 0 <= i < |r.entries| && Matches(r.entries[i], id, r.active[id]) {
      var i :| 0 <= i < |q.entries| && Matches(q.entries[i], id, q.active[id]);
      assert r.entries[i] == q.entries[i];
    }
  }

  lemma CompletedKeeps(q: Queue, id: string, r: Queue)
    requires Kept(q) && |r.entries| == |q.entries| && r.wakeSeq == q.wakeSeq && r.active == q.active - {id}
    requires forall i :: 0 <= i < |q.entries| ==>
      r.entries[i] == if q.entries[i].id == id then q.entries[i].(status := Completed) else q.entries[i]
    ensures Kept(r)
  {
    var at := Find(q.entries, id);
    if at.Some? {
      assert r.entries == q.entries[at.value := q.entries[at.value].(status := Completed)];
    } else {
      assert r.entries == q.entries;
    }
    CompletionKeeps(q.entries, q.active, q.wakeSeq, id, r.entries);
  }

  /** Over any run every tracking record points at a woken entry of the same agent and wake time; ids stay unique. */
  lemma {:induction false} RunKeeps(config: Config, trace: seq<Queue>, events: seq<Event>)
    requires Runs(config, trace, events) && Kept(trace[0])
    ensures Kept(trace[|events|])
    decreases |events|
  {
    hide Kept, Follows;
    if events != [] {
      EventKeeps(config, trace[0], events[0], trace[1]);
      RunKeeps(config, trace[1..], events[1..]);
    }
  }

  // ---- what one event can do to one entry ----

  predicate SameEntry(e: WakeEntry, f: WakeEntry) {
    e.id == f.id && e.kind == f.kind && e.context == f.context && e.createdAt == f.createdAt
  }

  lemma SameScanned(world: World, e: WakeEntry, now: int, retryMs: int)
    ensures SameEntry(e, Scanned(world, e, now, retryMs))
  {
  }

  lemma EntryStays(config: Config, q: Queue, event: Event, r: Queue, i: nat)
    requires Follows(config, q, event, r) && i < |q.entries|
    ensures i < |r.entries| && SameEntry(q.entries[i], r.entries[i])
  {
    hide Scanned, OneDeliveryEach;
    if event.Scanning? {
      SameScanned(event.world, q.entries[i], event.now, config.budgetRetryMs);
    }
  }

  /** Entries are never lost: each keeps its place, id, kind and context. */
  lemma {:induction false} EntriesNeverLost(config: Config, trace: seq<Queue>, events: seq<Event>, i: nat)
    requires Runs(config, trace, events) && i < |trace[0].entries|
    ensures i < |trace[|events|].entries| && SameEntry(trace[0].entries[i], trace[|events|].entries[i])
    decreases |events|
  {
    hide Follows;
    if events != [] {
      EntryStays(config, trace[0], events[0], trace[1], i);
      EntriesNeverLost(config, trace[1..], events[1..], i);
    }
  }

  /** A tracked entry is woken. */
  lemma TrackedIsWoken(q: Queue, i: nat)
    requires Kept(q) && i < |q.entries|
    ensures q.entries[i].id in q.active ==> q.entries[i].status == Woken
  {
    hide EntryId;
    var id := q.entries[i].id;
    if id in q.active {
      var j :| 0 <= j < |q.entries| && Matches(q.entries[j], id, q.active[id]);
    }
  }

  /** An event delivers the entry at position `i`. */
  predicate DeliversEntry(event: Event, e: WakeEntry) {
    event.Scanning? && Delivers(event.world, e, event.now)
  }

  lemma CompletedStaysOne(config: Config, q: Queue, event: Event, r: Queue, i: nat)
    requires Kept(q) && Follows(config, q, event, r) && i < |q.entries| && q.entries[i].status == Completed
    ensures i < |r.entries| && r.entries[i].status == Completed && !DeliversEntry(event, q.entries[i])
  {
    hide Scanned, OneDeliveryEach, QueueKept, Delivers;
    TrackedIsWoken(q, i);
    if event.Scanning? {
      ScannedEntry(event.world, q.entries[i], event.now, config.budgetRetryMs);
    }
  }

  /** A completed wake is never revived by takeover or orphan recovery, and never delivered again. */
  lemma {:induction false} CompletedStays(config: Config, trace: seq<Queue>, events: seq<Event>, i: nat)
    requires Runs(config, trace, events) && Kept(trace[0]) && i < |trace[0].entries|
    requires trace[0].entries[i].status == Completed
    ensures forall k :: 0 <= k < |events| ==> i < |trace[k].entries| && !DeliversEntry(events[k], trace[k].entries[i])
    ensures i < |trace[|events|].entries| && trace[|events|].entries[i].status == Completed
    decreases |events|
  {
    hide Follows, Kept, DeliversEntry;
    if events != [] {
      EventKeeps(config, trace[0], events[0], trace[1]);
      CompletedStaysOne(config, trace[0], events[0], trace[1], i);
      CompletedStays(config, trace[1..], events[1..], i);
      forall k | 0 <= k < |events| ensures i < |trace[k].entries| && !DeliversEntry(events[k], trace[k].entries[i]) {
        if k > 0 {
          assert trace[k] == trace[1..][k - 1] && events[k] == events[1..][k - 1];
        }
      }
    }
  }

  // ---- takeover strands a delivered wake ----

  /** Woken, but no record tracks it. */
  predicate Stranded(q: Queue, i: nat) {
    i < |q.entries| && q.entries[i].status == Woken && q.entries[i].id !in q.active
  }

  /** What takeover leaves of a stalled agent's wake: a pending one can still be delivered, a woken one is stranded. */
  lemma TakeoverStrandsWoken(config: Config, q: Queue, event: Event, r: Queue, i: nat)
    requires Follows(config, q, event, r) && event.Takeover? && i < |q.entries| && Takeable(q.entries[i], event.stalled)
    ensures i < |r.entries| && r.entries[i].dueAt == event.now
    ensures Stranded(r, i) <==> q.entries[i].status == Woken
    ensures r.entries[i].status == Pending <==> q.entries[i].status == Pending
  {
  }

  lemma StrandedStaysOne(config: Config, q: Queue, event: Event, r: Queue, i: nat)
    requires Kept(q) && Follows(config, q, event, r) && Stranded(q, i)
    requires event != Completion(q.entries[i].id)
    ensures Stranded(r, i) && !DeliversEntry(event, q.entries[i])
  {
    hide Scanned, OneDeliveryEach, Delivers, EntryId;
    match event {
      case Scanning(world, now, deliveries) =>
        ScannedEntry(world, q.entries[i], now, config.budgetRetryMs);
        assert forall j :: 0 <= j < |q.entries| && q.entries[j].id == q.entries[i].id ==> j == i;
      case Enqueued(input, now) => assert r.entries[i] == q.entries[i];
      case _ =>
    }
  }

  /**
   * What strands a delivered wake: a takeover of it, or an orphan scan that takes a later heartbeat of its
   * agent for progress.
   */
  predicate Strands(config: Config, q: Queue, event: Event, i: nat)
    requires i < |q.entries|
  {
    var e := q.entries[i];
    match event
    case Takeover(stalled, _, _) => Takeable(e, stalled) && e.status == Woken
    case Orphans(lastSeen, now) =>
      e.id in q.active && TimedOut(q.active[e.id], now, config.orphanThresholdMs)
        && !Dead(q.active[e.id], now, config.orphanThresholdMs, lastSeen)
    case _ => false
  }

  /** A wake becomes stranded exactly by such a takeover or such an orphan scan, and by no other event. */
  lemma StrandedExactly(config: Config, q: Queue, event: Event, r: Queue, i: nat)
    requires Kept(q) && Follows(config, q, event, r) && i < |q.entries| && !Stranded(q, i)
    ensures Stranded(r, i) <==> Strands(config, q, event, i)
  {
    hide Scanned, OneDeliveryEach, Delivers, EntryId, QueueKept, Dead, TimedOut;
    TrackedIsWoken(q, i);
    match event {
      case Scanning(world, now, _) => ScanStrandsNothing(config, q, event, r, i);
      case Enqueued(_, _) => assert r.entries[i] == q.entries[i];
      case Takeover(stalled, _, _) => OneEntryPerId(q, i);
      case Orphans(lastSeen, now) =>
        if q.entries[i].id in q.active {
          DeadIsTimedOut(config, q, lastSeen, now, i);
        }
      case _ =>
    }
  }

  lemma ScanStrandsNothing(config: Config, q: Queue, event: Event, r: Queue, i: nat)
    requires Kept(q) && event.Scanning? && Follows(config, q, event, r) && i < |q.entries| && !Stranded(q, i)
    ensures !Stranded(r, i)
  {
    hide OneDeliveryEach, EntryId, QueueKept;
  }

  lemma OneEntryPerId(q: Queue, i: nat)
    requires Kept(q) && i < |q.entries|
    ensures forall j :: 0 <= j < |q.entries| && q.entries[j].id == q.entries[i].id ==> j == i
  {
    hide Issued, Matches;
  }

  lemma DeadIsTimedOut(config: Config, q: Queue, lastSeen: Agent -> Option<int>, now: int, i: nat)
    requires i < |q.entries| && q.entries[i].id in q.active
    ensures var record := q.active[q.entries[i].id];
            Dead(record, now, config.orphanThresholdMs, lastSeen) ==> TimedOut(record, now, config.orphanThresholdMs)
  {
  }

  /** A stranded wake is never delivered again: only its explicit completion ends it. */
  lemma {:induction false} StrandedForever(config: Config, trace: seq<Queue>, events: seq<Event>, i: nat)
    requires Runs(config, trace, events) && Kept(trace[0]) && Stranded(trace[0], i)
    requires forall k :: 0 <= k < |events| ==> events[k] != Completion(trace[0].entries[i].id)
    ensures Stranded(trace[|events|], i)
    ensures forall k :: 0 <= k < |events| ==> Stranded(trace[k], i) && !DeliversEntry(events[k], trace[k].entries[i])
    decreases |events|
  {
    hide Follows, Kept, DeliversEntry;
    if events != [] {
      EventKeeps(config, trace[0], events[0], trace[1]);
      EntryStays(config, trace[0], events[0], trace[1], i);
      StrandedStaysOne(config, trace[0], events[0], trace[1], i);
      StrandedForever(config, trace[1..], events[1..], i);
      forall k | 0 <= k < |events| ensures Stranded(trace[k], i) && !DeliversEntry(events[k], trace[k].entries[i]) {
        if k > 0 {
          assert trace[k] == trace[1..][k - 1] && events[k] == events[1..][k - 1];
        }
      }
    }
  }
}
