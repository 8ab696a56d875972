/**
 * The durable wake queue of fleet-supervisor: enqueue, wake scan, takeover, orphan recovery and completion.
 * Each operation is a method over the queue and the tracking table of delivered wakes; its effect is
 * stated entry by entry.
 */
module WakeQueue {
  import opened Prelude
  import Strings

  datatype Status = Pending | Woken | Blocked | Completed

  type Agent = string

  datatype WakeEntry = WakeEntry(
    id: string, targetAgentId: Agent, dueAt: int, kind: string, context: string, status: Status, createdAt: int,
    wokenAt: Option<int>, retryAt: Option<int>, blockedReason: Option<string>, attempt: nat)

  datatype ActiveWake = ActiveWake(agentId: Agent, wokeAt: int)

  datatype WakeInput = WakeInput(targetAgentId: Agent, dueAt: Option<int>, kind: string, context: string)

  /** What the scan learns from the services around it: who is disabled, budget levels, who can be reached. */
  datatype World = World(enabled: Agent -> bool, level: Agent -> string, live: Agent -> bool)

  /** One wake prompt: the agent and the entries it carries. */
  datatype Delivery = Delivery(agentId: Agent, entryIds: seq<string>)

  // ---- entry ids ----

  function EntryId(kind: string, serial: nat): string {
    kind + "-" + Strings.Decimal(serial)
  }

  /** Entry ids are unique, whatever dashes and digits the kinds contain. */
  lemma EntryIdsUnique(kind: string, serial: nat, other: string, number: nat)
    ensures EntryId(kind, serial) == EntryId(other, number) <==> kind == other && serial == number
  {
    if EntryId(kind, serial) == EntryId(other, number) {
      SplitAtLastSeparator(kind, Strings.Decimal(serial), other, Strings.Decimal(number), '-');
      Strings.DecimalValue(serial);
      Strings.DecimalValue(number);
    }
  }

  // ---- one entry ----

  /** A budget-blocked entry whose retry time has come is pending again. */
  function Reactivated(e: WakeEntry, now: int): WakeEntry {
    if e.status == Blocked && e.retryAt.Some? && e.retryAt.value <= now then
      e.(status := Pending, blockedReason := None) else e
  }

  predicate Due(e: WakeEntry, now: int) {
    e.status == Pending && e.dueAt <= now && (e.retryAt.None? || e.retryAt.value <= now)
  }

  predicate Wakes(world: World, agent: Agent) {
    world.enabled(agent) && world.level(agent) == "ok" && world.live(agent)
  }

  function BlockedEntry(e: WakeEntry, level: string, retryAt: int): WakeEntry {
    e.(status := Blocked, retryAt := Some(retryAt), blockedReason := Some("budget " + level))
  }

  function WokenEntry(e: WakeEntry, now: int): WakeEntry {
    e.(status := Woken, wokenAt := Some(now), attempt := e.attempt + 1)
  }

  /** What a wake scan makes of a due entry. */
  function Handled(world: World, e: WakeEntry, now: int, retryMs: int): WakeEntry {
    var agent := e.targetAgentId;
    if !world.enabled(agent) then e
    else if world.level(agent) != "ok" then BlockedEntry(e, world.level(agent), now + retryMs)
    else if !world.live(agent) then e
    else WokenEntry(e, now)
  }

  function Scanned(world: World, e: WakeEntry, now: int, retryMs: int): WakeEntry {
    var r := Reactivated(e, now);
    if Due(r, now) then Handled(world, r, now, retryMs) else r
  }

  /** Delivered by this scan. */
  predicate Delivers(world: World, e: WakeEntry, now: int) {
    Due(Reactivated(e, now), now) && Wakes(world, e.targetAgentId)
  }

  /** The positions of the entries due for one agent, in queue order. */
  function DueAt(entries: seq<WakeEntry>, agent: Agent, now: int): (r: seq<nat>)
    ensures forall k :: 0 <= k < |r| ==> r[k] < |entries|
    ensures forall i :: i in r <==> 0 <= i < |entries| && Due(entries[i], now) && entries[i].targetAgentId == agent
    ensures forall j, k :: 0 <= j < k < |r| ==> r[j] < r[k]
  {
    if entries == [] then []
    else
      var n := |entries| - 1;
      DueAt(entries[..n], agent, now) + (if Due(entries[n], now) && entries[n].targetAgentId == agent then [n] else [])
  }

  function IdsAt(entries: seq<WakeEntry>, members: seq<nat>): (r: seq<string>)
    requires forall k :: 0 <= k < |members| ==> members[k] < |entries|
    ensures |r| == |members| && forall k :: 0 <= k < |r| ==> r[k] == entries[members[k]].id
  {
    seq(|members|, k requires 0 <= k < |members| => entries[members[k]].id)
  }

  function AllReactivated(entries: seq<WakeEntry>, now: int): (r: seq<WakeEntry>)
    ensures |r| == |entries| && forall i :: 0 <= i < |r| ==> r[i] == Reactivated(entries[i], now)
  {
    seq(|entries|, i requires 0 <= i < |entries| => Reactivated(entries[i], now))
  }

  /** The ids of the entries a scan finds due for one agent, in queue order. */
  function DueIds(entries: seq<WakeEntry>, agent: Agent, now: int): seq<string> {
    var es := AllReactivated(entries, now);
    IdsAt(es, DueAt(es, agent, now))
  }

  predicate Takeable(e: WakeEntry, stalled: set<Agent>) {
    e.targetAgentId in stalled && (e.status == Pending || e.status == Woken)
  }

  ghost predicate TakeableId(entries: seq<WakeEntry>, stalled: set<Agent>, id: string) {
    exists i :: 0 <= i < |entries| && entries[i].id == id && Takeable(entries[i], stalled)
  }

  /** Re-targeted and re-due; the status stays what it was. */
  function TakenEntry(e: WakeEntry, successor: Agent -> Option<Agent>, now: int): WakeEntry {
    var next := successor(e.targetAgentId);
    e.(targetAgentId := if next.Some? then next.value else e.targetAgentId, dueAt := now, attempt := e.attempt + 1)
  }

  function OrphanedEntry(e: WakeEntry, now: int): WakeEntry {
    e.(status := Pending, dueAt := now, attempt := e.attempt + 1)
  }

  // ---- the queue ----

  function Find(entries: seq<WakeEntry>, id: string): (r: Option<nat>)
    ensures r.Some? ==> r.value < |entries| && entries[r.value].id == id
    ensures r.None? ==> forall i :: 0 <= i < |entries| ==> entries[i].id != id
  {
    if entries == [] then None
    else if entries[0].id == id then Some(0)
    else
      match Find(entries[1..], id)
      case None => None
      case Some(i) => Some(i + 1)
  }

  /** A record outlives its window without any sign of life of the agent. */
  predicate TimedOut(record: ActiveWake, now: int, thresholdMs: int) {
    now - record.wokeAt > thresholdMs
  }

  predicate Dead(record: ActiveWake, now: int, thresholdMs: int, lastSeen: Agent -> Option<int>) {
    TimedOut(record, now, thresholdMs)
      && !(lastSeen(record.agentId).Some? && lastSeen(record.agentId).value > record.wokeAt)
  }

  predicate IdsDistinct(entries: seq<WakeEntry>) {
    forall i, j :: 0 <= i < j < |entries| ==> entries[i].id != entries[j].id
  }

  // ---- what one operation makes of queue and tracking table ----

  ghost predicate ScanDone(world: World, now: int, retryMs: int, entries: seq<WakeEntry>,
          active: map<string, ActiveWake>, entries': seq<WakeEntry>, active': map<string, ActiveWake>,
          deliveries: seq<Delivery>)
  {
    && |entries'| == |entries|
    && (forall i :: 0 <= i < |entries| ==> entries'[i] == Scanned(world, entries[i], now, retryMs))
    && (forall i :: 0 <= i < |entries| && Delivers(world, entries[i], now) ==>
          entries[i].id in active' && active'[entries[i].id] == ActiveWake(entries[i].targetAgentId, now))
    && (forall id :: id in active' ==>
          || (id in active && active'[id] == active[id])
          || exists i :: 0 <= i < |entries| && entries[i].id == id && Delivers(world, entries[i], now))
    && (forall id :: id in active ==> id in active')
    && OneDeliveryEach(world, now, entries, deliveries)
  }

  /**
   * At most one delivery per agent, to exactly the agents that can be woken and have due entries, with exactly
   * those entries.
   */
  ghost predicate OneDeliveryEach(world: World, now: int, entries: seq<WakeEntry>, deliveries: seq<Delivery>) {
    && (forall g, h :: 0 <= g < h < |deliveries| ==> deliveries[g].agentId != deliveries[h].agentId)
    && (forall g :: 0 <= g < |deliveries| ==>
          && Wakes(world, deliveries[g].agentId)
          && deliveries[g].entryIds == DueIds(entries, deliveries[g].agentId, now) != [])
    && (forall agent :: Wakes(world, agent) && DueIds(entries, agent, now) != [] ==>
          exists g :: 0 <= g < |deliveries| && deliveries[g].agentId == agent)
  }

  ghost predicate TakeoverDone(stalled: set<Agent>, successor: Agent -> Option<Agent>, now: int,
          entries: seq<WakeEntry>, active: map<string, ActiveWake>, entries': seq<WakeEntry>,
          active': map<string, ActiveWake>)
  {
    && |entries'| == |entries|
    && (forall i :: 0 <= i < |entries| ==>
          entries'[i] == if Takeable(entries[i], stalled) then TakenEntry(entries[i], successor, now) else entries[i])
    && (forall id :: id in active' <==>
          id in active && !TakeableId(entries, stalled, id))
    && (forall id :: id in active' ==> active'[id] == active[id])
  }

  ghost predicate OrphansDone(lastSeen: Agent -> Option<int>, now: int, thresholdMs: int, entries: seq<WakeEntry>,
          active: map<string, ActiveWake>, entries': seq<WakeEntry>, active': map<string, ActiveWake>)
  {
    && |entries'| == |entries|
    && (forall i :: 0 <= i < |entries| ==>
          entries'[i] == if entries[i].id in active && Dead(active[entries[i].id], now, thresholdMs, lastSeen)
                         then OrphanedEntry(entries[i], now) else entries[i])
    && active' == map id | id in active && !TimedOut(active[id], now, thresholdMs) :: active[id]
  }
}
