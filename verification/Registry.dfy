/** The in-memory fleet registry: heartbeats, stall detection and one append-only ledger per agent. */
module Registry {
  import opened Prelude

  type Id = string

  datatype Status = Active | Stalled | Offline

  datatype Entry = Entry(id: Id, lastSeen: int, status: Status, heartbeatCount: nat, registeredAt: int)

  datatype Data =
    | Heartbeat(count: nat)
    | Stall(stalledMs: int)
    | Resume(stalledForMs: int)
    | Message(outgoing: bool, from: Id, to: Id, text: string, serial: nat, delivered: bool)

  datatype LedgerEvent = LedgerEvent(seqNo: nat, time: int, data: Data)

  datatype RegistryError = AlreadyRegistered | UnknownAgent | EmptyMessage

  /** An agent's entry with its ledger. */
  datatype Agent = Agent(entry: Entry, ledger: seq<LedgerEvent>)

  function Append(ledger: seq<LedgerEvent>, time: int, data: Data): seq<LedgerEvent> {
    ledger + [LedgerEvent(|ledger|, time, data)]
  }

  // ---- one agent ----

  function Registered(id: Id, now: int): Agent {
    Agent(Entry(id, now, Active, 1, now), Append([], now, Heartbeat(1)))
  }

  /** A heartbeat: a stalled agent resumes first; an offline one stays offline. */
  function Beaten(a: Agent, now: int): Agent {
    var e := a.entry;
    var stalled := e.status == Stalled;
    var ledger := if stalled then Append(a.ledger, now, Resume(now - e.lastSeen)) else a.ledger;
    Agent(e.(lastSeen := now, heartbeatCount := e.heartbeatCount + 1,
             status := if e.status == Offline then Offline else Active),
          Append(ledger, now, Heartbeat(e.heartbeatCount + 1)))
  }

  predicate Stalls(e: Entry, now: int, thresholdMs: int) {
    e.status == Active && now - e.lastSeen > thresholdMs
  }

  predicate Resumes(e: Entry, now: int, thresholdMs: int) {
    e.status == Stalled && now - e.lastSeen <= thresholdMs
  }

  function Scanned(a: Agent, now: int, thresholdMs: int): Agent {
    var age := now - a.entry.lastSeen;
    if Stalls(a.entry, now, thresholdMs) then Agent(a.entry.(status := Stalled), Append(a.ledger, now, Stall(age)))
    else if Resumes(a.entry, now, thresholdMs) then
      Agent(a.entry.(status := Active), Append(a.ledger, now, Resume(age)))
    else a
  }

  function MarkedOffline(a: Agent): Agent {
    a.(entry := a.entry.(status := Offline))
  }

  function Told(a: Agent, now: int, data: Data): Agent {
    a.(ledger := Append(a.ledger, now, data))
  }

  // ---- what every agent keeps ----

  function Heartbeats(ledger: seq<LedgerEvent>): nat {
    if ledger == [] then 0
    else Heartbeats(ledger[..|ledger| - 1]) + if ledger[|ledger| - 1].data.Heartbeat? then 1 else 0
  }

  /** The ledger's own account of stalls: None when a stall follows a stall or a resume follows no stall. */
  function StalledBy(ledger: seq<LedgerEvent>): Option<bool> {
    if ledger == [] then Some(false)
    else
      var before := StalledBy(ledger[..|ledger| - 1]);
      match ledger[|ledger| - 1].data
      case Stall(_) => if before == Some(false) then Some(true) else None
      case Resume(_) => if before == Some(true) then Some(false) else None
      case _ => before
  }

  /** Contiguous numbers, the heartbeat count, and stalls and resumes that alternate and agree with the status. */
  ghost predicate AgentKept(a: Agent) {
    && (forall i :: 0 <= i < |a.ledger| ==> a.ledger[i].seqNo == i)
    && a.entry.heartbeatCount == Heartbeats(a.ledger)
    && StalledBy(a.ledger).Some?
    && (a.entry.status != Offline ==> StalledBy(a.ledger).value == (a.entry.status == Stalled))
  }

  lemma AppendFacts(ledger: seq<LedgerEvent>, time: int, data: Data)
    ensures Heartbeats(Append(ledger, time, data)) == Heartbeats(ledger) + if data.Heartbeat? then 1 else 0
    ensures StalledBy(Append(ledger, time, data)) ==
              match data
              case Stall(_) => if StalledBy(ledger) == Some(false) then Some(true) else None
              case Resume(_) => if StalledBy(ledger) == Some(true) then Some(false) else None
              case _ => StalledBy(ledger)
    ensures (forall i :: 0 <= i < |ledger| ==> ledger[i].seqNo == i) ==>
              forall i :: 0 <= i < |Append(ledger, time, data)| ==> Append(ledger, time, data)[i].seqNo == i
  {
    assert Append(ledger, time, data)[..|ledger|] == ledger;
  }

  lemma RegisteredKept(id: Id, now: int)
    ensures AgentKept(Registered(id, now))
  {
    AppendFacts([], now, Heartbeat(1));
  }

  lemma BeatenKept(a: Agent, now: int)
    requires AgentKept(a)
    ensures AgentKept(Beaten(a, now))
  {
    hide Append, Heartbeats, StalledBy;
    var e := a.entry;
    AppendFacts(a.ledger, now, Resume(now - e.lastSeen));
    AppendFacts(a.ledger, now, Heartbeat(e.heartbeatCount + 1));
    AppendFacts(Append(a.ledger, now, Resume(now - e.lastSeen)), now, Heartbeat(e.heartbeatCount + 1));
  }

  lemma ScannedKept(a: Agent, now: int, thresholdMs: int)
    requires AgentKept(a)
    ensures AgentKept(Scanned(a, now, thresholdMs))
  {
    hide Append, Heartbeats, StalledBy;
    var age := now - a.entry.lastSeen;
    AppendFacts(a.ledger, now, Stall(age));
    AppendFacts(a.ledger, now, Resume(age));
  }

  lemma ToldKept(a: Agent, now: int, data: Data)
    requires AgentKept(a) && data.Message?
    ensures AgentKept(Told(a, now, data))
  {
    AppendFacts(a.ledger, now, data);
  }

  // ---- the registry ----

  ghost predicate RegistryKept(agents: map<Id, Entry>, ledgers: map<Id, seq<LedgerEvent>>, order: seq<Id>) {
    && agents.Keys == ledgers.Keys
    && (forall i, j :: 0 <= i < j < |order| ==> order[i] != order[j])
    && (forall id :: id in order <==> id in agents)
    && (forall id :: id in agents ==> agents[id].id == id && AgentKept(Agent(agents[id], ledgers[id])))
  }

  lemma OneKept(agents: map<Id, Entry>, ledgers: map<Id, seq<LedgerEvent>>, order: seq<Id>, id: Id)
    requires RegistryKept(agents, ledgers, order) && id in agents
    ensures id in ledgers && agents[id].id == id && AgentKept(Agent(agents[id], ledgers[id]))
  {
  }

  lemma ReplaceKeeps(agents: map<Id, Entry>, ledgers: map<Id, seq<LedgerEvent>>, order: seq<Id>, id: Id, a: Agent)
    requires RegistryKept(agents, ledgers, order) && id in agents && a.entry.id == id && AgentKept(a)
    ensures RegistryKept(agents[id := a.entry], ledgers[id := a.ledger], order)
    ensures id in ledgers && (a.ledger == ledgers[id] ==> ledgers[id := a.ledger] == ledgers)
    ensures (a.entry == agents[id] ==> agents[id := a.entry] == agents)
  {
    hide AgentKept;
  }

  lemma AddKeeps(agents: map<Id, Entry>, ledgers: map<Id, seq<LedgerEvent>>, order: seq<Id>, a: Agent)
    requires RegistryKept(agents, ledgers, order) && a.entry.id !in agents && AgentKept(a)
    ensures RegistryKept(agents[a.entry.id := a.entry], ledgers[a.entry.id := a.ledger], order + [a.entry.id])
  {
    hide AgentKept;
  }

  lemma RemoveKeeps(agents: map<Id, Entry>, ledgers: map<Id, seq<LedgerEvent>>, order: seq<Id>, id: Id)
    requires RegistryKept(agents, ledgers, order)
    ensures RegistryKept(agents - {id}, ledgers - {id}, Drop(order, id))
  {
    hide AgentKept;
    DropKeeps(order, id, agents.Keys);
  }

  class FleetRegistry {
    const stallThresholdMs: int
    var agents: map<Id, Entry>
    var ledgers: map<Id, seq<LedgerEvent>>
    /** Registration order. */
    var order: seq<Id>
    var messageCounter: nat

    ghost predicate Valid()
      reads this
    {
      RegistryKept(agents, ledgers, order)
    }

    constructor (stallThresholdMs: int)
      ensures Valid() && agents == map[] && ledgers == map[] && order == [] && this.stallThresholdMs == stallThresholdMs
    {
      this.stallThresholdMs := stallThresholdMs;
      agents := map[];
      ledgers := map[];
      order := [];
      messageCounter := 0;
    }

    /** Appends one event to an agent's ledger. */
    method AppendEvent(id: Id, time: int, data: Data)
      modifies this`ledgers
      ensures ledgers == WithEvent(old(ledgers), id, time, data)
    {
      var ledger := if id in ledgers then ledgers[id] else [];
      ledgers := ledgers[id := ledger + [LedgerEvent(|ledger|, time, data)]];
    }

    method RegisterAgent(id: Id, now: int) returns (r: Result<Entry, RegistryError>)
      requires Valid()
      modifies this
      ensures Valid() && messageCounter == old(messageCounter)
      ensures id in old(agents) ==>
                && r == Err(AlreadyRegistered) && agents == old(agents) && ledgers == old(ledgers)
                && order == old(order)
      ensures id !in old(agents) ==>
                && r == Ok(Registered(id, now).entry) && order == old(order) + [id]
                && agents == old(agents)[id := Registered(id, now).entry]
                   && ledgers == old(ledgers)[id := Registered(id, now).ledger]
    {
      hide AgentKept, RegistryKept, Append;
      if id in agents { return Err(AlreadyRegistered); }
      RegisteredKept(id, now);
      AddKeeps(agents, ledgers, order, Registered(id, now));
      var entry := Entry(id, now, Active, 1, now);
      agents := agents[id := entry];
      ledgers := ledgers[id := []];
      order := order + [id];
      AppendEvent(id, now, Heartbeat(entry.heartbeatCount));
      assert ledgers == old(ledgers)[id := Registered(id, now).ledger];
      return Ok(entry);
    }

    method RecordHeartbeat(id: Id, now: int) returns (r: Result<Entry, RegistryError>)
      requires Valid()
      modifies this`agents, this`ledgers
      ensures Valid()
      ensures id !in old(agents) ==> r == Err(UnknownAgent) && agents == old(agents) && ledgers == old(ledgers)
      ensures id in old(agents) ==>
                && id in old(ledgers)
                && var b := Beaten(Agent(old(agents)[id], old(ledgers)[id]), now);
                   r == Ok(b.entry) && agents == old(agents)[id := b.entry] && ledgers == old(ledgers)[id := b.ledger]
    {
      hide AgentKept, RegistryKept, Append;
      if id !in agents { return Err(UnknownAgent); }
      var entry := agents[id];
      OneKept(agents, ledgers, order, id);
      BeatenKept(Agent(entry, ledgers[id]), now);
      ReplaceKeeps(agents, ledgers, order, id, Beaten(Agent(entry, ledgers[id]), now));
      var wasStalled := entry.status == Stalled;
      var stalledForMs := if wasStalled then now - entry.lastSeen else 0;
      entry := entry.(lastSeen := now, heartbeatCount := entry.heartbeatCount + 1);
      if entry.status != Offline { entry := entry.(status := Active); }
      agents := agents[id := entry];
      if wasStalled { AppendEvent(id, now, Resume(stalledForMs)); }
      AppendEvent(id, now, Heartbeat(entry.heartbeatCount));
      assert ledgers == old(ledgers)[id := Beaten(Agent(old(agents)[id], old(ledgers)[id]), now).ledger];
      return Ok(entry);
    }

    method MarkOffline(id: Id)
      requires Valid()
      modifies this`agents
      ensures Valid()
      ensures agents == if id in old(agents) then old(agents)[id := old(agents)[id].(status := Offline)]
              else old(agents)
    {
      if id !in agents { return; }
      agents := agents[id := agents[id].(status := Offline)];
    }

    method UnregisterAgent(id: Id)
      requires Valid()
      modifies this
      ensures Valid() && messageCounter == old(messageCounter)
      ensures agents == old(agents) - {id} && ledgers == old(ledgers) - {id}
    {
      hide RegistryKept;
      RemoveKeeps(agents, ledgers, order, id);
      agents := agents - {id};
      ledgers := ledgers - {id};
      order := Drop(order, id);
    }

    /** The stall scan: every agent as `Scanned` says, the stalled and the resumed ones reported. */
    method RunTick(now: int) returns (stalled: seq<Id>, resumed: seq<Id>)
      requires Valid()
      modifies this`agents, this`ledgers
      ensures Valid()
      ensures ScannedUpTo(old(agents), old(ledgers), agents, ledgers, old(agents).Keys, now, stallThresholdMs)
      ensures forall id :: id in stalled <==> id in old(agents) && Stalls(old(agents)[id], now, stallThresholdMs)
      ensures forall id :: id in resumed <==> id in old(agents) && Resumes(old(agents)[id], now, stallThresholdMs)
    {
      hide RegistryKept, Append, ScannedUpTo;
      ghost var as0, ls0 := agents, ledgers;
      ghost var done: set<Id> := {};
      OrderKept(agents, ledgers, order);
      NothingScanned(agents, ledgers, now, stallThresholdMs);
      stalled, resumed := [], [];
      for i := 0 to |order|
        invariant Valid() && forall id :: id in done <==> id in order[..i]
        invariant ScannedUpTo(as0, ls0, agents, ledgers, done, now, stallThresholdMs)
        invariant forall id :: id in stalled <==> id in done && Stalls(as0[id], now, stallThresholdMs)
        invariant forall id :: id in resumed <==> id in done && Resumes(as0[id], now, stallThresholdMs)
      {
        var id := order[i];
        NotYet(order, i);
        assert order[..i + 1] == order[..i] + [id];
        ScanNext(as0, ls0, agents, ledgers, order, done, id, now, stallThresholdMs);
        done := done + {id};
        var entry := agents[id];
        if entry.status == Offline { continue; }
        var age := now - entry.lastSeen;
        if entry.status == Active && age > stallThresholdMs {
          agents := agents[id := entry.(status := Stalled)];
          stalled := stalled + [id];
          AppendEvent(id, now, Stall(age));
        } else if entry.status == Stalled && age <= stallThresholdMs {
          agents := agents[id := entry.(status := Active)];
          resumed := resumed + [id];
          AppendEvent(id, now, Resume(age));
        }
      }
      assert order[..|order|] == order;
      assert done == as0.Keys;
    }

    /** A message goes into both ledgers, and once more into both when the receiver's hook took it. */
    method SendMessage(from: Id, to: Id, text: string, now: int, hookThrows: bool)
      returns (r: Result<bool, RegistryError>)
      requires Valid()
      modifies this`ledgers, this`messageCounter
      ensures Valid()
      ensures from !in agents || to !in agents ==> r == Err(UnknownAgent)
      ensures from in agents && to in agents && text == "" ==> r == Err(EmptyMessage)
      ensures r.Err? ==> ledgers == old(ledgers) && messageCounter == old(messageCounter)
      ensures from in agents && to in agents && text != "" ==>
                && r == Ok(!hookThrows) && messageCounter == old(messageCounter) + 1
                && ledgers == Messaged(old(ledgers), from, to, text, messageCounter, now, !hookThrows)
    {
      hide RegistryKept, WithEvent;
      if from !in agents { return Err(UnknownAgent); }
      if to !in agents { return Err(UnknownAgent); }
      if |text| == 0 { return Err(EmptyMessage); }
      messageCounter := messageCounter + 1;
      MessageKept(agents, ledgers, order, from, now, Message(true, from, to, text, messageCounter, false));
      AppendEvent(from, now, Message(true, from, to, text, messageCounter, false));
      MessageKept(agents, ledgers, order, to, now, Message(false, from, to, text, messageCounter, false));
      AppendEvent(to, now, Message(false, from, to, text, messageCounter, false));
      if hookThrows { return Ok(false); }
      MessageKept(agents, ledgers, order, from, now, Message(true, from, to, text, messageCounter, true));
      AppendEvent(from, now, Message(true, from, to, text, messageCounter, true));
      MessageKept(agents, ledgers, order, to, now, Message(false, from, to, text, messageCounter, true));
      AppendEvent(to, now, Message(false, from, to, text, messageCounter, true));
      return Ok(true);
    }
  }

  /** The registry with the agents of `done` scanned and all others as they were. */
  ghost predicate ScannedUpTo(agents: map<Id, Entry>, ledgers: map<Id, seq<LedgerEvent>>, agents': map<Id, Entry>,
                              ledgers': map<Id, seq<LedgerEvent>>, done: set<Id>, now: int, thresholdMs: int)
  {
    && agents'.Keys == agents.Keys == ledgers.Keys == ledgers'.Keys
    && forall id :: id in agents ==>
         Agent(agents'[id], ledgers'[id]) ==
         if id in done then Scanned(Agent(agents[id], ledgers[id]), now, thresholdMs)
           else Agent(agents[id], ledgers[id])
  }

  lemma OrderKept(agents: map<Id, Entry>, ledgers: map<Id, seq<LedgerEvent>>, order: seq<Id>)
    requires RegistryKept(agents, ledgers, order)
    ensures agents.Keys == ledgers.Keys
    ensures forall i, j :: 0 <= i < j < |order| ==> order[i] != order[j]
    ensures forall id :: id in order <==> id in agents
  {
  }

  lemma NothingScanned(agents: map<Id, Entry>, ledgers: map<Id, seq<LedgerEvent>>, now: int, thresholdMs: int)
    requires agents.Keys == ledgers.Keys
    ensures ScannedUpTo(agents, ledgers, agents, ledgers, {}, now, thresholdMs)
  {
  }

  lemma NotYet(order: seq<Id>, i: nat)
    requires i < |order| && forall j, k :: 0 <= j < k < |order| ==> order[j] != order[k]
    ensures order[i] !in order[..i]
  {
  }

  /** Scanning one more agent, whichever of the three cases applies. */
  lemma ScanNext(agents: map<Id, Entry>, ledgers: map<Id, seq<LedgerEvent>>, mid: map<Id, Entry>,
          midLedgers: map<Id, seq<LedgerEvent>>, order: seq<Id>, done: set<Id>, id: Id, now: int, thresholdMs: int)
    requires ScannedUpTo(agents, ledgers, mid, midLedgers, done, now, thresholdMs) && id in agents && id !in done
    requires RegistryKept(mid, midLedgers, order)
    ensures id in mid && mid[id] == agents[id] && id in midLedgers
    ensures var s := Scanned(Agent(mid[id], midLedgers[id]), now, thresholdMs);
            && RegistryKept(mid[id := s.entry], midLedgers[id := s.ledger], order)
            && ScannedUpTo(agents, ledgers, mid[id := s.entry], midLedgers[id := s.ledger], done + {id}, now,
                           thresholdMs)
            && (s.entry == mid[id] ==> mid[id := s.entry] == mid)
            && (s.ledger == midLedgers[id] ==> midLedgers[id := s.ledger] == midLedgers)
            && (Stalls(mid[id], now, thresholdMs) ==>
                  midLedgers[id := s.ledger] == WithEvent(midLedgers, id, now, Stall(now - mid[id].lastSeen)))
            && (Resumes(mid[id], now, thresholdMs) ==>
                  midLedgers[id := s.ledger] == WithEvent(midLedgers, id, now, Resume(now - mid[id].lastSeen)))
  {
    hide AgentKept, RegistryKept, Append;
    var a := Agent(mid[id], midLedgers[id]);
    OneKept(mid, midLedgers, order, id);
    ScannedKept(a, now, thresholdMs);
    ReplaceKeeps(mid, midLedgers, order, id, Scanned(a, now, thresholdMs));
  }

  function WithEvent(ledgers: map<Id, seq<LedgerEvent>>, id: Id, now: int, data: Data): map<Id, seq<LedgerEvent>> {
    ledgers[id := Append(if id in ledgers then ledgers[id] else [], now, data)]
  }

  /** Both ledgers after a message. */
  function Messaged(ledgers: map<Id, seq<LedgerEvent>>, from: Id, to: Id, text: string, serial: nat, now: int,
          delivered: bool): map<Id, seq<LedgerEvent>> {
    var queued := WithEvent(WithEvent(ledgers, from, now, Message(true, from, to, text, serial, false)),
                            to, now, Message(false, from, to, text, serial, false));
    if !delivered then queued
    else WithEvent(WithEvent(queued, from, now, Message(true, from, to, text, serial, true)),
                   to, now, Message(false, from, to, text, serial, true))
  }

  lemma MessageKept(agents: map<Id, Entry>, ledgers: map<Id, seq<LedgerEvent>>, order: seq<Id>, id: Id, now: int,
          data: Data)
    requires RegistryKept(agents, ledgers, order) && id in agents && data.Message?
    ensures RegistryKept(agents, WithEvent(ledgers, id, now, data), order)
  {
    hide AgentKept, RegistryKept, Append;
    OneKept(agents, ledgers, order, id);
    var a := Told(Agent(agents[id], ledgers[id]), now, data);
    ToldKept(Agent(agents[id], ledgers[id]), now, data);
    ReplaceKeeps(agents, ledgers, order, id, a);
  }

  // ---- the life of one agent ----

  datatype Event = Beat(now: int) | Tick(now: int) | GoesOffline(now: int) | Mail(now: int, data: Data)

  function ResultOf(a: Agent, e: Event, thresholdMs: int): Agent {
    match e
    case Beat(now) => Beaten(a, now)
    case Tick(now) => Scanned(a, now, thresholdMs)
    case GoesOffline(_) => MarkedOffline(a)
    case Mail(now, data) => if data.Message? then Told(a, now, data) else a
  }

  function After(a: Agent, events: seq<Event>, thresholdMs: int): Agent
    decreases |events|
  {
    if events == [] then a else After(ResultOf(a, events[0], thresholdMs), events[1..], thresholdMs)
  }

  /** The clock readings of a run never decrease. */
  predicate Clocked(events: seq<Event>, start: int) {
    && (forall i :: 0 <= i < |events| ==> start <= events[i].now)
    && (forall i, j :: 0 <= i < j < |events| ==> events[i].now <= events[j].now)
  }

  lemma EventKeeps(a: Agent, e: Event, thresholdMs: int)
    requires AgentKept(a)
    ensures AgentKept(ResultOf(a, e, thresholdMs))
  {
    hide Append;
    match e
    case Beat(now) => BeatenKept(a, now);
    case Tick(now) => ScannedKept(a, now, thresholdMs);
    case GoesOffline(_) =>
    case Mail(now, data) => if data.Message? { ToldKept(a, now, data); }
  }

  /**
   * Over the whole life of an agent its ledger is contiguous, counts its heartbeats, and alternates stalls and
   * resumes.
   */
  lemma {:induction false} LifeKeeps(a: Agent, events: seq<Event>, thresholdMs: int)
    requires AgentKept(a)
    ensures AgentKept(After(a, events, thresholdMs))
    decreases |events|
  {
    hide AgentKept, ResultOf;
    if events != [] {
      EventKeeps(a, events[0], thresholdMs);
      LifeKeeps(ResultOf(a, events[0], thresholdMs), events[1..], thresholdMs);
    }
  }

  /** At time `now`: nothing seen later, and a stalled agent is past the threshold. */
  predicate Timely(a: Agent, now: int, thresholdMs: int) {
    a.entry.lastSeen <= now && (a.entry.status == Stalled ==> now - a.entry.lastSeen > thresholdMs)
  }

  lemma TimelyNext(a: Agent, now: int, e: Event, thresholdMs: int)
    requires Timely(a, now, thresholdMs) && now <= e.now
    ensures Timely(ResultOf(a, e, thresholdMs), e.now, thresholdMs)
    ensures e.Tick? ==> !Resumes(a.entry, e.now, thresholdMs)
  {
  }

  /** With a clock that never runs backwards a tick never resumes an agent: only its own heartbeat does. */
  lemma {:induction false} TickNeverResumes(a: Agent, start: int, events: seq<Event>, last: Event, thresholdMs: int)
    requires Timely(a, start, thresholdMs) && Clocked(events + [last], start) && last.Tick?
    ensures !Resumes(After(a, events, thresholdMs).entry, last.now, thresholdMs)
    decreases |events|
  {
    hide ResultOf, Timely, Resumes;
    var all := events + [last];
    assert start <= all[|events|].now;
    if events == [] {
      TimelyNext(a, start, last, thresholdMs);
    } else {
      assert start <= all[0].now && all[0] == events[0];
      TimelyNext(a, start, events[0], thresholdMs);
      assert events[1..] + [last] == all[1..];
      TickNeverResumes(ResultOf(a, events[0], thresholdMs), events[0].now, events[1..], last, thresholdMs);
    }
  }
}
