/** Stalls, resumes and messages of one agent, told by its heartbeats. */
module RegistryLaws {
  import opened Prelude
  import opened Registry

  /** The time of the last heartbeat of a run, registration included. */
  function LastBeat(start: int, events: seq<Event>): int {
    if events == [] then start
    else
      var last := events[|events| - 1];
      if last.Beat? then last.now else LastBeat(start, events[..|events| - 1])
  }

  lemma {:induction false} AfterAppend(a: Agent, events: seq<Event>, e: Event, thresholdMs: int)
    ensures After(a, events + [e], thresholdMs) == ResultOf(After(a, events, thresholdMs), e, thresholdMs)
    decreases |events|
  {
    hide ResultOf;
    if events == [] {
      assert ([] + [e])[1..] == [] && ([] + [e])[0] == e;
    } else {
      assert (events + [e])[0] == events[0] && (events + [e])[1..] == events[1..] + [e];
      AfterAppend(ResultOf(a, events[0], thresholdMs), events[1..], e, thresholdMs);
    }
  }

  /** An agent was last seen at its last heartbeat, over any life. */
  lemma {:induction false} SeenAtLastBeat(id: Id, start: int, events: seq<Event>, thresholdMs: int)
    ensures After(Registered(id, start), events, thresholdMs).entry.lastSeen == LastBeat(start, events)
    ensures After(Registered(id, start), events, thresholdMs).entry.id == id
    decreases |events|
  {
    hide Append;
    if events != [] {
      var init, e := events[..|events| - 1], events[|events| - 1];
      assert events == init + [e];
      AfterAppend(Registered(id, start), init, e, thresholdMs);
      SeenAtLastBeat(id, start, init, thresholdMs);
    }
  }

  /** A tick stalls exactly the active agents silent for longer than the threshold, and records for how long. */
  lemma StallsExactly(id: Id, start: int, events: seq<Event>, now: int, thresholdMs: int)
    ensures var a := After(Registered(id, start), events, thresholdMs);
            var b := ResultOf(a, Tick(now), thresholdMs);
            var silence := now - LastBeat(start, events);
            (a.entry.status == Active ==>
               if silence > thresholdMs then
                 b.entry.status == Stalled && b.ledger == a.ledger + [LedgerEvent(|a.ledger|, now, Stall(silence))]
               else b == a)
            && (a.entry.status == Offline ==> b == a)
  {
    SeenAtLastBeat(id, start, events, thresholdMs);
  }

  /**
   * A heartbeat makes a stalled agent active again, records how long it was silent, and counts;
   * an offline one stays so.
   */
  lemma BeatResumes(id: Id, start: int, events: seq<Event>, now: int, thresholdMs: int)
    ensures var a := After(Registered(id, start), events, thresholdMs);
            var b := ResultOf(a, Beat(now), thresholdMs);
            && b.entry.lastSeen == now && b.entry.heartbeatCount == a.entry.heartbeatCount + 1
            && (b.entry.status == if a.entry.status == Offline then Offline else Active)
            && var beat := Heartbeat(a.entry.heartbeatCount + 1);
               b.ledger == if a.entry.status == Stalled
                           then a.ledger + [LedgerEvent(|a.ledger|, now, Resume(now - LastBeat(start, events))),
                                            LedgerEvent(|a.ledger| + 1, now, beat)]
                           else a.ledger + [LedgerEvent(|a.ledger|, now, beat)]
  {
    SeenAtLastBeat(id, start, events, thresholdMs);
  }

  /** The messages of a ledger with one serial number. */
  function Mail(ledger: seq<LedgerEvent>, serial: nat): seq<Data> {
    if ledger == [] then []
    else
      var last := ledger[|ledger| - 1].data;
      Mail(ledger[..|ledger| - 1], serial) + if last.Message? && last.serial == serial then [last] else []
  }

  lemma MailAppend(ledger: seq<LedgerEvent>, now: int, data: Data, serial: nat)
    ensures Mail(Append(ledger, now, data), serial)
              == Mail(ledger, serial) + if data.Message? && data.serial == serial then [data] else []
  {
    assert Append(ledger, now, data)[..|ledger|] == ledger;
  }

  /**
   * A message between two agents: sent in one ledger, received in the other,
   * and marked delivered in both if it was.
   */
  lemma MessageIsBooked(ledgers: map<Id, seq<LedgerEvent>>, from: Id, to: Id, text: string, serial: nat, now: int,
          delivered: bool)
    requires from in ledgers && to in ledgers && from != to
    ensures var r := Messaged(ledgers, from, to, text, serial, now, delivered);
            && r.Keys == ledgers.Keys
            && Mail(r[from], serial) == Mail(ledgers[from], serial) + [Message(true, from, to, text, serial, false)]
                 + (if delivered then [Message(true, from, to, text, serial, true)] else [])
            && Mail(r[to], serial) == Mail(ledgers[to], serial) + [Message(false, from, to, text, serial, false)]
                 + (if delivered then [Message(false, from, to, text, serial, true)] else [])
            && forall id :: id in ledgers && id != from && id != to ==> r[id] == ledgers[id]
  {
    hide Append, Mail;
    var out, in' := Message(true, from, to, text, serial, false), Message(false, from, to, text, serial, false);
    MailAppend(ledgers[from], now, out, serial);
    MailAppend(ledgers[to], now, in', serial);
    MailAppend(Append(ledgers[from], now, out), now, out.(delivered := true), serial);
    MailAppend(Append(ledgers[to], now, in'), now, in'.(delivered := true), serial);
  }
}
