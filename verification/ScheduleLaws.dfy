/** What a schedule's owner can rely on over its whole life: its terms, its next run, its limits, its records. */
module ScheduleLaws {
  import opened Prelude
  import opened Schedules
  import Strings

  // ---- the terms ----

  /** What the owner agreed to. */
  datatype Terms = Terms(
    agentId: Agent, name: Option<string>, prompt: string, cadence: Cadence, maxRuns: Option<int>,
    expiresAt: Option<int>)

  function TermsOf(s: Schedule): Terms {
    Terms(s.agentId, s.name, s.prompt, s.cadence, s.maxRuns, s.expiresAt)
  }

  predicate GoesThrough(cron: CronSource, s: Schedule, e: Event) {
    e.Updated? && UpdateIn(cron, s, e.patch, e.now).Ok?
  }

  /** The terms after an event: only an update that goes through changes them, in the fields it names. */
  function TermsAfter(cron: CronSource, s: Schedule, terms: Terms, e: Event): Terms {
    if !GoesThrough(cron, s, e) then terms
    else
      var p := e.patch;
      Terms(terms.agentId, if p.name.Some? then p.name.value else terms.name,
            if p.prompt.Some? then Strings.Trim(p.prompt.value) else terms.prompt,
            if p.cadence.Some? then p.cadence.value else terms.cadence,
            if p.maxRuns.Some? then p.maxRuns.value else terms.maxRuns,
            if p.expiresAt.Some? then p.expiresAt.value else terms.expiresAt)
  }

  lemma OnlyUpdatesChangeTerms(cron: CronSource, s: Schedule, e: Event)
    ensures TermsOf(ResultOf(cron, s, e)) == TermsAfter(cron, s, TermsOf(s), e)
  {
    hide Last, Strings.Trim, ComputeNext, ValidCadence, Spent;
  }

  /** What a new schedule promises: the terms of its input, active, first due as its cadence says. */
  lemma CreatedAsAsked(cron: CronSource, id: Id, input: CreateInput, now: int)
    requires CreateIn(cron, id, input, now).Ok?
    ensures var s := CreateIn(cron, id, input, now).value;
            && TermsOf(s) == Terms(input.agentId, input.name, Strings.Trim(input.prompt), input.cadence, input.maxRuns,
                                   if input.expiresInMs.Some? then Some(now + input.expiresInMs.value)
                                     else input.expiresAt)
            && s.status == Active && s.nextRunAt == ComputeNext(cron, input.cadence, now) && s.nextRunAt.Some?
            && s.runCount == 0 && s.runs == [] && s.lastRunAt == None && s.createdAt == now
    ensures input.expiresInMs.None? || input.expiresAt.None?
  {
    hide Strings.Trim, ComputeNext, ValidCadence;
  }

  /**
   * An update goes through exactly when no field it names is bad
   * and an active schedule's new cadence has a next run.
   */
  lemma UpdateGoesThroughExactly(cron: CronSource, s: Schedule, patch: Patch, now: int)
    ensures UpdateIn(cron, s, patch, now).Ok? <==>
              && (patch.prompt.Some? ==> Strings.Trim(patch.prompt.value) != "")
              && (patch.cadence.Some? ==> ValidCadence(cron, patch.cadence.value))
              && (patch.maxRuns.Some? && patch.maxRuns.value.Some? ==> patch.maxRuns.value.value >= 1)
              && (patch.expiresAt.Some? && patch.expiresAt.value.Some? ==> patch.expiresAt.value.value > now)
              && (patch.cadence.Some? && s.status == Active ==> ComputeNext(cron, patch.cadence.value, now).Some?)
  {
    hide Strings.Trim, ComputeNext, ValidCadence, Spent;
  }

  // ---- the next run ----

  /** The time the next run is counted from: creation, the last tick run, cadence change while active, or resumption. */
  function Anchor(cron: CronSource, s: Schedule, anchor: int, e: Event): int {
    match e
    case Tried(now, _) => if Starts(cron, s, e) then now else anchor
    case Updated(patch, now) => if GoesThrough(cron, s, e) && patch.cadence.Some? then now else anchor
    case ResumedAt(now) => if s.status == Paused then now else anchor
    case _ => anchor
  }

  /** While active the next run is the one the cadence gives after the anchor. */
  predicate OnCourse(cron: CronSource, s: Schedule, anchor: int) {
    && s.status != Completed
    && (s.status == Active ==> s.nextRunAt.Some? && s.nextRunAt == ComputeNext(cron, s.cadence, anchor))
  }

  lemma StaysOnCourse(cron: CronSource, s: Schedule, anchor: int, e: Event)
    requires OnCourse(cron, s, anchor)
    ensures OnCourse(cron, ResultOf(cron, s, e), Anchor(cron, s, anchor, e))
  {
    hide Last, Strings.Trim, ComputeNext, ValidCadence, Spent;
  }

  function AnchorAfter(cron: CronSource, s: Schedule, anchor: int, events: seq<Event>): int
    decreases |events|
  {
    if events == [] then anchor
    else AnchorAfter(cron, ResultOf(cron, s, events[0]), Anchor(cron, s, anchor, events[0]), events[1..])
  }

  /**
   * Over its whole life an active schedule's next run is what its cadence gives after its creation, its last tick
   * run, its last change of cadence or its last resumption, whichever came last; manual runs do not move it.
   */
  lemma {:induction false} NextRunFollowsCadence(cron: CronSource, s: Schedule, anchor: int, events: seq<Event>)
    requires OnCourse(cron, s, anchor)
    ensures OnCourse(cron, After(cron, s, events), AnchorAfter(cron, s, anchor, events))
    decreases |events|
  {
    hide OnCourse, ResultOf, Anchor;
    if events != [] {
      StaysOnCourse(cron, s, anchor, events[0]);
      NextRunFollowsCadence(cron, ResultOf(cron, s, events[0]), Anchor(cron, s, anchor, events[0]), events[1..]);
    }
  }

  lemma CreatedOnCourse(cron: CronSource, id: Id, input: CreateInput, now: int)
    requires CreateIn(cron, id, input, now).Ok?
    ensures OnCourse(cron, CreateIn(cron, id, input, now).value, now)
  {
    hide Strings.Trim, ComputeNext, ValidCadence;
  }

  /** For a plain interval: the next run lies exactly the interval after the anchor. */
  lemma EveryIsExact(cron: CronSource, s: Schedule, anchor: int, n: int)
    requires OnCourse(cron, s, anchor) && s.status == Active && s.cadence == Every(n)
    ensures n >= 1 && s.nextRunAt == Some(anchor + n)
  {
  }

  // ---- the limits ----

  /** A run starts only within the terms in force: before the expiry, and with runs left. */
  lemma RunsWithinTerms(cron: CronSource, s: Schedule, e: Event)
    requires Starts(cron, s, e)
    ensures var terms := TermsOf(s);
            && s.status == Active
            && (terms.expiresAt.Some? ==> e.now < terms.expiresAt.value)
            && (terms.maxRuns.Some? ==> s.runCount < terms.maxRuns.value)
  {
    hide Last, ComputeNext;
  }

  function StartCount(cron: CronSource, s: Schedule, events: seq<Event>): nat
    decreases |events|
  {
    if events == [] then 0
    else (if Starts(cron, s, events[0]) then 1 else 0) + StartCount(cron, ResultOf(cron, s, events[0]), events[1..])
  }

  /** So a schedule that is never updated starts no more runs than it was created with. */
  lemma {:induction false} RunsAreBounded(cron: CronSource, s: Schedule, events: seq<Event>, max: int)
    requires s.maxRuns == Some(max) && s.runCount <= max && forall i :: 0 <= i < |events| ==> !events[i].Updated?
    ensures s.runCount + StartCount(cron, s, events) <= max
    decreases |events|
  {
    hide ResultOf, Starts;
    if events != [] {
      assert !events[0].Updated?;
      OnlyUpdatesChangeTerms(cron, s, events[0]);
      NoRunWhenSpent(cron, s, events[0]);
      if Starts(cron, s, events[0]) {
        RunsWithinTerms(cron, s, events[0]);
      }
      RunsAreBounded(cron, ResultOf(cron, s, events[0]), events[1..], max);
    }
  }

  // ---- the records of runs ----

  /**
   * What is recorded of a run: when it was due, when it started, whether the prompt got through;
   * 20 at most are kept.
   */
  lemma RunIsRecorded(cron: CronSource, s: Schedule, e: Event)
    requires Starts(cron, s, e)
    ensures var r := ResultOf(cron, s, e);
            && 0 < |r.runs| <= 20
            && r.runs[|r.runs| - 1] == Run(if s.nextRunAt.Some? then s.nextRunAt.value else e.now, e.now, e.delivered)
            && r.lastRunAt == Some(e.now)
            && r.runs == if |s.runs| < 20 then s.runs + [r.runs[|r.runs| - 1]]
                         else s.runs[|s.runs| - 19..] + [r.runs[|r.runs| - 1]]
  {
    hide ComputeNext, Spent;
  }
}
