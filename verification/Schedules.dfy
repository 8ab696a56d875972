/**
 * The schedule service around the cron engine: owner-only verbs, the tick scan, automatic pausing and the
 * bounded run history. Each verb is a function of one record; the methods apply them to the registry.
 */
module Schedules {
  import opened Prelude
  import CronEngine
  import CronParser
  import Strings

  type Agent = string
  type Id = string

  datatype Cadence = Every(everyMs: int) | CronCadence(expression: string, timezone: Option<string>)

  datatype Status = Active | Paused | Completed

  datatype Run = Run(scheduledFor: int, startedAt: int, succeeded: bool)

  datatype Schedule = Schedule(
    id: Id, name: Option<string>, prompt: string, cadence: Cadence, agentId: Agent, status: Status, createdAt: int,
    updatedAt: int,
    nextRunAt: Option<int>, lastRunAt: Option<int>, pausedAt: Option<int>, expiresAt: Option<int>, maxRuns: Option<int>,
    runCount: nat, runs: seq<Run>)

  datatype CreateInput = CreateInput(
    prompt: string, name: Option<string>, cadence: Cadence, agentId: Agent, maxRuns: Option<int>,
    expiresAt: Option<int>, expiresInMs: Option<int>)

  /** Fields an update may change; an inner None clears the field. */
  datatype Patch = Patch(
    name: Option<Option<string>>, prompt: Option<string>, cadence: Option<Cadence>, maxRuns: Option<Option<int>>,
    expiresAt: Option<Option<int>>)

  datatype ScheduleError =
    | EmptyPrompt | NoTarget | BadCadence | BadMaxRuns | TwoExpiries | ExpiryPassed | NotFound | NotOwner | WrongStatus
      | Exhausted | NoOccurrence

  const MAX_HISTORY: nat := 20

  /** The cron engine as the service sees it: the check at the door, and the next occurrence or an exception. */
  datatype CronSource = CronSource(valid: (string, Option<string>) -> bool,
                                   next: (string, Option<string>, int) -> Option<int>)

  /** The zones as the host knows them. */
  type Zones = string -> CronEngine.Zone

  function ZoneOf(zones: Zones, timezone: Option<string>): CronEngine.Zone {
    if timezone.None? then CronEngine.Utc else zones(timezone.value)
  }

  /**
   * The service's cron source is the engine: it checks what the parser accepts and answers what the engine
   * computes.
   */
  ghost predicate FollowsEngine(cron: CronSource, zones: Zones) {
    && (forall e, z :: cron.valid(e, z) <==> CronParser.Accepted(e) && !ZoneOf(zones, z).Unknown?)
    && (forall e, z, t :: t >= 0 ==>
          exists r :: CronEngine.NextResult(e, ZoneOf(zones, z), t, r) && cron.next(e, z, t) == AsOption(r))
  }

  function AsOption(r: Result<int, CronEngine.NextError>): Option<int> {
    if r.Ok? then Some(r.value) else None
  }

  /** An occurrence lies strictly after any instant from the epoch on. */
  ghost predicate Later(cron: CronSource) {
    forall e, z, t :: t >= 0 && cron.next(e, z, t).Some? ==> cron.next(e, z, t).value > t
  }

  lemma EngineIsLater(cron: CronSource, zones: Zones)
    requires FollowsEngine(cron, zones)
    ensures Later(cron)
  {
    hide CronEngine.NextResult, CronParser.Accepted;
    forall e, z, t | t >= 0 && cron.next(e, z, t).Some? ensures cron.next(e, z, t).value > t {
      var r :| CronEngine.NextResult(e, ZoneOf(zones, z), t, r) && cron.next(e, z, t) == AsOption(r);
      CronEngine.NextIsLater(e, ZoneOf(zones, z), t, r);
    }
  }

  function ComputeNext(cron: CronSource, cadence: Cadence, after: int): Option<int> {
    match cadence
    case Every(n) => if n < 1 then None else Some(after + n)
    case CronCadence(e, z) => cron.next(e, z, after)
  }

  predicate ValidCadence(cron: CronSource, cadence: Cadence) {
    match cadence
    case Every(n) => n >= 1
    case CronCadence(e, z) => cron.valid(e, z)
  }

  // ---- one record ----

  /** Expiry passed or all runs used. */
  predicate Spent(s: Schedule, now: int) {
    || (s.expiresAt.Some? && now >= s.expiresAt.value)
    || (s.maxRuns.Some? && s.runCount >= s.maxRuns.value)
  }

  predicate AutoPause(s: Schedule, now: int) {
    s.status == Active && Spent(s, now)
  }

  function PausedRecord(s: Schedule, now: int): Schedule {
    s.(status := Paused, pausedAt := Some(now), nextRunAt := None, updatedAt := now)
  }

  function ApplyAutoPause(s: Schedule, now: int): Schedule {
    if AutoPause(s, now) then PausedRecord(s, now) else s
  }

  function NewRun(s: Schedule, now: int, delivered: bool): Run {
    Run(Or(s.nextRunAt, now), now, delivered)
  }

  /** One run; None when the cadence has no further occurrence, in which case nothing is recorded. */
  function Execute(cron: CronSource, s: Schedule, now: int, manual: bool, delivered: bool): Option<Schedule> {
    var next := if manual then Some(s.nextRunAt)
      else match ComputeNext(cron, s.cadence, now) { case None => None case Some(t) => Some(Some(t)) };
    match next
    case None => None
    case Some(nextRunAt) =>
      var ran := s.(runCount := s.runCount + 1, runs := Last(s.runs + [NewRun(s, now, delivered)], MAX_HISTORY),
                    lastRunAt := Some(now), updatedAt := now, nextRunAt := nextRunAt);
      Some(ApplyAutoPause(ran, now))
  }

  predicate DueAt(s: Schedule, now: int) {
    s.status == Active && s.nextRunAt.Some? && s.nextRunAt.value <= now
  }

  /** What a tick makes of one schedule. */
  function Tick(cron: CronSource, s: Schedule, now: int, delivered: bool): Option<Schedule> {
    if AutoPause(s, now) then Some(PausedRecord(s, now))
    else if DueAt(s, now) then Execute(cron, s, now, false, delivered)
    else Some(s)
  }

  predicate TickRuns(s: Schedule, now: int) {
    !AutoPause(s, now) && DueAt(s, now)
  }

  function NewRecord(id: Id, input: CreateInput, expiresAt: Option<int>, nextRunAt: int, now: int): Schedule {
    Schedule(id, input.name, Strings.Trim(input.prompt), input.cadence, input.agentId, Active, now, now,
             Some(nextRunAt), None, None, expiresAt, input.maxRuns, 0, [])
  }

  function CreateIn(cron: CronSource, id: Id, input: CreateInput, now: int): Result<Schedule, ScheduleError> {
    var expiresAt := if input.expiresInMs.Some? then Some(now + input.expiresInMs.value) else input.expiresAt;
    if Strings.Trim(input.prompt) == "" then Err(EmptyPrompt)
    else if input.agentId == "" then Err(NoTarget)
    else if !ValidCadence(cron, input.cadence) then Err(BadCadence)
    else if input.maxRuns.Some? && input.maxRuns.value < 1 then Err(BadMaxRuns)
    else if input.expiresAt.Some? && input.expiresInMs.Some? then Err(TwoExpiries)
    else if expiresAt.Some? && expiresAt.value <= now then Err(ExpiryPassed)
    else
      match ComputeNext(cron, input.cadence, now)
      case None => Err(NoOccurrence)
      case Some(t) => Ok(NewRecord(id, input, expiresAt, t, now))
  }

  function UpdateIn(cron: CronSource, s: Schedule, patch: Patch, now: int): Result<Schedule, ScheduleError> {
    if patch.prompt.Some? && Strings.Trim(patch.prompt.value) == "" then Err(EmptyPrompt)
    else if patch.cadence.Some? && !ValidCadence(cron, patch.cadence.value) then Err(BadCadence)
    else if patch.maxRuns.Some? && patch.maxRuns.value.Some? && patch.maxRuns.value.value < 1 then Err(BadMaxRuns)
    else if patch.expiresAt.Some? && patch.expiresAt.value.Some? && patch.expiresAt.value.value <= now then
      Err(ExpiryPassed)
    else
      var next := if s.status == Active && patch.cadence.Some? then ComputeNext(cron, patch.cadence.value, now)
        else None;
      if s.status == Active && patch.cadence.Some? && next.None? then Err(NoOccurrence)
      else
        var changed := Patched(s, patch, if next.Some? then next else s.nextRunAt, now);
        Ok(ApplyAutoPause(changed, now))
  }

  function PauseIn(s: Schedule, now: int): Result<Schedule, ScheduleError> {
    if s.status != Active then Err(WrongStatus) else Ok(PausedRecord(s, now))
  }

  function ResumeIn(cron: CronSource, s: Schedule, now: int): Result<Schedule, ScheduleError> {
    if s.status != Paused then Err(WrongStatus)
    else
      match ComputeNext(cron, s.cadence, now)
      case None => Err(NoOccurrence)
      case Some(t) => Ok(s.(status := Active, pausedAt := None, nextRunAt := Some(t), updatedAt := now))
  }

  function RunOnceIn(cron: CronSource, s: Schedule, now: int, delivered: bool): Result<Schedule, ScheduleError> {
    if s.status != Active then Err(WrongStatus)
    else if Spent(s, now) then Err(Exhausted)
    else
      match Execute(cron, s, now, true, delivered)
      case None => Err(NoOccurrence)
      case Some(r) => Ok(r)
  }

  // ---- the service ----

  class ScheduleService {
    const cron: CronSource
    var records: map<Id, Schedule>
    /** Creation order. */
    var order: seq<Id>
    /** Every run of every schedule that ever was. */
    ghost var history: map<Id, seq<Run>>

    ghost predicate Valid()
      reads this
    {
      RegistryKept(records, order, history)
    }

    constructor (cron: CronSource)
      ensures Valid() && records == map[] && order == [] && history == map[] && this.cron == cron
    {
      this.cron := cron;
      records := map[];
      order := [];
      history := map[];
    }

    function Owned(id: Id, actor: Agent): (r: Result<Schedule, ScheduleError>)
      reads this
      ensures r.Ok? ==> id in records && r.value == records[id] && records[id].agentId == actor
      ensures r == Err(NotFound) <==> id !in records
    {
      if id !in records then Err(NotFound)
      else if records[id].agentId != actor then Err(NotOwner)
      else Ok(records[id])
    }

    method Create(id: Id, input: CreateInput, now: int) returns (r: Result<Schedule, ScheduleError>)
      requires Valid() && id !in records && id !in history
      modifies this
      ensures Valid() && r == CreateIn(cron, id, input, now)
      ensures r.Ok? ==>
                && records == old(records)[id := r.value] && order == old(order) + [id]
                && history == old(history)[id := []]
      ensures r.Err? ==> records == old(records) && order == old(order) && history == old(history)
    {
      hide RegistryKept, Strings.Trim;
      if Strings.Trim(input.prompt) == "" { return Err(EmptyPrompt); }
      if |input.agentId| == 0 { return Err(NoTarget); }
      if !ValidCadence(cron, input.cadence) { return Err(BadCadence); }
      if input.maxRuns.Some? && input.maxRuns.value < 1 { return Err(BadMaxRuns); }
      if input.expiresAt.Some? && input.expiresInMs.Some? { return Err(TwoExpiries); }
      var expiresAt := if input.expiresInMs.Some? then Some(now + input.expiresInMs.value) else input.expiresAt;
      if expiresAt.Some? && expiresAt.value <= now { return Err(ExpiryPassed); }
      var next := ComputeNext(cron, input.cadence, now);
      if next.None? { return Err(NoOccurrence); }
      var record := NewRecord(id, input, expiresAt, next.value, now);
      AddKeeps(records, order, history, record);
      records := records[id := record];
      order := order + [id];
      history := history[id := []];
      return Ok(record);
    }

    method Update(id: Id, actor: Agent, patch: Patch, now: int) returns (r: Result<Schedule, ScheduleError>)
      requires Valid()
      modifies this`records
      ensures Valid()
      ensures var owned := old(Owned(id, actor));
              r == if owned.Err? then Err(owned.error) else UpdateIn(cron, owned.value, patch, now)
      ensures records == if r.Ok? then old(records)[id := r.value] else old(records)
    {
      hide RegistryKept, RecordKept, Strings.Trim, Spent, UpdateIn, ComputeNext, ValidCadence;
      var owned := Owned(id, actor);
      if owned.Err? { return Err(owned.error); }
      var existing := owned.value;
      UpdateAnswers(cron, existing, patch, now);
      KeptRecord(records, order, history, id);
      UpdateKeeps(cron, existing, history[id], patch, now);
      if patch.prompt.Some? && Strings.Trim(patch.prompt.value) == "" { return Err(EmptyPrompt); }
      if patch.cadence.Some? && !ValidCadence(cron, patch.cadence.value) { return Err(BadCadence); }
      if patch.maxRuns.Some? && patch.maxRuns.value.Some? && patch.maxRuns.value.value < 1 { return Err(BadMaxRuns); }
      if patch.expiresAt.Some? && patch.expiresAt.value.Some? && patch.expiresAt.value.value <= now {
        return Err(ExpiryPassed);
      }
      var next := existing.nextRunAt;
      if existing.status == Active && patch.cadence.Some? {
        next := ComputeNext(cron, patch.cadence.value, now);
        if next.None? { return Err(NoOccurrence); }
      }
      var updated := existing.(
        name := if patch.name.Some? then patch.name.value else existing.name,
        prompt := if patch.prompt.Some? then Strings.Trim(patch.prompt.value) else existing.prompt,
        cadence := if patch.cadence.Some? then patch.cadence.value else existing.cadence,
        maxRuns := if patch.maxRuns.Some? then patch.maxRuns.value else existing.maxRuns,
        expiresAt := if patch.expiresAt.Some? then patch.expiresAt.value else existing.expiresAt,
        updatedAt := now, nextRunAt := next);
      if AutoPause(updated, now) {
        updated := updated.(status := Paused, pausedAt := Some(now), nextRunAt := None, updatedAt := now);
      }
      ReplaceKeeps(records, order, history, id, updated, history[id]);
      records := records[id := updated];
      return Ok(updated);
    }

    method Delete(id: Id, actor: Agent) returns (r: Result<Id, ScheduleError>)
      requires Valid()
      modifies this
      ensures Valid()
      ensures var owned := old(Owned(id, actor)); r == if owned.Err? then Err(owned.error) else Ok(id)
      ensures r.Ok? ==> records == old(records) - {id} && history == old(history) - {id}
      ensures r.Err? ==> records == old(records) && order == old(order) && history == old(history)
    {
      hide RegistryKept;
      var owned := Owned(id, actor);
      if owned.Err? { return Err(owned.error); }
      RemoveKeeps(records, order, history, id);
      records := records - {id};
      order := Drop(order, id);
      history := history - {id};
      return Ok(id);
    }

    method Pause(id: Id, actor: Agent, now: int) returns (r: Result<Schedule, ScheduleError>)
      requires Valid()
      modifies this`records
      ensures Valid()
      ensures var owned := old(Owned(id, actor));
              r == if owned.Err? then Err(owned.error) else PauseIn(owned.value, now)
      ensures records == if r.Ok? then old(records)[id := r.value] else old(records)
    {
      hide RegistryKept, Last;
      var owned := Owned(id, actor);
      if owned.Err? { return Err(owned.error); }
      if owned.value.status != Active { return Err(WrongStatus); }
      KeptRecord(records, order, history, id);
      var paused := PausedRecord(owned.value, now);
      ReplaceKeeps(records, order, history, id, paused, history[id]);
      records := records[id := paused];
      return Ok(paused);
    }

    method Resume(id: Id, actor: Agent, now: int) returns (r: Result<Schedule, ScheduleError>)
      requires Valid()
      modifies this`records
      ensures Valid()
      ensures var owned := old(Owned(id, actor));
              r == if owned.Err? then Err(owned.error) else ResumeIn(cron, owned.value, now)
      ensures records == if r.Ok? then old(records)[id := r.value] else old(records)
    {
      hide RegistryKept, Last;
      var owned := Owned(id, actor);
      if owned.Err? { return Err(owned.error); }
      if owned.value.status != Paused { return Err(WrongStatus); }
      var next := ComputeNext(cron, owned.value.cadence, now);
      if next.None? { return Err(NoOccurrence); }
      var resumed := owned.value.(status := Active, pausedAt := None, nextRunAt := next, updatedAt := now);
      KeptRecord(records, order, history, id);
      ReplaceKeeps(records, order, history, id, resumed, history[id]);
      records := records[id := resumed];
      return Ok(resumed);
    }

    method RunOnce(id: Id, actor: Agent, now: int, delivered: bool) returns (r: Result<Schedule, ScheduleError>)
      requires Valid()
      modifies this`records, this`history
      ensures Valid()
      ensures var owned := old(Owned(id, actor));
              r == if owned.Err? then Err(owned.error) else RunOnceIn(cron, owned.value, now, delivered)
      ensures r.Ok? ==>
                && records == old(records)[id := r.value]
                && history == old(history)[id := old(history[id]) + [NewRun(old(records)[id], now, delivered)]]
      ensures r.Err? ==> records == old(records) && history == old(history)
    {
      hide RegistryKept, Execute;
      var owned := Owned(id, actor);
      if owned.Err? { return Err(owned.error); }
      if owned.value.status != Active { return Err(WrongStatus); }
      if Spent(owned.value, now) { return Err(Exhausted); }
      KeptRecord(records, order, history, id);
      var ran := Execute(cron, owned.value, now, true, delivered);
      if ran.None? { return Err(NoOccurrence); }
      ExecuteKeeps(cron, owned.value, history[id], now, true, delivered);
      ReplaceKeeps(records, order, history, id, ran.value, history[id] + [NewRun(owned.value, now, delivered)]);
      records := records[id := ran.value];
      history := history[id := history[id] + [NewRun(owned.value, now, delivered)]];
      return Ok(ran.value);
    }

    /**
     * One scan over the schedules in creation order. A schedule whose next occurrence cannot be computed
     * aborts the scan: the ones before it are done, it and the ones after it are untouched.
     */
    method RunTick(now: int, delivered: Agent -> bool) returns (aborted: Option<nat>)
      requires Valid()
      modifies this`records, this`history
      ensures Valid()
      ensures var n := if aborted.Some? then aborted.value else |order|;
              && n <= |order| && TickedUpTo(cron, now, delivered, order, old(records), old(history), records,
                                            history, n)
      ensures aborted.Some? ==>
                && aborted.value < |order|
                && var failing := old(records)[order[aborted.value]];
                   Tick(cron, failing, now, delivered(failing.agentId)).None?
    {
      hide RegistryKept, Tick, TickedUpTo, TickRuns, AutoPause, DueAt, Execute;
      ghost var old_records, old_history := records, history;
      OrderKept(records, order, history);
      NothingTicked(cron, now, delivered, order, records, history);
      for i := 0 to |order|
        invariant Valid() && TickedUpTo(cron, now, delivered, order, old_records, old_history, records, history, i)
      {
        var id := order[i];
        StillThere(cron, now, delivered, order, old_records, old_history, records, history, i);
        var schedule := records[id];
        var reached := delivered(schedule.agentId);
        TickMeans(cron, schedule, now, reached);
        TickKeeps(cron, records, order, history, id, now, reached);
        TickedNext(cron, now, delivered, order, old_records, old_history, i, records, history);
        if AutoPause(schedule, now) {
          records := records[id := PausedRecord(schedule, now)];
        } else if DueAt(schedule, now) {
          var ran := Execute(cron, schedule, now, false, reached);
          if ran.None? { return Some(i); }
          records := records[id := ran.value];
          history := history[id := history[id] + [NewRun(schedule, now, reached)]];
        }
      }
      return None;
    }
  }

  // ---- what the registry keeps ----

  /**
   * Active exactly when a next run is set, exactly when no pause is noted; the stored runs are the last ones of
   * all runs.
   */
  ghost predicate RecordKept(s: Schedule, history: seq<Run>) {
    && s.status != Completed
    && (s.status == Active <==> s.nextRunAt.Some?)
    && (s.status == Active <==> s.pausedAt.None?)
    && s.runCount == |history| && s.runs == Last(history, MAX_HISTORY)
    && s.lastRunAt == (if history == [] then None else Some(history[|history| - 1].startedAt))
  }

  ghost predicate RegistryKept(records: map<Id, Schedule>, order: seq<Id>, history: map<Id, seq<Run>>) {
    && records.Keys == history.Keys
    && (forall i, j :: 0 <= i < j < |order| ==> order[i] != order[j])
    && (forall id :: id in order <==> id in records)
    && (forall id :: id in records ==> records[id].id == id && RecordKept(records[id], history[id]))
  }

  lemma KeptRecord(records: map<Id, Schedule>, order: seq<Id>, history: map<Id, seq<Run>>, id: Id)
    requires RegistryKept(records, order, history) && id in records
    ensures id in history && records[id].id == id && RecordKept(records[id], history[id])
  {
  }

  lemma ReplaceKeeps(records: map<Id, Schedule>, order: seq<Id>, history: map<Id, seq<Run>>, id: Id, s: Schedule,
          runs: seq<Run>)
    requires RegistryKept(records, order, history) && id in records && s.id == id && RecordKept(s, runs)
    ensures RegistryKept(records[id := s], order, history[id := runs])
    ensures id in history && (history[id] == runs ==> history[id := runs] == history)
  {
    hide RecordKept;
  }

  lemma AddKeeps(records: map<Id, Schedule>, order: seq<Id>, history: map<Id, seq<Run>>, s: Schedule)
    requires RegistryKept(records, order, history) && s.id !in records && RecordKept(s, [])
    ensures RegistryKept(records[s.id := s], order + [s.id], history[s.id := []])
  {
    hide RecordKept;
  }

  lemma RemoveKeeps(records: map<Id, Schedule>, order: seq<Id>, history: map<Id, seq<Run>>, id: Id)
    requires RegistryKept(records, order, history)
    ensures RegistryKept(records - {id}, Drop(order, id), history - {id})
  {
    hide RecordKept;
    DropKeeps(order, id, records.Keys);
  }

  /** An update's answers, check by check. */
  lemma UpdateAnswers(cron: CronSource, s: Schedule, patch: Patch, now: int)
    ensures var badPrompt := patch.prompt.Some? && Strings.Trim(patch.prompt.value) == "";
            var badCadence := patch.cadence.Some? && !ValidCadence(cron, patch.cadence.value);
            var badRuns := patch.maxRuns.Some? && patch.maxRuns.value.Some? && patch.maxRuns.value.value < 1;
            var badExpiry := patch.expiresAt.Some? && patch.expiresAt.value.Some? && patch.expiresAt.value.value <= now;
            var recomputed := s.status == Active && patch.cadence.Some?;
            var next := if recomputed then ComputeNext(cron, patch.cadence.value, now) else s.nextRunAt;
            UpdateIn(cron, s, patch, now)
            == if badPrompt then Err(EmptyPrompt) else if badCadence then Err(BadCadence)
               else if badRuns then Err(BadMaxRuns) else if badExpiry then Err(ExpiryPassed)
               else if recomputed && next.None? then Err(NoOccurrence)
               else Ok(ApplyAutoPause(Patched(s, patch, next, now), now))
  {
    hide Strings.Trim, ComputeNext, ValidCadence, Spent;
  }

  function Patched(s: Schedule, patch: Patch, next: Option<int>, now: int): Schedule {
    s.(name := Or(patch.name, s.name),
       prompt := if patch.prompt.Some? then Strings.Trim(patch.prompt.value) else s.prompt,
       cadence := Or(patch.cadence, s.cadence), maxRuns := Or(patch.maxRuns, s.maxRuns),
       expiresAt := Or(patch.expiresAt, s.expiresAt), updatedAt := now, nextRunAt := next)
  }

  lemma UpdateKeeps(cron: CronSource, s: Schedule, history: seq<Run>, patch: Patch, now: int)
    requires RecordKept(s, history)
    ensures var r := UpdateIn(cron, s, patch, now); r.Ok? ==> RecordKept(r.value, history) && r.value.id == s.id
  {
  }

  lemma ExecuteKeeps(cron: CronSource, s: Schedule, history: seq<Run>, now: int, manual: bool, delivered: bool)
    requires RecordKept(s, history) && s.status == Active
    ensures var r := Execute(cron, s, now, manual, delivered);
            r.Some? ==> RecordKept(r.value, history + [NewRun(s, now, delivered)]) && r.value.id == s.id
  {
    hide Last, ComputeNext, Spent;
    LastNext(history, NewRun(s, now, delivered), MAX_HISTORY);
  }

  // ---- the tick ----

  /**
   * The registry after the first `n` schedules of the scan; a schedule's history grows exactly when the tick
   * ran it.
   */
  ghost predicate TickedUpTo(cron: CronSource, now: int, delivered: Agent -> bool, order: seq<Id>,
          records: map<Id, Schedule>, history: map<Id, seq<Run>>, records': map<Id, Schedule>,
          history': map<Id, seq<Run>>, n: nat)
  {
    && records'.Keys == records.Keys == history.Keys == history'.Keys
    && forall i :: 0 <= i < |order| && order[i] in records ==>
         var s := records[order[i]];
         if i < n then
           && Tick(cron, s, now, delivered(s.agentId)) == Some(records'[order[i]])
           && history'[order[i]] == history[order[i]]
                + (if TickRuns(s, now) then [NewRun(s, now, delivered(s.agentId))] else [])
         else records'[order[i]] == s && history'[order[i]] == history[order[i]]
  }

  lemma OrderKept(records: map<Id, Schedule>, order: seq<Id>, history: map<Id, seq<Run>>)
    requires RegistryKept(records, order, history)
    ensures records.Keys == history.Keys
    ensures forall i :: 0 <= i < |order| ==> order[i] in records
    ensures forall i, j :: 0 <= i < j < |order| ==> order[i] != order[j]
  {
  }

  lemma NothingTicked(cron: CronSource, now: int, delivered: Agent -> bool, order: seq<Id>, records: map<Id, Schedule>,
          history: map<Id, seq<Run>>)
    requires records.Keys == history.Keys
    ensures TickedUpTo(cron, now, delivered, order, records, history, records, history, 0)
  {
  }

  lemma StillThere(cron: CronSource, now: int, delivered: Agent -> bool, order: seq<Id>, records: map<Id, Schedule>,
                   history: map<Id, seq<Run>>, records': map<Id, Schedule>, history': map<Id, seq<Run>>, i: nat)
    requires TickedUpTo(cron, now, delivered, order, records, history, records', history', i) && i < |order|
    requires order[i] in records
    ensures order[i] in records' && order[i] in history' && records'[order[i]] == records[order[i]]
    ensures history'[order[i]] == history[order[i]]
  {
  }

  lemma TickMeans(cron: CronSource, s: Schedule, now: int, delivered: bool)
    ensures AutoPause(s, now) ==> Tick(cron, s, now, delivered) == Some(PausedRecord(s, now)) && !TickRuns(s, now)
    ensures !AutoPause(s, now) && DueAt(s, now) ==>
              Tick(cron, s, now, delivered) == Execute(cron, s, now, false, delivered) && TickRuns(s, now)
    ensures !AutoPause(s, now) && !DueAt(s, now) ==> Tick(cron, s, now, delivered) == Some(s) && !TickRuns(s, now)
  {
  }

  lemma TickKeeps(cron: CronSource, records: map<Id, Schedule>, order: seq<Id>, history: map<Id, seq<Run>>, id: Id,
          now: int, delivered: bool)
    requires RegistryKept(records, order, history) && id in records
    ensures id in history
    ensures RegistryKept(records[id := PausedRecord(records[id], now)], order, history) || !AutoPause(records[id], now)
    ensures DueAt(records[id], now) ==>
              var ran := Execute(cron, records[id], now, false, delivered);
              ran.Some? ==> RegistryKept(records[id := ran.value], order,
                                         history[id := history[id] + [NewRun(records[id], now, delivered)]])
  {
    hide Execute, Last, Spent, RegistryKept;
    KeptRecord(records, order, history, id);
    if AutoPause(records[id], now) {
      ReplaceKeeps(records, order, history, id, PausedRecord(records[id], now), history[id]);
    }
    if DueAt(records[id], now) {
      var ran := Execute(cron, records[id], now, false, delivered);
      if ran.Some? {
        ExecuteKeeps(cron, records[id], history[id], now, false, delivered);
        ReplaceKeeps(records, order, history, id, ran.value, history[id] + [NewRun(records[id], now, delivered)]);
      }
    }
  }

  lemma TickedNext(cron: CronSource, now: int, delivered: Agent -> bool, order: seq<Id>, records: map<Id, Schedule>,
          history: map<Id, seq<Run>>, i: nat, mid: map<Id, Schedule>, midHistory: map<Id, seq<Run>>)
    requires TickedUpTo(cron, now, delivered, order, records, history, mid, midHistory, i) && i < |order|
    requires order[i] in records
    requires forall j, k :: 0 <= j < k < |order| ==> order[j] != order[k]
    ensures var id := order[i];
            var s := records[id];
            var t := Tick(cron, s, now, delivered(s.agentId));
            && id in mid && id in midHistory && mid[id] == s
            && (t.Some? ==>
                  && TickedUpTo(
                       cron, now, delivered, order, records, history, mid[id := t.value],
                       if TickRuns(s, now)
                       then midHistory[id := midHistory[id] + [NewRun(s, now, delivered(s.agentId))]]
                       else midHistory, i + 1)
                  && (t.value == s ==> mid[id := t.value] == mid))
  {
    hide Tick, TickRuns;
  }

  // ---- the life of one schedule ----

  /** What can happen to one schedule between its creation and its deletion. */
  datatype Event =
    | Tried(now: int, delivered: bool)
    | Manual(now: int, delivered: bool)
    | Updated(patch: Patch, now: int)
    | PausedAt(now: int)
    | ResumedAt(now: int)

  function ResultOf(cron: CronSource, s: Schedule, e: Event): Schedule {
    match e
    case Tried(now, delivered) => Or(Tick(cron, s, now, delivered), s)
    case Manual(now, delivered) => var r := RunOnceIn(cron, s, now, delivered); if r.Ok? then r.value else s
    case Updated(patch, now) => var r := UpdateIn(cron, s, patch, now); if r.Ok? then r.value else s
    case PausedAt(now) => var r := PauseIn(s, now); if r.Ok? then r.value else s
    case ResumedAt(now) => var r := ResumeIn(cron, s, now); if r.Ok? then r.value else s
  }

  /** The event starts a run of the schedule. */
  predicate Starts(cron: CronSource, s: Schedule, e: Event) {
    match e
    case Tried(now, delivered) => TickRuns(s, now) && Tick(cron, s, now, delivered).Some?
    case Manual(now, delivered) => RunOnceIn(cron, s, now, delivered).Ok?
    case _ => false
  }

  /** No run starts once the expiry or the run cap holds, nor while the schedule is paused; each start counts. */
  lemma NoRunWhenSpent(cron: CronSource, s: Schedule, e: Event)
    ensures Starts(cron, s, e) ==> s.status == Active && !Spent(s, e.now)
    ensures ResultOf(cron, s, e).runCount == s.runCount + if Starts(cron, s, e) then 1 else 0
  {
    hide Last;
  }

  /** A spent schedule that is active is paused by the next tick without running. */
  lemma SpentIsPaused(cron: CronSource, s: Schedule, now: int, delivered: bool)
    requires s.status == Active && Spent(s, now)
    ensures ResultOf(cron, s, Tried(now, delivered)) == PausedRecord(s, now) && !Starts(cron, s, Tried(now, delivered))
  {
  }

  /** A second tick at the same time does nothing, for cron cadences by what the engine computes. */
  lemma SecondTickDoesNothing(cron: CronSource, zones: Zones, s: Schedule, now: int, delivered: bool, again: bool)
    requires FollowsEngine(cron, zones) && now >= 0 && Tick(cron, s, now, delivered).Some?
    ensures var t := Tick(cron, s, now, delivered).value;
            Tick(cron, t, now, again) == Some(t) && !TickRuns(t, now)
  {
    hide Last, FollowsEngine;
    EngineIsLater(cron, zones);
    if TickRuns(s, now) {
      assert ComputeNext(cron, s.cadence, now).Some? ==> ComputeNext(cron, s.cadence, now).value > now;
    }
  }

  /**
   * For the whole registry: after a completed tick, a second tick at the same time changes nothing and runs
   * nothing.
   */
  lemma SecondScanDoesNothing(cron: CronSource, zones: Zones, now: int, delivered: Agent -> bool, again: Agent -> bool,
          order: seq<Id>, rs: map<Id, Schedule>, hs: map<Id, seq<Run>>, rs1: map<Id, Schedule>, hs1: map<Id, seq<Run>>,
          rs2: map<Id, Schedule>, hs2: map<Id, seq<Run>>)
    requires FollowsEngine(cron, zones) && now >= 0 && forall id :: id in rs ==> id in order
    requires TickedUpTo(cron, now, delivered, order, rs, hs, rs1, hs1, |order|)
    requires TickedUpTo(cron, now, again, order, rs1, hs1, rs2, hs2, |order|)
    ensures rs2 == rs1 && hs2 == hs1
  {
    hide Tick, TickRuns, FollowsEngine;
    forall id | id in rs ensures rs2[id] == rs1[id] && hs2[id] == hs1[id] {
      var i :| 0 <= i < |order| && order[i] == id;
      SecondTickDoesNothing(cron, zones, rs[id], now, delivered(rs[id].agentId), again(rs1[id].agentId));
    }
  }

  // ---- spacing ----

  /** Ticks and manual runs only: the schedule is otherwise untouched. */
  predicate Untouched(e: Event) {
    e.Tried? || e.Manual?
  }

  /**
   * After a tick run at `t` the next run of an `every n` schedule is set to `t + n`, unless it has been paused
   * since.
   */
  predicate Waiting(s: Schedule, n: int, t: int) {
    s.cadence == Every(n) && (s.nextRunAt == Some(t + n) || s.status != Active)
  }

  lemma WaitingStarts(cron: CronSource, s: Schedule, n: int, e: Event)
    requires s.cadence == Every(n) && e.Tried? && Starts(cron, s, e)
    ensures Waiting(ResultOf(cron, s, e), n, e.now)
  {
    hide Last;
  }

  lemma WaitingStays(cron: CronSource, s: Schedule, n: int, t: int, e: Event)
    requires Waiting(s, n, t) && Untouched(e) && !(e.Tried? && Starts(cron, s, e))
    ensures Waiting(ResultOf(cron, s, e), n, t)
  {
    hide Last;
  }

  function After(cron: CronSource, s: Schedule, events: seq<Event>): Schedule
    decreases |events|
  {
    if events == [] then s else After(cron, ResultOf(cron, s, events[0]), events[1..])
  }

  /** Between two tick runs of an otherwise untouched `every n` schedule at least `n` milliseconds pass. */
  lemma {:induction false} TickRunsSpaced(cron: CronSource, s: Schedule, n: int, t: int, events: seq<Event>,
          last: Event)
    requires Waiting(s, n, t) && forall i :: 0 <= i < |events| ==> Untouched(events[i])
    requires NoTickRun(cron, s, events)
    requires last.Tried? && Starts(cron, After(cron, s, events), last)
    ensures last.now - t >= n
    decreases |events|
  {
    hide ResultOf, Starts;
    if events == [] {
      assert Starts(cron, s, last);
      StartIsDue(cron, s, last);
    } else {
      WaitingStays(cron, s, n, t, events[0]);
      TickRunsSpaced(cron, ResultOf(cron, s, events[0]), n, t, events[1..], last);
    }
  }

  lemma StartIsDue(cron: CronSource, s: Schedule, e: Event)
    requires e.Tried? && Starts(cron, s, e)
    ensures s.status == Active && s.nextRunAt.Some? && s.nextRunAt.value <= e.now
  {
  }

  predicate NoTickRun(cron: CronSource, s: Schedule, events: seq<Event>)
    decreases |events|
  {
    events == [] || (!(events[0].Tried? && Starts(cron, s, events[0]))
                     && NoTickRun(cron, ResultOf(cron, s, events[0]), events[1..]))
  }

  /** Two consecutive tick runs, with only manual runs and idle ticks between them. */
  lemma ConsecutiveTickRuns(cron: CronSource, s: Schedule, n: int, first: Event, between: seq<Event>, last: Event)
    requires s.cadence == Every(n) && first.Tried? && Starts(cron, s, first)
    requires forall i :: 0 <= i < |between| ==> Untouched(between[i])
    requires NoTickRun(cron, ResultOf(cron, s, first), between)
    requires last.Tried? && Starts(cron, After(cron, ResultOf(cron, s, first), between), last)
    ensures last.now - first.now >= n
  {
    hide ResultOf, Starts;
    WaitingStarts(cron, s, n, first);
    TickRunsSpaced(cron, ResultOf(cron, s, first), n, first.now, between, last);
  }

  /**
   * Over the whole life of a schedule: the invariant holds and the stored runs are the last ones of all runs
   * started.
   */
  lemma {:induction false} LifeKeeps(cron: CronSource, s: Schedule, history: seq<Run>, events: seq<Event>)
    returns (all: seq<Run>)
    requires RecordKept(s, history)
    ensures RecordKept(After(cron, s, events), all) && |all| >= |history| && all[..|history|] == history
    decreases |events|
  {
    hide RecordKept, ResultOf;
    if events == [] {
      all := history;
    } else {
      var runs := EventKeeps(cron, s, history, events[0]);
      all := LifeKeeps(cron, ResultOf(cron, s, events[0]), runs, events[1..]);
      assert all[..|history|] == all[..|runs|][..|history|];
    }
  }

  lemma EventKeeps(cron: CronSource, s: Schedule, history: seq<Run>, e: Event) returns (runs: seq<Run>)
    requires RecordKept(s, history)
    ensures RecordKept(ResultOf(cron, s, e), runs) && |runs| >= |history| && runs[..|history|] == history
    ensures |runs| == |history| + if Starts(cron, s, e) then 1 else 0
  {
    hide Last, Execute, Spent, UpdateIn;
    runs := history;
    match e {
      case Tried(now, delivered) =>
        if Starts(cron, s, e) {
          ExecuteKeeps(cron, s, history, now, false, delivered);
          runs := history + [NewRun(s, now, delivered)];
        }
      case Manual(now, delivered) =>
        if Starts(cron, s, e) {
          ExecuteKeeps(cron, s, history, now, true, delivered);
          runs := history + [NewRun(s, now, delivered)];
        }
      case Updated(patch, now) => UpdateKeeps(cron, s, history, patch, now);
      case _ =>
    }
  }
}
