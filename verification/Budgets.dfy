/** Soft spending budgets: scoped accumulation, threshold crossings, and the level a wake is checked against. */
module Budgets {
  import opened Prelude
  import Strings

  datatype Unit = Tokens | Cost
  datatype Level = Normal | Warning | Critical
  datatype Scope = Global | OfAgent(agentId: string) | OfTaskKind(taskKind: string)

  datatype Budget = Budget(
    scope: Scope, cap: real, unit: Unit, softThreshold: real, criticalThreshold: real, spentTokens: real,
    spentCost: real,
    warningEmitted: bool, escalatedEmitted: bool, owner: Option<string>, createdAt: int, updatedAt: int)

  datatype SetInput = SetInput(
    scope: Scope, cap: real, unit: Option<Unit>, softThreshold: Option<real>, criticalThreshold: Option<real>,
    owner: Option<string>)

  datatype CostRecord = CostRecord(agentId: string, taskKind: Option<string>, tokens: real, cost: real, ts: int)

  datatype BudgetError = BadCap | BadThresholds | CriticalBelowSoft | NoAgent | Negative

  // ---- scope keys ----

  function ScopeKey(scope: Scope): string {
    match scope
    case Global => "global"
    case OfAgent(id) => "agent:" + id
    case OfTaskKind(kind) => "task-kind:" + kind
  }

  /** One store key per scope. */
  lemma ScopeKeysUnique(a: Scope, b: Scope)
    ensures ScopeKey(a) == ScopeKey(b) <==> a == b
  {
    if ScopeKey(a) == ScopeKey(b) {
      assert ScopeKey(a)[0] == match a { case Global => 'g' case OfAgent(_) => 'a' case OfTaskKind(_) => 't' };
      assert ScopeKey(b)[0] == match b { case Global => 'g' case OfAgent(_) => 'a' case OfTaskKind(_) => 't' };
      assert a.OfAgent? ==> ScopeKey(a)[6..] == a.agentId;
      assert b.OfAgent? ==> ScopeKey(b)[6..] == b.agentId;
      assert a.OfTaskKind? ==> ScopeKey(a)[10..] == a.taskKind;
      assert b.OfTaskKind? ==> ScopeKey(b)[10..] == b.taskKind;
    }
  }

  /** The scopes a cost record lands in. */
  function ScopesFor(agentId: string, taskKind: Option<string>): seq<Scope> {
    [Global, OfAgent(agentId)] + if taskKind.Some? then [OfTaskKind(taskKind.value)] else []
  }

  predicate Lands(r: CostRecord, scope: Scope) {
    match scope
    case Global => true
    case OfAgent(id) => id == r.agentId
    case OfTaskKind(kind) => r.taskKind == Some(kind)
  }

  lemma ScopesAreWhereItLands(r: CostRecord, scope: Scope)
    ensures scope in ScopesFor(r.agentId, r.taskKind) <==> Lands(r, scope)
  {
  }

  // ---- levels ----

  function Spent(b: Budget): real {
    if b.unit == Cost then b.spentCost else b.spentTokens
  }

  function Pct(b: Budget): real {
    if b.cap <= 0.0 then 0.0 else Spent(b) / b.cap
  }

  function LevelAt(b: Budget, pct: real): Level {
    if pct >= b.criticalThreshold then Critical
    else if pct >= b.softThreshold then Warning
    else Normal
  }

  function LevelOf(b: Budget): Level {
    LevelAt(b, Pct(b))
  }

  function Worst(a: Level, b: Level): Level {
    if a == Critical || b == Normal || (a == Warning && b == Warning) then a else b
  }

  /** What the checks at the door leave possible. */
  predicate WellFormed(b: Budget) {
    b.cap > 0.0 && 0.0 < b.softThreshold <= b.criticalThreshold
  }

  /** One record into one budget, with the crossing it publishes, if any. */
  function Accumulated(b: Budget, tokens: real, cost: real, now: int): (Budget, Option<Level>) {
    var prev := LevelOf(b);
    var next := b.(spentTokens := b.spentTokens + tokens, spentCost := b.spentCost + cost, updatedAt := now);
    var pct := Pct(next);
    var warns := !next.warningEmitted && prev == Normal && pct >= next.softThreshold;
    var escalates := !next.escalatedEmitted && prev != Critical && pct >= next.criticalThreshold;
    (next.(warningEmitted := next.warningEmitted || warns, escalatedEmitted := next.escalatedEmitted || escalates),
     if escalates then Some(Critical) else if warns then Some(Warning) else None)
  }

  function ResetBudget(b: Budget, now: int): Budget {
    b.(spentTokens := 0.0, spentCost := 0.0, warningEmitted := false, escalatedEmitted := false, updatedAt := now)
  }

  // ---- sums over the ledger ----

  function SumTokens(ledger: seq<CostRecord>, scope: Scope): real {
    if ledger == [] then 0.0
    else
      SumTokens(ledger[..|ledger| - 1], scope)
      + (if Lands(ledger[|ledger| - 1], scope) then ledger[|ledger| - 1].tokens else 0.0)
  }

  function SumCost(ledger: seq<CostRecord>, scope: Scope): real {
    if ledger == [] then 0.0
    else
      SumCost(ledger[..|ledger| - 1], scope)
      + (if Lands(ledger[|ledger| - 1], scope) then ledger[|ledger| - 1].cost else 0.0)
  }

  /**
   * What is remembered of one budget since its creation or last reset: the records from `from` on, and the
   * crossings published.
   */
  datatype Period = Period(from: nat, published: seq<Level>)

  predicate PeriodKept(b: Budget, ledger: seq<CostRecord>, p: Period) {
    WellFormed(b) && SpendKept(b, ledger, p) && PublishedKept(b, p)
  }

  /** The spend is the sum of the records of the period that land in the budget. */
  predicate SpendKept(b: Budget, ledger: seq<CostRecord>, p: Period) {
    && p.from <= |ledger|
    && b.spentTokens == SumTokens(ledger[p.from..], b.scope) && b.spentCost == SumCost(ledger[p.from..], b.scope)
    && b.spentTokens >= 0.0 && b.spentCost >= 0.0
  }

  /** At most one warning and one escalation, each noted by its flag. */
  predicate PublishedKept(b: Budget, p: Period) {
    && (forall i :: 0 <= i < |p.published| ==> p.published[i] != Normal)
    && (forall i, j :: 0 <= i < j < |p.published| ==> p.published[i] != p.published[j])
    && (Warning in p.published ==> b.warningEmitted)
    && (Critical in p.published ==> b.escalatedEmitted)
  }

  class FleetBudget {
    const defaultSoft: real
    const defaultCritical: real
    var budgets: map<string, Budget>
    var ledger: seq<CostRecord>
    ghost var periods: map<string, Period>

    /**
     * Every budget's spend is the sum of the ledger since its period began, and no crossing was published twice
     * in it.
     */
    ghost predicate Valid()
      reads this
    {
      && budgets.Keys == periods.Keys
      && forall key :: key in budgets ==>
           ScopeKey(budgets[key].scope) == key && PeriodKept(budgets[key], ledger, periods[key])
    }

    constructor (defaultSoft: real, defaultCritical: real)
      ensures Valid() && budgets == map[] && ledger == []
      ensures this.defaultSoft == defaultSoft && this.defaultCritical == defaultCritical
    {
      this.defaultSoft := defaultSoft;
      this.defaultCritical := defaultCritical;
      budgets := map[];
      ledger := [];
      periods := map[];
    }

    method SetBudget(input: SetInput, now: int) returns (r: Result<Budget, BudgetError>)
      requires Valid()
      modifies this`budgets, this`periods
      ensures Valid()
      ensures r.Err? ==> budgets == old(budgets) && periods == old(periods)
      ensures r.Ok? <==>
                var soft := if input.softThreshold.Some? then input.softThreshold.value else defaultSoft;
                var critical := if input.criticalThreshold.Some? then input.criticalThreshold.value
                  else defaultCritical;
                input.cap > 0.0 && 0.0 < soft <= critical
      ensures r.Ok? ==>
                var key := ScopeKey(input.scope);
                && r.value == Configured(old(budgets), input, defaultSoft, defaultCritical, now)
                && budgets == old(budgets)[key := r.value]
                && periods == if key in old(budgets) then old(periods) else old(periods)[key := Period(|ledger|, [])]
    {
      hide PeriodKept, ScopeKey;
      if !(input.cap > 0.0) { return Err(BadCap); }
      var soft := if input.softThreshold.Some? then input.softThreshold.value else defaultSoft;
      var critical := if input.criticalThreshold.Some? then input.criticalThreshold.value else defaultCritical;
      if !(soft > 0.0) || !(critical > 0.0) { return Err(BadThresholds); }
      if critical < soft { return Err(CriticalBelowSoft); }
      var key := ScopeKey(input.scope);
      var budget := Configured(budgets, input, defaultSoft, defaultCritical, now);
      if key in budgets {
        ScopeKeysUnique(budgets[key].scope, input.scope);
        ConfiguredKeeps(budgets, input, defaultSoft, defaultCritical, now, ledger, periods[key]);
      } else {
        periods := periods[key := Period(|ledger|, [])];
        EmptyPeriodKept(budget, ledger);
      }
      budgets := budgets[key := budget];
      return Ok(budget);
    }

    method RecordCost(agentId: string, taskKind: Option<string>, tokens: real, cost: real, now: int)
      returns (r: Result<CostRecord, BudgetError>)
      requires Valid()
      modifies this
      ensures Valid()
      ensures r.Err? <==> Strings.Trim(agentId) == "" || tokens < 0.0 || cost < 0.0
      ensures r.Err? ==> budgets == old(budgets) && ledger == old(ledger) && periods == old(periods)
      ensures r.Ok? ==>
                && r.value == CostRecord(agentId, taskKind, tokens, cost, now) && ledger == old(ledger) + [r.value]
                && budgets.Keys == old(budgets).Keys
                && forall key :: key in budgets ==>
                     var b := old(budgets)[key];
                     if Lands(r.value, b.scope) then
                       && budgets[key] == Accumulated(b, tokens, cost, now).0
                       && periods[key] == Published(old(periods)[key], Accumulated(b, tokens, cost, now).1)
                     else budgets[key] == b && periods[key] == old(periods)[key]
    {
      hide PeriodKept, Accumulated, Lands, Strings.Trim;
      if Strings.Trim(agentId) == "" { return Err(NoAgent); }
      if tokens < 0.0 || cost < 0.0 { return Err(Negative); }
      var record := CostRecord(agentId, taskKind, tokens, cost, now);
      ghost var bs, ps, before := budgets, periods, ledger;
      ledger := ledger + [record];
      var scopes := ScopesFor(agentId, taskKind);
      for i := 0 to |scopes|
        invariant ledger == before + [record]
        invariant budgets.Keys == bs.Keys && periods.Keys == ps.Keys
        invariant forall key :: key in bs ==>
                    if bs[key].scope in scopes[..i] then
                      && budgets[key] == Accumulated(bs[key], tokens, cost, now).0
                      && periods[key] == Published(ps[key], Accumulated(bs[key], tokens, cost, now).1)
                    else budgets[key] == bs[key] && periods[key] == ps[key]
      {
        var key := ScopeKey(scopes[i]);
        ScopesDistinct(agentId, taskKind, i);
        assert scopes[..i + 1] == scopes[..i] + [scopes[i]];
        if key in budgets {
          ScopeKeysUnique(bs[key].scope, scopes[i]);
          var (next, crossed) := Accumulated(budgets[key], tokens, cost, now);
          budgets := budgets[key := next];
          periods := periods[key := Published(periods[key], crossed)];
        }
      }
      assert scopes[..|scopes|] == scopes;
      forall key | key in bs ensures bs[key].scope in scopes <==> Lands(record, bs[key].scope) {
        ScopesAreWhereItLands(record, bs[key].scope);
      }
      forall key | key in budgets
        ensures ScopeKey(budgets[key].scope) == key && PeriodKept(budgets[key], ledger, periods[key])
      {
        AccumulatedScope(bs[key], tokens, cost, now);
        RecordKeeps(bs[key], before, ps[key], record);
      }
      return Ok(record);
    }

    method Reset(scopeKey: string, now: int) returns (r: Option<Budget>)
      requires Valid()
      modifies this`budgets, this`periods
      ensures Valid()
      ensures r.Some? <==> scopeKey in old(budgets)
      ensures r.Some? ==>
                && r.value == ResetBudget(old(budgets)[scopeKey], now) && budgets == old(budgets)[scopeKey := r.value]
                && periods == old(periods)[scopeKey := Period(|ledger|, [])]
      ensures r.None? ==> budgets == old(budgets) && periods == old(periods)
    {
      if scopeKey !in budgets { return None; }
      var cleared := ResetBudget(budgets[scopeKey], now);
      budgets := budgets[scopeKey := cleared];
      periods := periods[scopeKey := Period(|ledger|, [])];
      assert ledger[|ledger|..] == [];
      return Some(cleared);
    }

    /** The worst level of the agent's own budget and the global one. */
    method CheckWake(agentId: string) returns (worst: Level)
      ensures forall l :: WakeLevels(budgets, agentId, l) ==> Rank(l) <= Rank(worst)
      ensures worst == Normal || WakeLevels(budgets, agentId, worst)
    {
      worst := Normal;
      var keys := ["global", "agent:" + agentId];
      for i := 0 to |keys|
        invariant forall k, l :: 0 <= k < i && keys[k] in budgets && l == LevelOf(budgets[keys[k]]) ==>
                    Rank(l) <= Rank(worst)
        invariant worst == Normal || exists k :: 0 <= k < i && keys[k] in budgets && worst == LevelOf(budgets[keys[k]])
      {
        if keys[i] in budgets {
          worst := Worst(worst, LevelOf(budgets[keys[i]]));
        }
      }
      assert keys[0] == "global" && keys[1] == "agent:" + agentId;
    }
  }

  function Rank(l: Level): nat {
    match l
    case Normal => 0
    case Warning => 1
    case Critical => 2
  }

  /** The levels of the budgets a wake of the agent is checked against. */
  predicate WakeLevels(budgets: map<string, Budget>, agentId: string, l: Level) {
    || ("global" in budgets && l == LevelOf(budgets["global"]))
    || ("agent:" + agentId in budgets && l == LevelOf(budgets["agent:" + agentId]))
  }

  /** An existing budget keeps spend and flags; a new one starts at zero. */
  function Configured(budgets: map<string, Budget>, input: SetInput, defaultSoft: real, defaultCritical: real,
          now: int): Budget {
    var soft := if input.softThreshold.Some? then input.softThreshold.value else defaultSoft;
    var critical := if input.criticalThreshold.Some? then input.criticalThreshold.value else defaultCritical;
    var unit := if input.unit.Some? then input.unit.value else Tokens;
    var key := ScopeKey(input.scope);
    if key in budgets then
      budgets[key].(cap := input.cap, unit := unit, softThreshold := soft, criticalThreshold := critical,
                    owner := if input.owner.Some? then input.owner else budgets[key].owner, updatedAt := now)
    else Budget(input.scope, input.cap, unit, soft, critical, 0.0, 0.0, false, false, input.owner, now, now)
  }

  function Published(p: Period, crossed: Option<Level>): Period {
    if crossed.Some? then p.(published := p.published + [crossed.value]) else p
  }

  lemma ScopesDistinct(agentId: string, taskKind: Option<string>, i: nat)
    requires i < |ScopesFor(agentId, taskKind)|
    ensures ScopesFor(agentId, taskKind)[i] !in ScopesFor(agentId, taskKind)[..i]
  {
  }

  lemma AccumulatedScope(b: Budget, tokens: real, cost: real, now: int)
    ensures Accumulated(b, tokens, cost, now).0.scope == b.scope
  {
  }

  lemma ConfiguredKeeps(budgets: map<string, Budget>, input: SetInput, defaultSoft: real, defaultCritical: real,
          now: int, ledger: seq<CostRecord>, p: Period)
    requires ScopeKey(input.scope) in budgets && PeriodKept(budgets[ScopeKey(input.scope)], ledger, p)
    requires WellFormed(Configured(budgets, input, defaultSoft, defaultCritical, now))
    ensures PeriodKept(Configured(budgets, input, defaultSoft, defaultCritical, now), ledger, p)
  {
  }

  lemma EmptyPeriodKept(b: Budget, ledger: seq<CostRecord>)
    requires WellFormed(b) && b.spentTokens == b.spentCost == 0.0
    ensures PeriodKept(b, ledger, Period(|ledger|, []))
  {
    assert ledger[|ledger|..] == [];
  }

  /** One record keeps the period, whether it lands in the budget or not. */
  lemma RecordKeeps(b: Budget, ledger: seq<CostRecord>, p: Period, record: CostRecord)
    requires PeriodKept(b, ledger, p) && record.tokens >= 0.0 && record.cost >= 0.0
    ensures var (next, crossed) := Accumulated(b, record.tokens, record.cost, record.ts);
            if Lands(record, b.scope) then PeriodKept(next, ledger + [record], Published(p, crossed))
            else PeriodKept(b, ledger + [record], p)
  {
    hide Accumulated, Lands, SumTokens, SumCost, PublishedKept;
    SumNext(ledger[p.from..], record, b.scope);
    assert (ledger + [record])[p.from..] == ledger[p.from..] + [record];
    AccumulatedSpend(b, record.tokens, record.cost, record.ts);
    CrossingKeeps(b, p, record.tokens, record.cost, record.ts);
  }

  lemma AccumulatedSpend(b: Budget, tokens: real, cost: real, now: int)
    ensures var next := Accumulated(b, tokens, cost, now).0;
            && next.spentTokens == b.spentTokens + tokens && next.spentCost == b.spentCost + cost
               && next.scope == b.scope
            && (WellFormed(b) ==> WellFormed(next))
  {
    hide Pct;
  }

  lemma CrossingKeeps(b: Budget, p: Period, tokens: real, cost: real, now: int)
    requires PublishedKept(b, p)
    ensures var (next, crossed) := Accumulated(b, tokens, cost, now); PublishedKept(next, Published(p, crossed))
  {
    hide Pct;
  }

  lemma SumNext(ledger: seq<CostRecord>, record: CostRecord, scope: Scope)
    ensures SumTokens(ledger + [record], scope)
              == SumTokens(ledger, scope) + if Lands(record, scope) then record.tokens else 0.0
    ensures SumCost(ledger + [record], scope)
              == SumCost(ledger, scope) + if Lands(record, scope) then record.cost else 0.0
  {
    assert (ledger + [record])[..|ledger|] == ledger;
  }

  // ---- flags, levels and crossings while the configuration stays ----

  /** The flags say exactly which thresholds the spend has reached. */
  predicate FlagsMatch(b: Budget) {
    && (b.warningEmitted <==> LevelOf(b) != Normal)
    && (b.escalatedEmitted <==> LevelOf(b) == Critical)
  }

  lemma QuotientGrows(a: real, b: real, c: real)
    requires a <= b && c > 0.0
    ensures a / c <= b / c
  {
    assert b / c - a / c == (b - a) / c;
  }

  /** Spending never lowers a level. */
  lemma LevelGrows(b: Budget, tokens: real, cost: real, now: int)
    requires WellFormed(b) && tokens >= 0.0 && cost >= 0.0
    ensures var next := Accumulated(b, tokens, cost, now).0;
            && WellFormed(next) && Rank(LevelOf(b)) <= Rank(LevelOf(next))
            && LevelOf(next)
               == LevelAt(b, Pct(b.(spentTokens := b.spentTokens + tokens, spentCost := b.spentCost + cost,
                                    updatedAt := now)))
  {
    QuotientGrows(Spent(b), Spent(Accumulated(b, tokens, cost, now).0), b.cap);
  }

  /**
   * While flags and level agree, a record publishes exactly the rise of the level: the new level when it
   * rose, nothing when it stayed; and flags and level still agree.
   */
  lemma CrossingIsRise(b: Budget, tokens: real, cost: real, now: int)
    requires WellFormed(b) && FlagsMatch(b) && tokens >= 0.0 && cost >= 0.0
    ensures var (next, crossed) := Accumulated(b, tokens, cost, now);
            && FlagsMatch(next)
            && crossed == if LevelOf(next) != LevelOf(b) then Some(LevelOf(next)) else None
  {
    hide Pct;
    LevelGrows(b, tokens, cost, now);
  }

  datatype Event = Spend(tokens: real, cost: real, now: int) | Cleared(now: int)

  predicate Proper(e: Event) {
    e.Spend? ==> e.tokens >= 0.0 && e.cost >= 0.0
  }

  function Next(b: Budget, e: Event): (Budget, Option<Level>) {
    match e
    case Spend(tokens, cost, now) => Accumulated(b, tokens, cost, now)
    case Cleared(now) => (ResetBudget(b, now), None)
  }

  /** The budget after a run of records and resets, and the crossings published on the way. */
  function After(b: Budget, events: seq<Event>): (Budget, seq<Level>)
    decreases |events|
  {
    if events == [] then (b, [])
    else
      var (next, crossed) := Next(b, events[0]);
      var (last, later) := After(next, events[1..]);
      (last, (if crossed.Some? then [crossed.value] else []) + later)
  }

  /**
   * Between changes of its configuration a budget's flags are set exactly when its level is non-normal and
   * critical.
   */
  lemma {:induction false} FlagsStayMatched(b: Budget, events: seq<Event>)
    requires WellFormed(b) && FlagsMatch(b) && forall i :: 0 <= i < |events| ==> Proper(events[i])
    ensures WellFormed(After(b, events).0) && FlagsMatch(After(b, events).0)
    decreases |events|
  {
    hide LevelOf, Accumulated, FlagsMatch;
    if events != [] {
      assert Proper(events[0]);
      match events[0] {
        case Spend(tokens, cost, now) =>
          CrossingIsRise(b, tokens, cost, now);
          LevelGrows(b, tokens, cost, now);
        case Cleared(now) => ClearedMatches(b, now);
      }
      FlagsStayMatched(Next(b, events[0]).0, events[1..]);
    }
  }

  lemma ClearedMatches(b: Budget, now: int)
    requires WellFormed(b)
    ensures FlagsMatch(ResetBudget(b, now)) && WellFormed(ResetBudget(b, now))
  {
  }

  // ---- what a change of the configuration silences ----

  /** A new cap, unit or threshold keeps flags and level in agreement exactly when it keeps the level. */
  lemma ReconfiguringKeepsFlags(budgets: map<string, Budget>, input: SetInput, defaultSoft: real, defaultCritical: real,
          now: int)
    requires ScopeKey(input.scope) in budgets && FlagsMatch(budgets[ScopeKey(input.scope)])
    ensures var b, c := budgets[ScopeKey(input.scope)], Configured(budgets, input, defaultSoft, defaultCritical, now);
            FlagsMatch(c) <==> LevelOf(c) == LevelOf(b)
  {
    hide LevelOf;
  }

  /** A record publishes exactly the rise of the level. */
  predicate PublishesRise(b: Budget, tokens: real, cost: real, now: int) {
    var (next, crossed) := Accumulated(b, tokens, cost, now);
    crossed == if LevelOf(next) != LevelOf(b) then Some(LevelOf(next)) else None
  }

  /** No flag stands in the way of a rise that is still to come. */
  predicate Alert(b: Budget) {
    && (LevelOf(b) != Critical ==> !b.escalatedEmitted)
    && (LevelOf(b) == Normal && b.softThreshold < b.criticalThreshold ==> !b.warningEmitted)
  }

  /** What is left to spend until the fraction `pct` of the cap, as tokens and cost. */
  function UpTo(b: Budget, pct: real): (real, real) {
    var rest := pct * b.cap - Spent(b);
    if b.unit == Cost then (0.0, rest) else (rest, 0.0)
  }

  lemma UpToReaches(b: Budget, pct: real, now: int)
    requires WellFormed(b) && Pct(b) <= pct
    ensures var (tokens, cost) := UpTo(b, pct);
            && tokens >= 0.0 && cost >= 0.0
            && Pct(b.(spentTokens := b.spentTokens + tokens, spentCost := b.spentCost + cost, updatedAt := now)) == pct
  {
    assert Spent(b) / b.cap * b.cap == Spent(b);
    ProductGrows(Pct(b), pct, b.cap);
    assert pct * b.cap / b.cap == pct;
  }

  lemma ProductGrows(a: real, b: real, c: real)
    requires a <= b && c > 0.0
    ensures a * c <= b * c
  {
    assert (b - a) * c >= 0.0;
  }

  lemma LevelReached(b: Budget, pct: real, now: int)
    requires WellFormed(b) && Pct(b) <= pct
    ensures var (tokens, cost) := UpTo(b, pct);
            tokens >= 0.0 && cost >= 0.0 && LevelOf(Accumulated(b, tokens, cost, now).0) == LevelAt(b, pct)
  {
    hide Pct;
    UpToReaches(b, pct, now);
    var (tokens, cost) := UpTo(b, pct);
    LevelGrows(b, tokens, cost, now);
  }

  lemma CrossingAt(b: Budget, pct: real, now: int)
    requires WellFormed(b) && Pct(b) <= pct
    ensures var (tokens, cost) := UpTo(b, pct);
            Accumulated(b, tokens, cost, now).1 ==
              if !b.escalatedEmitted && LevelOf(b) != Critical && pct >= b.criticalThreshold then Some(Critical)
              else if !b.warningEmitted && LevelOf(b) == Normal && pct >= b.softThreshold then Some(Warning) else None
  {
    hide Pct;
    UpToReaches(b, pct, now);
  }

  /** Each record of a run publishes exactly the rise of the level that it causes. */
  predicate RisesPublished(b: Budget, events: seq<Event>)
    requires Spending(events)
    decreases |events|
  {
    events == [] ||
    (Spending(events[1..])
     && PublishesRise(b, events[0].tokens, events[0].cost, events[0].now)
        && RisesPublished(Next(b, events[0]).0, events[1..]))
  }

  /**
   * Every record of every run publishes exactly the rise of the level if and only if no flag stands in the way
   * of a rise.
   */
  lemma RisesPublishedExactly(b: Budget)
    requires WellFormed(b)
    ensures (forall events :: Spending(events) ==> RisesPublished(b, events)) <==> Alert(b)
  {
    hide Accumulated, LevelOf, LevelAt;
    if Alert(b) {
      forall events | Spending(events) ensures RisesPublished(b, events) {
        AlertRun(b, events);
      }
    } else {
      var pct := if LevelOf(b) != Critical && b.escalatedEmitted then b.criticalThreshold else b.softThreshold;
      var (tokens, cost) := UpTo(b, pct);
      SilencedAt(b, 0);
      var events := [Spend(tokens, cost, 0)];
      assert Spending(events) && !RisesPublished(b, events);
    }
  }

  lemma {:induction false} AlertRun(b: Budget, events: seq<Event>)
    requires WellFormed(b) && Alert(b) && Spending(events)
    ensures RisesPublished(b, events)
    decreases |events|
  {
    hide Accumulated, Alert, PublishesRise;
    if events != [] {
      assert Proper(events[0]) && events[0].Spend?;
      AlertPublishes(b, events[0].tokens, events[0].cost, events[0].now);
      AlertRun(Next(b, events[0]).0, events[1..]);
    }
  }

  lemma AlertPublishes(b: Budget, tokens: real, cost: real, now: int)
    requires WellFormed(b) && Alert(b) && tokens >= 0.0 && cost >= 0.0
    ensures var next := Accumulated(b, tokens, cost, now).0;
            PublishesRise(b, tokens, cost, now) && Alert(next) && WellFormed(next)
  {
    hide Pct;
    LevelGrows(b, tokens, cost, now);
  }

  /** The record that meets a flag in the way: it raises the level and publishes something else, or nothing. */
  lemma SilencedAt(b: Budget, now: int)
    requires WellFormed(b) && !Alert(b)
    ensures var pct := if LevelOf(b) != Critical && b.escalatedEmitted then b.criticalThreshold else b.softThreshold;
            var (tokens, cost) := UpTo(b, pct);
            tokens >= 0.0 && cost >= 0.0 && !PublishesRise(b, tokens, cost, now)
  {
    hide Accumulated, Pct;
    var pct := if LevelOf(b) != Critical && b.escalatedEmitted then b.criticalThreshold else b.softThreshold;
    LevelReached(b, pct, now);
    CrossingAt(b, pct, now);
  }

  /** Some record of the run publishes a warning. */
  predicate CanWarn(b: Budget) {
    LevelOf(b) == Normal && !b.warningEmitted && (b.softThreshold < b.criticalThreshold || b.escalatedEmitted)
  }

  predicate Spending(events: seq<Event>) {
    forall i :: 0 <= i < |events| ==> Proper(events[i]) && events[i].Spend?
  }

  /**
   * No run of records publishes a warning if and only if the level is no longer normal, or a flag or equal
   * thresholds rule it out.
   */
  lemma NeverWarnsExactly(b: Budget)
    requires WellFormed(b)
    ensures (forall events :: Spending(events) ==> Warning !in After(b, events).1) <==> !CanWarn(b)
  {
    hide Accumulated, LevelOf;
    if CanWarn(b) {
      var (tokens, cost) := UpTo(b, b.softThreshold);
      WarnsAt(b, 0);
      var events := [Spend(tokens, cost, 0)];
      assert events[1..] == [];
      assert Spending(events) && After(b, events).1 == [Warning];
    } else {
      forall events | Spending(events) ensures Warning !in After(b, events).1 {
        NeverWarns(b, events);
      }
    }
  }

  lemma WarnsAt(b: Budget, now: int)
    requires WellFormed(b) && CanWarn(b)
    ensures var (tokens, cost) := UpTo(b, b.softThreshold);
            tokens >= 0.0 && cost >= 0.0 && Accumulated(b, tokens, cost, now).1 == Some(Warning)
  {
    hide Accumulated, Pct;
    LevelReached(b, b.softThreshold, now);
    CrossingAt(b, b.softThreshold, now);
  }

  lemma {:induction false} NeverWarns(b: Budget, events: seq<Event>)
    requires WellFormed(b) && !CanWarn(b) && Spending(events)
    ensures Warning !in After(b, events).1
    decreases |events|
  {
    hide LevelOf, Accumulated;
    if events != [] {
      assert Proper(events[0]) && events[0].Spend?;
      SilentStep(b, events[0].tokens, events[0].cost, events[0].now);
      NeverWarns(Next(b, events[0]).0, events[1..]);
    }
  }

  lemma SilentStep(b: Budget, tokens: real, cost: real, now: int)
    requires WellFormed(b) && !CanWarn(b) && tokens >= 0.0 && cost >= 0.0
    ensures var (next, crossed) := Accumulated(b, tokens, cost, now);
            WellFormed(next) && !CanWarn(next) && crossed != Some(Warning)
  {
    hide Pct;
    LevelGrows(b, tokens, cost, now);
  }

  /** In particular a budget that reaches its warning level by reconfiguration never warns, however much is spent. */
  lemma LoweredCapNeverWarns(b: Budget, events: seq<Event>)
    requires WellFormed(b) && LevelOf(b) != Normal && Spending(events)
    ensures Warning !in After(b, events).1
  {
    NeverWarns(b, events);
  }

  function TokenBudget(cap: real, spent: real, warned: bool): Budget {
    Budget(Global, cap, Tokens, 0.5, 1.0, spent, 0.0, warned, false, None, 0, 0)
  }

  function NewCap(cap: real): SetInput {
    SetInput(Global, cap, Some(Tokens), Some(0.5), Some(1.0), None)
  }

  /**
   * Lowering the cap from 100 to 60 at a spend of 40: the level becomes warning, no flag says so, and no
   * warning ever comes.
   */
  lemma LoweredCapInput(events: seq<Event>)
    requires Spending(events)
    ensures var b := TokenBudget(100.0, 40.0, false);
            var c := Configured(map["global" := b], NewCap(60.0), 0.8, 1.0, 1);
            FlagsMatch(b) && c.spentTokens == 40.0 && LevelOf(c) == Warning && !FlagsMatch(c)
              && Warning !in After(c, events).1
  {
    var b := TokenBudget(100.0, 40.0, false);
    var c := Configured(map["global" := b], NewCap(60.0), 0.8, 1.0, 1);
    assert c == TokenBudget(60.0, 40.0, false).(updatedAt := 1);
    LoweredCapNeverWarns(c, events);
  }

  /**
   * Raising the cap from 100 to 200 after the warning at 60: the level falls back, and reaching the new
   * threshold publishes nothing.
   */
  lemma RaisedCapInput()
    ensures var b := TokenBudget(100.0, 60.0, true);
            var c := Configured(map["global" := b], NewCap(200.0), 0.8, 1.0, 1);
            var (next, crossed) := Accumulated(c, 60.0, 0.0, 2);
            FlagsMatch(b) && LevelOf(c) == Normal && !Alert(c) && LevelOf(next) == Warning && crossed == None
  {
    var b := TokenBudget(100.0, 60.0, true);
    var c := Configured(map["global" := b], NewCap(200.0), 0.8, 1.0, 1);
    assert c == TokenBudget(200.0, 60.0, true).(updatedAt := 1);
  }

  /** Setting a budget: cap, unit and thresholds as given or by default; spend and notices of an existing one stay. */
  lemma ConfiguredIs(budgets: map<string, Budget>, input: SetInput, defaultSoft: real, defaultCritical: real, now: int)
    ensures var key, c := ScopeKey(input.scope), Configured(budgets, input, defaultSoft, defaultCritical, now);
            && c.cap == input.cap && c.updatedAt == now
            && c.unit == (if input.unit.Some? then input.unit.value else Tokens)
            && c.softThreshold == (if input.softThreshold.Some? then input.softThreshold.value else defaultSoft)
            && c.criticalThreshold == (if input.criticalThreshold.Some? then input.criticalThreshold.value
                                       else defaultCritical)
            && if key in budgets then
                 var b := budgets[key];
                 && (c.scope, c.spentTokens, c.spentCost) == (b.scope, b.spentTokens, b.spentCost)
                 && (c.warningEmitted, c.escalatedEmitted, c.createdAt)
                      == (b.warningEmitted, b.escalatedEmitted, b.createdAt)
                 && c.owner == (if input.owner.Some? then input.owner else b.owner)
               else
                 && c.scope == input.scope && c.spentTokens == 0.0 == c.spentCost
                 && !c.warningEmitted && !c.escalatedEmitted && c.createdAt == now && c.owner == input.owner
  {
    hide ScopeKey;
  }
}
