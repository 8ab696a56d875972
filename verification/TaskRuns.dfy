/** Safety of the task queue over whole runs: locks, tokens, claims, ancestry. */
module TaskRuns {
  import opened Prelude
  import opened TaskTree
  import opened TasksService
  import GoalQuery
  import Strings

  datatype Op =
    | Create(input: CreateInput, id: Id, at: int)
    | Claim(task: Id, agent: Agent, token: Token, at: int)
    | Update(task: Id, token: Token, patch: Patch, at: int)
    | Complete(task: Id, token: Token, evidence: Evidence, actor: Agent, at: int)
    | Cancel(task: Id, token: Token, at: int)
    | Escalate(task: Id, severity: Severity, owner: Agent, nextAction: string, at: int)
    | Accept(task: Id, contract: Option<Contract>, given: Option<Evidence>, at: int)

  /** The service's configuration: the auto-close switch and the evidence judge. */
  datatype Config = Config(autoClose: bool, judge: Judge)

  /** What one verb makes of the table; a verb that throws changes nothing. */
  ghost function Outcome(config: Config, ts: Tasks, op: Op): Result<Tasks, TaskError> {
    match op
    case Create(input, id, at) => CreateIn(ts, input, id, at)
    case Claim(id, agent, token, at) => ClaimIn(ts, id, agent, token, at)
    case Update(id, token, patch, at) => UpdateIn(ts, id, token, patch, at)
    case Complete(id, token, evidence, actor, at) => CompleteIn(ts, config.autoClose, id, token, evidence, actor, at)
    case Cancel(id, token, at) => CancelIn(ts, config.autoClose, id, token, at)
    case Escalate(id, severity, owner, nextAction, at) => EscalateIn(ts, id, severity, owner, nextAction, at)
    case Accept(id, contract, given, at) => AcceptIn(ts, config.judge, id, contract, given, at)
  }

  /** The table, with the history a caller could keep: the tokens ever issued and each task's last winning token. */
  datatype Queue = Queue(tasks: Tasks, issued: set<Token>, latest: map<Id, Token>)

  /** Fresh ids and fresh tokens: what the random generators are trusted for. */
  predicate Fresh(q: Queue, op: Op) {
    match op
    case Create(_, id, _) => id !in q.tasks
    case Claim(_, _, token, _) => token !in q.issued
    case _ => true
  }

  ghost function Step(config: Config, q: Queue, op: Op): Queue {
    match Outcome(config, q.tasks, op)
    case Err(_) => if op.Claim? then q.(issued := q.issued + {op.token}) else q
    case Ok(ts) =>
      if op.Claim? then Queue(ts, q.issued + {op.token}, q.latest[op.task := op.token])
      else q.(tasks := ts)
  }

  ghost function Run(config: Config, q: Queue, ops: seq<Op>): Queue
    decreases |ops|
  {
    if ops == [] then q else Run(config, Step(config, q, ops[0]), ops[1..])
  }

  ghost predicate AllFresh(config: Config, q: Queue, ops: seq<Op>)
    decreases |ops|
  {
    ops == [] || (Fresh(q, ops[0]) && AllFresh(config, Step(config, q, ops[0]), ops[1..]))
  }

  /** A lock always carries the last token that won the task. */
  ghost predicate LocksKept(q: Queue) {
    forall id :: id in q.tasks && q.tasks[id].locks != [] ==>
      id in q.latest && q.latest[id] in q.issued && q.tasks[id].locks[0].token == q.latest[id]
  }

  ghost predicate QueueKept(q: Queue) {
    TableKept(q.tasks) && LocksKept(q)
  }

  const EMPTY: Queue := Queue(map[], {}, map[])

  // ---- every verb keeps the table ----

  /** Closing a subtree keeps every task and the forest. */
  lemma ClosingKeeps(ts: Tasks, root: Id, closeState: State, now: int)
    requires TableKept(ts) && Terminal(closeState)
    ensures TableKept(CloseBelow(ts, root, closeState, now))
  {
    hide OpenBelow, AncestryKept, TaskKept, ClosedTask;
    var us := CloseBelow(ts, root, closeState, now);
    forall id | id in ts
      ensures TaskKept(id, us[id]) && us[id].parentId == ts[id].parentId && us[id].goalAncestry == ts[id].goalAncestry
    {
      ClosedTaskKept(id, ts[id], closeState, now);
    }
    assert SameShape(ts, us);
    ShapeKeepsAncestry(ts, us);
  }

  lemma ClosedTaskKept(id: Id, t: Task, closeState: State, now: int)
    requires TaskKept(id, t) && Terminal(closeState)
    ensures var c := ClosedTask(t, closeState, now);
            TaskKept(id, c) && c.parentId == t.parentId && c.goalAncestry == t.goalAncestry
  {
  }

  lemma OneTaskKeeps(ts: Tasks, id: Id, t: Task)
    requires TableKept(ts) && id in ts && TaskKept(id, t)
    requires t.parentId == ts[id].parentId && t.goalAncestry == ts[id].goalAncestry
    ensures TableKept(ts[id := t])
  {
    hide AncestryKept;
    assert SameShape(ts, ts[id := t]);
    ShapeKeepsAncestry(ts, ts[id := t]);
  }

  lemma CreateKeeps(ts: Tasks, input: CreateInput, id: Id, now: int)
    requires TableKept(ts) && id !in ts && CreateIn(ts, input, id, now).Ok?
    ensures TableKept(CreateIn(ts, input, id, now).value)
  {
    hide TaskKept, Strings.Trim, NewTask, AncestryKept;
    NewTaskKept(ts, input, id, now);
    AddedKeepsAncestry(ts, id, NewTask(ts, input, id, now));
  }

  lemma AddedKeepsAncestry(ts: Tasks, id: Id, t: Task)
    requires AncestryKept(ts) && id !in ts
    requires match t.parentId
             case None => t.goalAncestry == []
             case Some(p) => p in ts && t.goalAncestry == [p] + ts[p].goalAncestry
    ensures AncestryKept(ts[id := t])
  {
    var us := ts[id := t];
    forall x | x in us ensures AncestryOf(us, x) {
      assert x != id ==> AncestryOf(ts, x);
    }
  }

  lemma NewTaskKept(ts: Tasks, input: CreateInput, id: Id, now: int)
    requires CreateIn(ts, input, id, now).Ok?
    ensures var t := NewTask(ts, input, id, now);
            && TaskKept(id, t)
            && match t.parentId
               case None => t.goalAncestry == []
               case Some(p) => p in ts && t.goalAncestry == [p] + ts[p].goalAncestry
  {
  }

  lemma OutcomeKeeps(config: Config, ts: Tasks, op: Op)
    requires TableKept(ts) && Outcome(config, ts, op).Ok?
    requires op.Create? ==> op.id !in ts
    ensures TableKept(Outcome(config, ts, op).value)
  {
    hide CloseBelow, OpenBelow, AncestryKept, TableKept;
    match op
    case Create(input, id, at) => CreateKeeps(ts, input, id, at);
    case Claim(id, agent, token, at) => KeptTask(ts, id); OneTaskKeeps(ts, id, ClaimedTask(ts[id], agent, token, at));
    case Update(id, token, patch, at) => KeptTask(ts, id); OneTaskKeeps(ts, id, PatchedTask(ts[id], patch, at));
    case Complete(id, token, evidence, actor, at) =>
      KeptTask(ts, id);
      OneTaskKeeps(ts, id, AsStored(CompletedTask(ts[id], evidence, actor, at)));
      ClosingKeeps(ts[id := AsStored(CompletedTask(ts[id], evidence, actor, at))], id, Completed, at);
    case Cancel(id, token, at) =>
      KeptTask(ts, id);
      OneTaskKeeps(ts, id, CancelledTask(ts[id], at));
      ClosingKeeps(ts[id := CancelledTask(ts[id], at)], id, Cancelled, at);
    case Escalate(id, severity, owner, nextAction, at) =>
      KeptTask(ts, id);
      OneTaskKeeps(ts, id, ts[id].(severity := severity,
                                   escalation := Some(Escalation(severity, owner, nextAction, at)), updatedAt := at));
    case Accept(id, contract, given, at) =>
      KeptTask(ts, id);
      OneTaskKeeps(ts, id, AcceptedTask(ts[id], at));
      OneTaskKeeps(ts, id, ReopenedTask(ts[id],
                                        Or(OrElse(contract, ts[id].artifactContract), Contract("", "", "")).metric,
                                        at));
  }

  lemma KeptTask(ts: Tasks, id: Id)
    requires TableKept(ts) && id in ts
    ensures TaskKept(id, ts[id])
  {
  }

  /** How one verb may change the lock of a task: only a winning claim installs a new one. */
  lemma LockChange(config: Config, ts: Tasks, op: Op, id: Id)
    requires TableKept(ts) && Outcome(config, ts, op).Ok? && id in Outcome(config, ts, op).value
    requires op.Create? ==> op.id !in ts
    ensures var us := Outcome(config, ts, op).value;
            || us[id].locks == []
            || (id in ts && us[id].locks == ts[id].locks)
            || (op.Claim? && op.task == id && us[id].locks == [Lock(op.agent, op.token, op.at)])
  {
    hide CloseBelow, TableKept, Passes, Strings.Trim, Present;
    match op {
      case Complete(_, _, _, _, _) => ClosingInOutcome(config, ts, op, id);
      case Cancel(_, _, _) => ClosingInOutcome(config, ts, op, id);
      case _ =>
    }
  }

  lemma ClosingInOutcome(config: Config, ts: Tasks, op: Op, id: Id)
    ensures match op
            case Complete(root, _, evidence, actor, at) =>
              root in ts && id in ts ==>
                var put := ts[root := AsStored(CompletedTask(ts[root], evidence, actor, at))];
                var t := CloseBelow(put, root, Completed, at)[id];
                t == put[id] || (t.state == Completed && t.locks == [])
            case Cancel(root, _, at) =>
              root in ts && id in ts ==>
                var put := ts[root := CancelledTask(ts[root], at)];
                var t := CloseBelow(put, root, Cancelled, at)[id];
                t == put[id] || (t.state == Cancelled && t.locks == [])
            case _ => true
  {
    hide OpenBelow;
  }

  lemma StepKeeps(config: Config, q: Queue, op: Op)
    requires QueueKept(q) && Fresh(q, op)
    ensures QueueKept(Step(config, q, op))
  {
    hide TableKept, Outcome;
    if Outcome(config, q.tasks, op).Ok? {
      OutcomeKeeps(config, q.tasks, op);
      var next := Step(config, q, op);
      forall id | id in next.tasks && next.tasks[id].locks != []
        ensures id in next.latest && next.latest[id] in next.issued && next.tasks[id].locks[0].token == next.latest[id]
      {
        LockChange(config, q.tasks, op, id);
        ClaimedLock(config, q.tasks, op);
      }
    }
  }

  lemma ClaimedLock(config: Config, ts: Tasks, op: Op)
    requires Outcome(config, ts, op).Ok?
    ensures op.Claim? ==>
              Outcome(config, ts, op).value == ts[op.task := ClaimedTask(ts[op.task], op.agent, op.token, op.at)]
  {
  }

  /**
   * Over any run: claimable tasks have no assignee and no lock, a Started task has exactly one lock held by
   * its assignee, the ancestry is the parent chain, and a lock always carries the last winning token.
   */
  lemma {:induction false} RunKeeps(config: Config, q: Queue, ops: seq<Op>)
    requires QueueKept(q) && AllFresh(config, q, ops)
    ensures QueueKept(Run(config, q, ops))
    decreases |ops|
  {
    hide QueueKept, Step;
    if ops != [] {
      StepKeeps(config, q, ops[0]);
      RunKeeps(config, Step(config, q, ops[0]), ops[1..]);
    }
  }

  // ---- stored evidence ----

  /** The verb stores no number that is not finite. */
  predicate FiniteResult(op: Op) {
    op.Complete? ==> Finite(op.evidence.result)
  }

  lemma ClosingKeepsEvidence(ts: Tasks, root: Id, closeState: State, now: int)
    ensures EvidenceKept(CloseBelow(ts, root, closeState, now)) <==> EvidenceKept(ts)
  {
    hide OpenBelow, EvidenceFull;
    var us := CloseBelow(ts, root, closeState, now);
    forall id | id in ts ensures EvidenceFull(us[id]) <==> EvidenceFull(ts[id]) {
      ClosedKeepsEvidence(ts[id], closeState, now);
    }
  }

  lemma ClosedKeepsEvidence(t: Task, closeState: State, now: int)
    ensures EvidenceFull(ClosedTask(t, closeState, now)) <==> EvidenceFull(t)
  {
  }

  /** A verb keeps all stored evidence non-empty exactly when it stores no number that is not finite. */
  lemma EvidenceStep(config: Config, ts: Tasks, op: Op)
    requires EvidenceKept(ts) && Outcome(config, ts, op).Ok?
    ensures EvidenceKept(Outcome(config, ts, op).value) <==> FiniteResult(op)
  {
    hide CloseBelow, Passes, Strings.Trim;
    match op {
      case Complete(id, token, evidence, actor, at) =>
        ClosingKeepsEvidence(ts[id := AsStored(CompletedTask(ts[id], evidence, actor, at))], id, Completed, at);
        assert ts[id := AsStored(CompletedTask(ts[id], evidence, actor, at))][id].evidence.value.result
          == Stored(evidence.result);
      case Cancel(id, token, at) => ClosingKeepsEvidence(ts[id := CancelledTask(ts[id], at)], id, Cancelled, at);
      case _ =>
    }
  }

  /** Stored evidence is never empty over any run that stores finite numbers only. */
  lemma {:induction false} EvidenceStays(config: Config, q: Queue, ops: seq<Op>)
    requires EvidenceKept(q.tasks) && forall i :: 0 <= i < |ops| ==> FiniteResult(ops[i])
    ensures EvidenceKept(Run(config, q, ops).tasks)
    decreases |ops|
  {
    hide EvidenceKept, Outcome, FiniteResult;
    if ops != [] {
      if Outcome(config, q.tasks, ops[0]).Ok? {
        EvidenceStep(config, q.tasks, ops[0]);
      }
      EvidenceStays(config, Step(config, q, ops[0]), ops[1..]);
    }
  }

  lemma ReachableKept(config: Config, ops: seq<Op>)
    requires AllFresh(config, EMPTY, ops)
    ensures QueueKept(Run(config, EMPTY, ops))
  {
    RunKeeps(config, EMPTY, ops);
  }

  /** Only the last winning token of a task authorizes anything on it. */
  lemma OnlyLatestTokenAuthorizes(config: Config, ops: seq<Op>, id: Id, token: Token)
    requires AllFresh(config, EMPTY, ops)
    ensures var q := Run(config, EMPTY, ops);
            Authorize(q.tasks, id, token).Ok? ==> id in q.latest && token == q.latest[id]
  {
    ReachableKept(config, ops);
  }

  // ---- dead tokens ----

  /** A token that was issued and that no lock carries any more. */
  ghost predicate Dead(q: Queue, token: Token) {
    token in q.issued && forall id :: id in q.tasks && q.tasks[id].locks != [] ==> q.tasks[id].locks[0].token != token
  }

  lemma DeadStaysDeadOneStep(config: Config, q: Queue, op: Op, token: Token)
    requires QueueKept(q) && Fresh(q, op) && Dead(q, token)
    ensures Dead(Step(config, q, op), token)
  {
    hide TableKept, Outcome;
    if Outcome(config, q.tasks, op).Ok? {
      var next := Step(config, q, op);
      forall id | id in next.tasks && next.tasks[id].locks != [] ensures next.tasks[id].locks[0].token != token {
        TableOfQueue(q);
        LockChange(config, q.tasks, op, id);
      }
    }
  }

  lemma TableOfQueue(q: Queue)
    requires QueueKept(q)
    ensures TableKept(q.tasks)
  {
  }

  /** A released token never authorizes anything again, however the run goes on. */
  lemma {:induction false} DeadTokensStayDead(config: Config, q: Queue, ops: seq<Op>, token: Token, id: Id)
    requires QueueKept(q) && AllFresh(config, q, ops) && Dead(q, token)
    ensures Dead(Run(config, q, ops), token)
    ensures Authorize(Run(config, q, ops).tasks, id, token).Err?
    decreases |ops|
  {
    hide QueueKept, Step;
    if ops != [] {
      DeadStaysDeadOneStep(config, q, ops[0], token);
      StepKeeps(config, q, ops[0]);
      DeadTokensStayDead(config, Step(config, q, ops[0]), ops[1..], token, id);
    }
  }

  /** Cancel, a failed accept and auto-close kill the token of every task they take away from its assignee. */
  lemma ReleaseKillsToken(config: Config, q: Queue, op: Op, id: Id)
    requires QueueKept(q) && TokensDistinct(q) && Fresh(q, op) && Outcome(config, q.tasks, op).Ok?
    requires id in q.tasks && q.tasks[id].locks != [] && Step(config, q, op).tasks[id].locks == []
    ensures Dead(Step(config, q, op), q.tasks[id].locks[0].token)
  {
    hide TableKept, Outcome;
    var next := Step(config, q, op);
    var token := q.tasks[id].locks[0].token;
    forall x | x in next.tasks && next.tasks[x].locks != [] ensures next.tasks[x].locks[0].token != token {
      TableOfQueue(q);
      LockChange(config, q.tasks, op, x);
    }
  }

  /** No two tasks are locked under one token. */
  ghost predicate TokensDistinct(q: Queue) {
    forall x, y :: x in q.tasks && y in q.tasks && x != y && q.tasks[x].locks != [] && q.tasks[y].locks != []
      ==> q.tasks[x].locks[0].token != q.tasks[y].locks[0].token
  }

  lemma StepKeepsDistinct(config: Config, q: Queue, op: Op)
    requires QueueKept(q) && Fresh(q, op) && TokensDistinct(q)
    ensures TokensDistinct(Step(config, q, op))
  {
    hide TableKept, Outcome;
    if Outcome(config, q.tasks, op).Ok? {
      var next := Step(config, q, op);
      forall x, y | x in next.tasks && y in next.tasks && x != y && next.tasks[x].locks != []
        && next.tasks[y].locks != []
        ensures next.tasks[x].locks[0].token != next.tasks[y].locks[0].token
      {
        TableOfQueue(q);
        LockChange(config, q.tasks, op, x);
        LockChange(config, q.tasks, op, y);
      }
    }
  }

  lemma {:induction false} RunKeepsDistinct(config: Config, q: Queue, ops: seq<Op>)
    requires QueueKept(q) && AllFresh(config, q, ops) && TokensDistinct(q)
    ensures TokensDistinct(Run(config, q, ops))
    decreases |ops|
  {
    hide QueueKept, Step, TokensDistinct;
    if ops != [] {
      StepKeepsDistinct(config, q, ops[0]);
      StepKeeps(config, q, ops[0]);
      RunKeepsDistinct(config, Step(config, q, ops[0]), ops[1..]);
    }
  }

  // ---- the claim race ----

  datatype Claimant = Claimant(agent: Agent, token: Token, at: int)

  /** Claimants reach the guarded update in some order, each having read the task at any earlier time. */
  function Race(ts: Tasks, id: Id, claimants: seq<Claimant>): (Tasks, seq<Claimant>) {
    if claimants == [] then (ts, [])
    else
      var c := claimants[0];
      if CanClaim(ts, id) then
        var (us, winners) := Race(ts[id := ClaimedTask(ts[id], c.agent, c.token, c.at)], id, claimants[1..]);
        (us, [c] + winners)
      else Race(ts, id, claimants[1..])
  }

  lemma {:induction false} NobodyWinsTaken(ts: Tasks, id: Id, claimants: seq<Claimant>)
    requires !CanClaim(ts, id)
    ensures Race(ts, id, claimants) == (ts, [])
  {
    if claimants != [] {
      NobodyWinsTaken(ts, id, claimants[1..]);
    }
  }

  /** Of any set of racing claimants at most one wins: the first to reach a claimable task, and nobody else. */
  lemma RaceHasOneWinner(ts: Tasks, id: Id, claimants: seq<Claimant>)
    ensures var (us, winners) := Race(ts, id, claimants);
            if CanClaim(ts, id) && claimants != [] then
              winners == [claimants[0]] && us
                == ts[id := ClaimedTask(ts[id], claimants[0].agent, claimants[0].token, claimants[0].at)]
            else winners == [] && us == ts
  {
    if CanClaim(ts, id) && claimants != [] {
      NobodyWinsTaken(ts[id := ClaimedTask(ts[id], claimants[0].agent, claimants[0].token, claimants[0].at)], id,
                      claimants[1..]);
    } else {
      NobodyWinsUnclaimable(ts, id, claimants);
    }
  }

  lemma NobodyWinsUnclaimable(ts: Tasks, id: Id, claimants: seq<Claimant>)
    requires !CanClaim(ts, id) || claimants == []
    ensures Race(ts, id, claimants) == (ts, [])
  {
    if claimants != [] {
      NobodyWinsTaken(ts, id, claimants);
    }
  }

  predicate Reopens(config: Config, ts: Tasks, op: Op, id: Id) {
    op.Accept? && op.task == id && id in ts && ts[id].state == Completed
    && !Passes(config.judge, OrElse(op.contract, ts[id].artifactContract), OrElse(op.given, ts[id].evidence))
  }

  /** Without a failed accept of the task in between, no verb makes a taken task claimable again. */
  lemma OnlyRejectionReopens(config: Config, ts: Tasks, op: Op, id: Id)
    requires TableKept(ts) && id in ts && !Claimable(ts[id].state) && Outcome(config, ts, op).Ok?
    requires op.Create? ==> op.id !in ts
    ensures var us := Outcome(config, ts, op).value;
            id in us && (Claimable(us[id].state) <==> Reopens(config, ts, op, id))
  {
    hide CompleteIn, CancelIn, TableKept, Passes, Strings.Trim, Present;
    OutcomeIds(config, ts, op);
    if op.Complete? || op.Cancel? {
      ClosingNeverReopens(config, ts, op, id);
    }
  }

  lemma ClosingNeverReopens(config: Config, ts: Tasks, op: Op, id: Id)
    requires (op.Complete? || op.Cancel?) && id in ts && !Claimable(ts[id].state) && Outcome(config, ts, op).Ok?
    ensures var us := Outcome(config, ts, op).value;
            id in us && !Claimable(us[id].state)
  {
    hide CloseBelow, Present;
    ClosingInOutcome(config, ts, op, id);
  }

  ghost predicate NoReopening(config: Config, q: Queue, ops: seq<Op>, id: Id)
    decreases |ops|
  {
    ops == [] || (!Reopens(config, q.tasks, ops[0], id) && NoReopening(config, Step(config, q, ops[0]), ops[1..], id))
  }

  /** Between two winning claims of one task there is always a rejection of it. */
  lemma {:induction false} NoSecondWin(config: Config, q: Queue, ops: seq<Op>, id: Id, agent: Agent, token: Token,
          at: int)
    requires QueueKept(q) && AllFresh(config, q, ops) && NoReopening(config, q, ops, id)
    requires id in q.tasks && !Claimable(q.tasks[id].state)
    ensures ClaimIn(Run(config, q, ops).tasks, id, agent, token, at).Err?
    decreases |ops|
  {
    hide Outcome, TableKept, QueueKept;
    if ops != [] {
      TableOfQueue(q);
      StepKeeps(config, q, ops[0]);
      StaysPresent(config, q, ops[0], id);
      if Outcome(config, q.tasks, ops[0]).Ok? {
        OnlyRejectionReopens(config, q.tasks, ops[0], id);
      }
      NoSecondWin(config, Step(config, q, ops[0]), ops[1..], id, agent, token, at);
    }
  }

  lemma StaysPresent(config: Config, q: Queue, op: Op, id: Id)
    requires id in q.tasks
    ensures id in Step(config, q, op).tasks
  {
    hide Outcome;
    if Outcome(config, q.tasks, op).Ok? {
      OutcomeIds(config, q.tasks, op);
    }
  }

  /**
   * In every reachable table the goal query returns exactly the strict descendants, and nothing is its own
   * ancestor.
   */
  lemma ReachableGoalQuery(config: Config, ops: seq<Op>, goal: Id, id: Id)
    requires AllFresh(config, EMPTY, ops) && id in Run(config, EMPTY, ops).tasks
    ensures var ts := Run(config, EMPTY, ops).tasks;
            && (goal in ts[id].goalAncestry <==> StrictlyBelow(ts, goal, id))
            && id !in ts[id].goalAncestry
            && ParentPath(ts, [id] + ts[id].goalAncestry)
  {
    hide StrictlyBelow, ParentPath, Run;
    ReachableKept(config, ops);
    var ts := Run(config, EMPTY, ops).tasks;
    GoalQueryExact(ts, goal, id);
    AncestryAcyclic(ts, id);
    AncestryIsParentPath(ts, id);
  }

  // ---- the store's goal filter ----

  predicate PlainTable(ts: Tasks) {
    forall id :: id in ts ==> GoalQuery.PlainId(id)
  }

  /** New ids are of the service's form: lower-case letters, digits and dashes. */
  predicate PlainFresh(op: Op) {
    op.Create? ==> GoalQuery.PlainId(op.id)
  }

  lemma OutcomeIds(config: Config, ts: Tasks, op: Op)
    requires Outcome(config, ts, op).Ok?
    ensures Outcome(config, ts, op).value.Keys == ts.Keys + if op.Create? then {op.id} else {}
  {
    hide CloseBelow, Passes, Strings.Trim;
  }

  lemma {:induction false} PlainStays(config: Config, q: Queue, ops: seq<Op>)
    requires PlainTable(q.tasks) && forall i :: 0 <= i < |ops| ==> PlainFresh(ops[i])
    ensures PlainTable(Run(config, q, ops).tasks)
    decreases |ops|
  {
    hide GoalQuery.PlainId, Outcome;
    if ops != [] {
      assert PlainFresh(ops[0]);
      if Outcome(config, q.tasks, ops[0]).Ok? {
        OutcomeIds(config, q.tasks, ops[0]);
      }
      PlainStays(config, Step(config, q, ops[0]), ops[1..]);
    }
  }

  /**
   * In every reachable table of plain ids the store's LIKE filter selects exactly the tasks strictly below a
   * plain goal.
   */
  lemma ReachableGoalFilter(config: Config, ops: seq<Op>, goal: Id, id: Id)
    requires AllFresh(config, EMPTY, ops) && forall i :: 0 <= i < |ops| ==> PlainFresh(ops[i])
    requires GoalQuery.PlainId(goal) && id in Run(config, EMPTY, ops).tasks
    ensures var ts := Run(config, EMPTY, ops).tasks;
            GoalQuery.GoalMatches(goal, ts[id].goalAncestry) <==> StrictlyBelow(ts, goal, id)
  {
    hide StrictlyBelow, Run, GoalQuery.GoalMatches, GoalQuery.PlainId;
    ReachableKept(config, ops);
    PlainStays(config, EMPTY, ops);
    var ts := Run(config, EMPTY, ops).tasks;
    AncestorsPresent(ts, id);
    forall i | 0 <= i < |ts[id].goalAncestry| ensures GoalQuery.PlainId(ts[id].goalAncestry[i]) {
      assert ts[id].goalAncestry[i] in ts[id].goalAncestry;
    }
    GoalQuery.GoalFilterExact(goal, ts[id].goalAncestry);
    GoalQueryExact(ts, goal, id);
  }
}
