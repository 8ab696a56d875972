/**
 * The fleet-tasks service: verbs over the keyed task table. Every verb is given as a function of the
 * table (the specification) and as a method of the service proved against it; the recursive auto-close
 * is proved against the open-subtree definition of TaskTree.
 */
module TasksService {
  import opened Prelude
  import opened TaskTree
  import Strings

  datatype TaskError =
    | EmptyTitle
    | NotCreatable
    | NotFound
    | NotClaimable
    | AlreadyAssigned
    | NoExecutionLock
    | TokenMismatch
    | WrongState
    | NoEvidence
    | EscalationIncomplete

  datatype CreateInput = CreateInput(
    title: string, state: Option<State>, parentId: Option<Id>, priority: Option<string>,
    severity: Option<Severity>, claimRole: Option<string>, artifactContract: Option<Contract>)

  datatype Patch = Patch(
    title: Option<string>, priority: Option<string>, severity: Option<Severity>,
    claimRole: Option<string>, artifactContract: Option<Contract>)

  /** How evidence is judged against a contract, once there is a value to judge. */
  type Judge = (Contract, Metric) -> bool

  /** `evaluateArtifactContract`: no evidence never passes. */
  predicate Satisfies(judge: Judge, contract: Contract, evidence: Option<Evidence>) {
    evidence.Some? && evidence.value.result != Undefined && judge(contract, evidence.value.result)
  }

  // ---- the verbs as functions of the table ----

  function NewTask(ts: Tasks, input: CreateInput, id: Id, now: int): Task
    requires input.parentId.Some? ==> input.parentId.value in ts
  {
    var ancestry := if input.parentId.Some? then [input.parentId.value] + ts[input.parentId.value].goalAncestry else [];
    Task(id, input.title, ancestry, input.parentId, Or(input.state, Triage), None, input.priority,
         Or(input.severity, P1), None,
         input.artifactContract, input.claimRole, [], None, None, None, now, now, None)
  }

  function CreateIn(ts: Tasks, input: CreateInput, id: Id, now: int): Result<Tasks, TaskError> {
    if Strings.Trim(input.title) == "" then Err(EmptyTitle)
    else if !Claimable(Or(input.state, Triage)) then Err(NotCreatable)
    else if input.parentId.Some? && input.parentId.value !in ts then Err(NotFound)
    else Ok(ts[id := NewTask(ts, input, id, now)])
  }

  function ClaimedTask(t: Task, agent: Agent, token: Token, now: int): Task {
    t.(assignee := Some(agent), state := Started, locks := [Lock(agent, token, now)], updatedAt := now)
  }

  /** The guard of the one-statement claim. */
  predicate CanClaim(ts: Tasks, id: Id) {
    id in ts && Claimable(ts[id].state) && ts[id].assignee == None
  }

  function ClaimIn(ts: Tasks, id: Id, agent: Agent, token: Token, now: int): Result<Tasks, TaskError> {
    if id !in ts then Err(NotFound)
    else if !Claimable(ts[id].state) then Err(NotClaimable)
    else if ts[id].assignee != None then Err(AlreadyAssigned)
    else Ok(ts[id := ClaimedTask(ts[id], agent, token, now)])
  }

  /** The token-guarded verbs start here: the table must hold a lock of the task with this token. */
  function Authorize(ts: Tasks, id: Id, token: Token): Result<Task, TaskError> {
    if id !in ts then Err(NotFound)
    else if ts[id].locks == [] then Err(NoExecutionLock)
    else if ts[id].locks[0].token != token then Err(TokenMismatch)
    else Ok(ts[id])
  }

  function PatchedTask(t: Task, patch: Patch, now: int): Task {
    t.(title := Or(patch.title, t.title), priority := OrElse(patch.priority, t.priority),
       severity := Or(patch.severity, t.severity),
       claimRole := OrElse(patch.claimRole, t.claimRole),
       artifactContract := OrElse(patch.artifactContract, t.artifactContract),
       updatedAt := now)
  }

  function UpdateIn(ts: Tasks, id: Id, token: Token, patch: Patch, now: int): Result<Tasks, TaskError> {
    var task :- Authorize(ts, id, token);
    Ok(ts[id := PatchedTask(task, patch, now)])
  }

  function CompletedTask(t: Task, evidence: Evidence, actor: Agent, now: int): Task {
    t.(state := Completed,
       evidence := Some(Evidence(evidence.result, Some(Or(evidence.submittedAt, now)),
                                 Some(Or(evidence.submittedBy, actor)))),
       acceptance := Some(Pending), updatedAt := now, completedAt := Some(now))
  }

  /** The row a task is stored as. */
  function AsStored(t: Task): Task {
    if t.evidence.None? then t else t.(evidence := Some(t.evidence.value.(result := Stored(t.evidence.value.result))))
  }

  ghost function CompleteIn(ts: Tasks, autoClose: bool, id: Id, token: Token, evidence: Evidence, actor: Agent,
          now: int): Result<Tasks, TaskError> {
    var task :- Authorize(ts, id, token);
    if task.state != Started then Err(WrongState)
    else if !Present(evidence.result) then Err(NoEvidence)
    else
      var put := ts[id := AsStored(CompletedTask(task, evidence, actor, now))];
      Ok(if autoClose then CloseBelow(put, id, Completed, now) else put)
  }

  function CancelledTask(t: Task, now: int): Task {
    t.(state := Cancelled, evidence := None, acceptance := None, assignee := None, locks := [], updatedAt := now)
  }

  ghost function CancelIn(ts: Tasks, autoClose: bool, id: Id, token: Token, now: int): Result<Tasks, TaskError> {
    var task :- Authorize(ts, id, token);
    if Terminal(task.state) then Err(WrongState)
    else
      var put := ts[id := CancelledTask(task, now)];
      Ok(if autoClose then CloseBelow(put, id, Cancelled, now) else put)
  }

  function EscalateIn(ts: Tasks, id: Id, severity: Severity, owner: Agent, nextAction: string,
          now: int): Result<Tasks, TaskError> {
    if Strings.Trim(owner) == "" || Strings.Trim(nextAction) == "" then Err(EscalationIncomplete)
    else if id !in ts then Err(NotFound)
    else Ok(ts[id := ts[id].(severity := severity, escalation := Some(Escalation(severity, owner, nextAction, now)),
                             updatedAt := now)])
  }

  function AcceptedTask(t: Task, now: int): Task {
    t.(acceptance := Some(Accepted(now)), updatedAt := now)
  }

  function ReopenedTask(t: Task, metric: string, now: int): Task {
    t.(state := Unstarted, assignee := None, locks := [], acceptance := Some(Rejected(now, metric)), updatedAt := now)
  }

  /** The verdict of `accept`: accepted without a contract, else whatever the evidence earns. */
  predicate Passes(judge: Judge, contract: Option<Contract>, evidence: Option<Evidence>) {
    contract.None? || Satisfies(judge, contract.value, evidence)
  }

  function AcceptIn(ts: Tasks, judge: Judge, id: Id, contract: Option<Contract>, evidence: Option<Evidence>,
          now: int): Result<Tasks, TaskError> {
    if id !in ts then Err(NotFound)
    else if ts[id].state != Completed then Err(WrongState)
    else
      var effective := OrElse(contract, ts[id].artifactContract);
      if Passes(judge, effective, OrElse(evidence, ts[id].evidence)) then Ok(ts[id := AcceptedTask(ts[id], now)])
      else Ok(ts[id := ReopenedTask(ts[id], effective.value.metric, now)])
  }

  /** What every task keeps, whatever the verbs did to it. */
  predicate TaskKept(id: Id, t: Task) {
    && t.id == id
    && (Claimable(t.state) ==> t.assignee == None && t.locks == [])
    && (t.state == Started ==> t.assignee.Some? && |t.locks| == 1 && t.locks[0].holder == t.assignee.value)
    && (t.state == Completed ==>
          t.locks == [] || (t.assignee.Some? && |t.locks| == 1 && t.locks[0].holder == t.assignee.value))
    && (t.state == Cancelled ==> t.assignee == None && t.locks == [])
  }

  /** Evidence that is there is not empty. */
  predicate EvidenceFull(t: Task) {
    t.evidence.Some? ==> Present(t.evidence.value.result)
  }

  predicate EvidenceKept(ts: Tasks) {
    forall id :: id in ts ==> EvidenceFull(ts[id])
  }

  predicate KeyedById(ts: Tasks) {
    forall id :: id in ts ==> ts[id].id == id
  }

  ghost predicate TableKept(ts: Tasks) {
    AncestryKept(ts) && forall id :: id in ts ==> TaskKept(id, ts[id])
  }

  /** The effect of a closing verb on every task but the verb's own. */
  ghost predicate SubtreeClosed(before: Tasks, after: Tasks, root: Id, closeState: State, now: int) {
    && after.Keys == before.Keys
    && forall x :: x in before && x != root ==>
         after[x] == if OpenBelow(before, root, x) then ClosedTask(before[x], closeState, now) else before[x]
  }

  class FleetTasks {
    var tasks: Tasks
    const autoCloseSubtree: bool
    const judge: Judge

    constructor (autoCloseSubtree: bool, judge: Judge)
      ensures tasks == map[] && this.autoCloseSubtree == autoCloseSubtree && this.judge == judge
    {
      this.tasks := map[];
      this.autoCloseSubtree := autoCloseSubtree;
      this.judge := judge;
    }

    method Create(input: CreateInput, id: Id, now: int) returns (r: Result<Task, TaskError>)
      requires id !in tasks
      modifies this
      ensures var spec := CreateIn(old(tasks), input, id, now);
              && (spec.Ok? ==> tasks == spec.value && r == Ok(tasks[id]))
              && (spec.Err? ==> tasks == old(tasks) && r == Err(spec.error))
    {
      if Strings.Trim(input.title) == "" { return Err(EmptyTitle); }
      var state := if input.state.Some? then input.state.value else Triage;
      if !Claimable(state) { return Err(NotCreatable); }
      if input.parentId.Some? && input.parentId.value !in tasks { return Err(NotFound); }
      tasks := tasks[id := NewTask(tasks, input, id, now)];
      return Ok(tasks[id]);
    }

    /** One guarded update; the guard alone decides the winner. */
    method AtomicClaim(id: Id, agent: Agent, token: Token, now: int) returns (won: bool)
      modifies this
      ensures won <==> CanClaim(old(tasks), id)
      ensures tasks == if won then old(tasks)[id := ClaimedTask(old(tasks)[id], agent, token, now)] else old(tasks)
    {
      won := id in tasks && Claimable(tasks[id].state) && tasks[id].assignee == None;
      if won {
        tasks := tasks[id := ClaimedTask(tasks[id], agent, token, now)];
      }
    }

    method Claim(id: Id, agent: Agent, token: Token, now: int) returns (r: Result<Task, TaskError>)
      modifies this
      ensures var spec := ClaimIn(old(tasks), id, agent, token, now);
              && (spec.Ok? ==> tasks == spec.value && r == Ok(tasks[id]))
              && (spec.Err? ==> tasks == old(tasks) && r == Err(spec.error))
    {
      if id !in tasks { return Err(NotFound); }
      if !Claimable(tasks[id].state) { return Err(NotClaimable); }
      if tasks[id].assignee != None { return Err(AlreadyAssigned); }
      var won := AtomicClaim(id, agent, token, now);
      return Ok(tasks[id]);
    }

    method Update(id: Id, token: Token, patch: Patch, now: int) returns (r: Result<Task, TaskError>)
      modifies this
      ensures var spec := UpdateIn(old(tasks), id, token, patch, now);
              && (spec.Ok? ==> tasks == spec.value && r == Ok(tasks[id]))
              && (spec.Err? ==> tasks == old(tasks) && r == Err(spec.error))
    {
      var task := Authorize(tasks, id, token);
      if task.Err? { return Err(task.error); }
      tasks := tasks[id := PatchedTask(task.value, patch, now)];
      return Ok(tasks[id]);
    }

    /** The open children of a task, each once. */
    method OpenChildren(parentId: Id) returns (children: seq<Task>)
      requires KeyedById(tasks)
      ensures forall i :: 0 <= i < |children| ==> children[i].id in tasks && children[i] == tasks[children[i].id]
      ensures forall i, j :: 0 <= i < j < |children| ==> children[i].id != children[j].id
      ensures forall c :: c in Ids(children) <==> Open(tasks, c) && tasks[c].parentId == Some(parentId)
    {
      children := [];
      var rest := tasks.Keys;
      while rest != {}
        invariant rest <= tasks.Keys
        invariant forall i :: 0 <= i < |children| ==>
                    children[i].id in tasks && children[i] == tasks[children[i].id] && children[i].id !in rest
        invariant forall i, j :: 0 <= i < j < |children| ==> children[i].id != children[j].id
        invariant forall c :: c in Ids(children)
                    <==> c !in rest && Open(tasks, c) && tasks[c].parentId == Some(parentId)
        decreases |rest|
      {
        HasText(rest);
        var id :| id in rest;
        rest := rest - {id};
        var task := tasks[id];
        if task.parentId == Some(parentId) && !Terminal(task.state) {
          IdsAppend(children, task);
          children := children + [task];
        }
      }
    }

    /** Recursively closes the open subtree below a task; each task is marked with its direct parent. */
    method AutoCloseDescendants(parentId: Id, closeState: State, now: int)
      requires Terminal(closeState) && AncestryKept(tasks)
      requires KeyedById(tasks)
      modifies this
      ensures tasks == CloseBelow(old(tasks), parentId, closeState, now)
      decreases |OpenIds(tasks)|
    {
      hide AncestryKept, OpenBelow, InSubtrees, CloseBelow, CloseChildren, ClosedTask;
      ghost var ts := tasks;
      var children := OpenChildren(parentId);
      ghost var cs := Ids(children);
      NothingClosed(ts, closeState, now);
      for i := 0 to |children|
        invariant tasks == CloseChildren(ts, cs[..i], closeState, now)
      {
        var child := children[i];
        ChildNext(ts, parentId, cs, i, closeState, now);
        tasks := tasks[child.id := child.(state := closeState, assignee := None, locks := [],
                                          autoClosedBy := Some(parentId),
                                          completedAt := if closeState == Completed then Some(now)
                                            else child.completedAt, updatedAt := now)];
        ClosedTaskFields(child, closeState, now);
        AutoCloseDescendants(child.id, closeState, now);
      }
      assert cs[..|children|] == cs;
      AllChildrenClosed(ts, parentId, cs, closeState, now);
    }

    method Complete(id: Id, token: Token, evidence: Evidence, actor: Agent, now: int)
      returns (r: Result<Task, TaskError>)
      requires TableKept(tasks)
      modifies this
      ensures var spec := CompleteIn(old(tasks), autoCloseSubtree, id, token, evidence, actor, now);
              && (spec.Ok? ==> tasks == spec.value && r == Ok(tasks[id]))
              && (spec.Err? ==> tasks == old(tasks) && r == Err(spec.error))
      ensures r.Ok? ==> r.value == AsStored(CompletedTask(old(tasks)[id], evidence, actor, now))
      ensures r.Ok? ==> r.value.state == Completed && r.value.acceptance == Some(Pending)
      ensures r.Ok? && autoCloseSubtree ==> SubtreeClosed(old(tasks), tasks, id, Completed, now)
    {
      hide AncestryKept, OpenBelow, CloseBelow, SubtreeClosed;
      var task := Authorize(tasks, id, token);
      if task.Err? { return Err(task.error); }
      if task.value.state != Started { return Err(WrongState); }
      if !Present(evidence.result) { return Err(NoEvidence); }
      ghost var before := tasks;
      tasks := tasks[id := AsStored(CompletedTask(task.value, evidence, actor, now))];
      RootMarked(before, id, tasks[id], Completed, now);
      if autoCloseSubtree {
        AutoCloseDescendants(id, Completed, now);
      }
      return Ok(tasks[id]);
    }

    method Cancel(id: Id, token: Token, now: int) returns (r: Result<Task, TaskError>)
      requires TableKept(tasks)
      modifies this
      ensures var spec := CancelIn(old(tasks), autoCloseSubtree, id, token, now);
              && (spec.Ok? ==> tasks == spec.value && r == Ok(tasks[id]))
              && (spec.Err? ==> tasks == old(tasks) && r == Err(spec.error))
      ensures r.Ok? ==> r.value == CancelledTask(old(tasks)[id], now)
      ensures r.Ok? && autoCloseSubtree ==> SubtreeClosed(old(tasks), tasks, id, Cancelled, now)
    {
      hide AncestryKept, OpenBelow, CloseBelow, SubtreeClosed;
      var task := Authorize(tasks, id, token);
      if task.Err? { return Err(task.error); }
      if Terminal(task.value.state) { return Err(WrongState); }
      ghost var before := tasks;
      tasks := tasks[id := task.value.(state := Cancelled, evidence := None, acceptance := None, updatedAt := now)];
      tasks := tasks[id := tasks[id].(assignee := None, locks := [], updatedAt := now)];
      assert tasks == before[id := CancelledTask(before[id], now)];
      RootMarked(before, id, tasks[id], Cancelled, now);
      if autoCloseSubtree {
        AutoCloseDescendants(id, Cancelled, now);
      }
      return Ok(tasks[id]);
    }

    method Escalate(id: Id, severity: Severity, owner: Agent, nextAction: string, now: int)
      returns (r: Result<Task, TaskError>)
      modifies this
      ensures var spec := EscalateIn(old(tasks), id, severity, owner, nextAction, now);
              && (spec.Ok? ==> tasks == spec.value && r == Ok(tasks[id]))
              && (spec.Err? ==> tasks == old(tasks) && r == Err(spec.error))
    {
      if Strings.Trim(owner) == "" || Strings.Trim(nextAction) == "" { return Err(EscalationIncomplete); }
      if id !in tasks { return Err(NotFound); }
      tasks := tasks[id := tasks[id].(severity := severity,
                                      escalation := Some(Escalation(severity, owner, nextAction, now)),
                                      updatedAt := now)];
      return Ok(tasks[id]);
    }

    method Accept(id: Id, contract: Option<Contract>, evidence: Option<Evidence>, now: int)
      returns (r: Result<(bool, Task), TaskError>)
      modifies this
      ensures var spec := AcceptIn(old(tasks), judge, id, contract, evidence, now);
              && (spec.Ok? ==> tasks == spec.value && r.Ok? && r.value.1 == tasks[id])
              && (spec.Err? ==> tasks == old(tasks) && r == Err(spec.error))
      ensures r.Ok? ==> (r.value.0 <==> tasks[id].state == Completed)
    {
      if id !in tasks { return Err(NotFound); }
      var task := tasks[id];
      if task.state != Completed { return Err(WrongState); }
      var effective := if contract.Some? then contract else task.artifactContract;
      var shown := if evidence.Some? then evidence else task.evidence;
      if effective.None? {
        tasks := tasks[id := AcceptedTask(task, now)];
        return Ok((true, tasks[id]));
      }
      if Satisfies(judge, effective.value, shown) {
        tasks := tasks[id := AcceptedTask(task, now)];
        return Ok((true, tasks[id]));
      }
      tasks := tasks[id := ReopenedTask(task, effective.value.metric, now)];
      return Ok((false, tasks[id]));
    }
  }

  // ---- the proof of auto-close ----

  ghost function OpenIds(ts: Tasks): set<Id> {
    set id | id in ts && Open(ts, id)
  }

  ghost function Ids(children: seq<Task>): (r: seq<Id>)
    ensures |r| == |children| && forall i :: 0 <= i < |r| ==> r[i] == children[i].id
  {
    seq(|children|, i requires 0 <= i < |children| => children[i].id)
  }

  lemma IdsAppend(children: seq<Task>, task: Task)
    ensures Ids(children + [task]) == Ids(children) + [task.id]
  {
  }

  lemma NothingClosed(ts: Tasks, closeState: State, now: int)
    ensures forall cs: seq<Id> :: CloseChildren(ts, cs[..0], closeState, now) == ts
  {
  }

  lemma ClosedTaskFields(child: Task, closeState: State, now: int)
    ensures ClosedTask(child, closeState, now)
         == child.(state := closeState, assignee := None, locks := [], autoClosedBy := child.parentId,
                   completedAt := if closeState == Completed then Some(now) else child.completedAt, updatedAt := now)
  {
  }

  lemma AllChildrenClosed(ts: Tasks, root: Id, cs: seq<Id>, closeState: State, now: int)
    requires AncestryKept(ts)
    requires forall c :: c in cs <==> Open(ts, c) && ts[c].parentId == Some(root)
    ensures CloseChildren(ts, cs, closeState, now) == CloseBelow(ts, root, closeState, now)
  {
    hide OpenBelow, InSubtrees, ClosedTask, AncestryKept;
    forall id | id in ts ensures OpenBelow(ts, root, id) <==> InSubtrees(ts, cs, id) {
      OpenBelowByChild(ts, root, cs, id);
    }
  }

  /** One child is closed and its subtree after it: the store stays what the first `i + 1` children make of it. */
  lemma ChildNext(ts: Tasks, root: Id, cs: seq<Id>, i: nat, closeState: State, now: int)
    requires AncestryKept(ts) && KeyedById(ts) && Terminal(closeState) && i < |cs| && cs[i] in ts
    requires forall c :: c in cs <==> Open(ts, c) && ts[c].parentId == Some(root)
    requires forall j, k :: 0 <= j < k < |cs| ==> cs[j] != cs[k]
    ensures var us := CloseChildren(ts, cs[..i], closeState, now)[cs[i] := ClosedTask(ts[cs[i]], closeState, now)];
            && AncestryKept(us)
            && us.Keys == ts.Keys
            && KeyedById(us)
            && |OpenIds(us)| < |OpenIds(ts)|
            && CloseBelow(us, cs[i], closeState, now) == CloseChildren(ts, cs[..i + 1], closeState, now)
  {
    hide OpenBelow, AncestryKept;
    var c := cs[i];
    assert c in cs;
    var us := CloseChildren(ts, cs[..i], closeState, now)[c := ClosedTask(ts[c], closeState, now)];
    assert SameShape(ts, us);
    ShapeKeepsAncestry(ts, us);
    FewerOpen(ts, us, c);
    forall x | x in ts && c in ts[x].goalAncestry ensures us[x] == ts[x] {
      BelowOneChildOnly(ts, root, cs, i, x);
    }
    forall id | id in ts ensures OpenBelow(us, c, id) <==> OpenBelow(ts, c, id) {
      OpenBelowFrame(ts, us, c, id);
    }
    SubtreesGrow(ts, us, cs, i, closeState, now);
  }

  lemma FewerOpen(ts: Tasks, us: Tasks, c: Id)
    requires ts.Keys == us.Keys && Open(ts, c) && !Open(us, c)
    requires forall id :: id in us ==> us[id] == ts[id] || Terminal(us[id].state)
    ensures |OpenIds(us)| < |OpenIds(ts)|
  {
    assert OpenIds(us) <= OpenIds(ts) - {c};
    SubsetSize(OpenIds(us), OpenIds(ts) - {c});
  }

  lemma SubsetSize(a: set<Id>, b: set<Id>)
    requires a <= b
    ensures |a| <= |b|
  {
    assert b == a + (b - a);
  }

  /** A task below child number `i` is not in the subtree of an earlier child. */
  lemma BelowOneChildOnly(ts: Tasks, root: Id, cs: seq<Id>, i: nat, x: Id)
    requires AncestryKept(ts) && i < |cs| && x in ts && cs[i] in ts[x].goalAncestry
    requires forall c :: c in cs <==> Open(ts, c) && ts[c].parentId == Some(root)
    requires forall j, k :: 0 <= j < k < |cs| ==> cs[j] != cs[k]
    ensures !InSubtrees(ts, cs[..i], x) && x != cs[i]
  {
    hide OpenBelow, AncestryKept;
    assert cs[i] in cs;
    AncestryAcyclic(ts, x);
    forall d | d in cs[..i] ensures d != x && !OpenBelow(ts, d, x) {
      assert d in cs && d != cs[i];
      if d == x || OpenBelow(ts, d, x) {
        if OpenBelow(ts, d, x) {
          OpenBelowInAncestry(ts, d, x);
        }
        SiblingsDisjoint(ts, cs[i], d, x);
      }
    }
  }

  lemma SubtreesGrow(ts: Tasks, us: Tasks, cs: seq<Id>, i: nat, closeState: State, now: int)
    requires AncestryKept(ts) && i < |cs| && cs[i] in ts
    requires us == CloseChildren(ts, cs[..i], closeState, now)[cs[i] := ClosedTask(ts[cs[i]], closeState, now)]
    requires forall id :: id in ts ==> (OpenBelow(us, cs[i], id) <==> OpenBelow(ts, cs[i], id))
    requires forall x :: x in ts && cs[i] in ts[x].goalAncestry ==> us[x] == ts[x]
    ensures CloseBelow(us, cs[i], closeState, now) == CloseChildren(ts, cs[..i + 1], closeState, now)
  {
    hide OpenBelow, AncestryKept, ClosedTask;
    var c := cs[i];
    var left, right := CloseBelow(us, c, closeState, now), CloseChildren(ts, cs[..i + 1], closeState, now);
    assert cs[..i + 1] == cs[..i] + [c];
    forall id | id in ts ensures left[id] == right[id] {
      if OpenBelow(ts, c, id) {
        OpenBelowInAncestry(ts, c, id);
      }
      assert InSubtrees(ts, cs[..i + 1], id) <==> InSubtrees(ts, cs[..i], id) || id == c || OpenBelow(ts, c, id);
      AncestryAcyclic(ts, c);
    }
  }

  /** Marking the root itself terminal does not change which tasks are below it. */
  lemma RootMarked(before: Tasks, id: Id, marked: Task, closeState: State, now: int)
    requires TableKept(before) && id in before
    requires marked.id == id && marked.parentId == before[id].parentId && marked.goalAncestry == before[id].goalAncestry
    ensures AncestryKept(before[id := marked])
    ensures KeyedById(before[id := marked])
    ensures SubtreeClosed(before, CloseBelow(before[id := marked], id, closeState, now), id, closeState, now)
    ensures CloseBelow(before[id := marked], id, closeState, now)[id] == marked
  {
    hide OpenBelow, AncestryKept, ClosedTask;
    var put := before[id := marked];
    assert SameShape(before, put);
    ShapeKeepsAncestry(before, put);
    AncestryAcyclic(before, id);
    forall x | x in before ensures OpenBelow(before, id, x) <==> OpenBelow(put, id, x) {
      OpenBelowFrame(before, put, id, x);
    }
    if OpenBelow(put, id, id) {
      OpenBelowInAncestry(before, id, id);
    }
  }
}
