/** What the verbs write into a task's row, field by field. */
module TaskRecords {
  import opened Prelude
  import opened TaskTree
  import opened TasksService
  import Strings

  /** A new task: what the caller gave, with the defaults, in place below its parent, and nothing else. */
  lemma CreatedRow(ts: Tasks, input: CreateInput, id: Id, now: int)
    ensures CreateIn(ts, input, id, now).Ok? <==>
              && Strings.Trim(input.title) != "" && (input.state.Some? ==> Claimable(input.state.value))
              && (input.parentId.Some? ==> input.parentId.value in ts)
    ensures CreateIn(ts, input, id, now).Ok? ==>
              var t := CreateIn(ts, input, id, now).value[id];
              && t.id == id && t.title == input.title && t.parentId == input.parentId && t.priority == input.priority
              && t.state == (if input.state.Some? then input.state.value else Triage)
              && t.severity == (if input.severity.Some? then input.severity.value else P1)
              && t.artifactContract == input.artifactContract && t.claimRole == input.claimRole
              && t.assignee == None && t.locks == [] && t.escalation == None && t.evidence == None
              && t.acceptance == None
              && t.autoClosedBy == None && t.createdAt == t.updatedAt == now && t.completedAt == None
  {
    hide Strings.Trim;
  }

  /** A patch sets the fields it names and no other; its time is noted. */
  lemma PatchedRow(ts: Tasks, id: Id, token: Token, patch: Patch, now: int)
    requires UpdateIn(ts, id, token, patch, now).Ok?
    ensures var t, u := ts[id], UpdateIn(ts, id, token, patch, now).value[id];
            && (patch.title.Some? ==> u.title == patch.title.value) && (patch.title.None? ==> u.title == t.title)
            && (patch.priority.Some? ==> u.priority == patch.priority)
            && (patch.priority.None? ==> u.priority == t.priority)
            && (patch.severity.Some? ==> u.severity == patch.severity.value)
            && (patch.severity.None? ==> u.severity == t.severity)
            && (patch.claimRole.Some? ==> u.claimRole == patch.claimRole)
            && (patch.claimRole.None? ==> u.claimRole == t.claimRole)
            && (patch.artifactContract.Some? ==> u.artifactContract == patch.artifactContract)
            && (patch.artifactContract.None? ==> u.artifactContract == t.artifactContract)
            && u.updatedAt == now
            && (u.state, u.assignee, u.locks, u.evidence, u.acceptance)
                 == (t.state, t.assignee, t.locks, t.evidence, t.acceptance)
            && (u.id, u.parentId, u.goalAncestry, u.createdAt, u.completedAt)
               == (t.id, t.parentId, t.goalAncestry, t.createdAt, t.completedAt)
  {
  }

  /** One patch over another: the later one's fields win. */
  function Over(first: Patch, second: Patch): Patch {
    Patch(OrElse(second.title, first.title), OrElse(second.priority, first.priority),
          OrElse(second.severity, first.severity),
          OrElse(second.claimRole, first.claimRole), OrElse(second.artifactContract, first.artifactContract))
  }

  /** Two updates in a row are one update with both patches. */
  lemma UpdatesCompose(ts: Tasks, id: Id, token: Token, first: Patch, second: Patch, at: int, now: int)
    ensures UpdateIn(ts, id, token, first, at).Ok? ==>
              UpdateIn(UpdateIn(ts, id, token, first, at).value, id, token, second, now)
              == UpdateIn(ts, id, token, Over(first, second), now)
  {
    if UpdateIn(ts, id, token, first, at).Ok? {
      var mid := UpdateIn(ts, id, token, first, at).value;
      var next := PatchedTask(mid[id], second, now);
      assert mid[id := next] == ts[id := next];
    }
  }

  /** A completion: the evidence as the caller submitted it, or by the actor now, stored; the acceptance waits. */
  lemma CompletedRow(ts: Tasks, autoClose: bool, id: Id, token: Token, evidence: Evidence, actor: Agent, now: int)
    requires CompleteIn(ts, autoClose, id, token, evidence, actor, now).Ok?
    ensures var t, u := ts[id], CompleteIn(ts, autoClose, id, token, evidence, actor, now).value[id];
            && t.state == Started && u.state == Completed && u.acceptance == Some(Pending)
            && u.completedAt == Some(now) && u.updatedAt == now
            && u.evidence.Some? && u.evidence.value.result == Stored(evidence.result)
            && u.evidence.value.submittedAt == (if evidence.submittedAt.Some? then evidence.submittedAt else Some(now))
            && u.evidence.value.submittedBy
                 == (if evidence.submittedBy.Some? then evidence.submittedBy else Some(actor))
            && (u.assignee, u.locks, u.title, u.severity, u.priority)
                 == (t.assignee, t.locks, t.title, t.severity, t.priority)
            && (u.artifactContract, u.claimRole, u.autoClosedBy) == (t.artifactContract, t.claimRole, t.autoClosedBy)
  {
    hide Present;
    NotOpenItself(ts[id := AsStored(CompletedTask(ts[id], evidence, actor, now))], id);
  }

  lemma NotOpenItself(ts: Tasks, id: Id)
    requires id in ts && Terminal(ts[id].state)
    ensures !OpenBelow(ts, id, id)
  {
  }

  /** A cancellation takes evidence, acceptance, assignee and lock away. */
  lemma CancelledRow(ts: Tasks, autoClose: bool, id: Id, token: Token, now: int)
    requires CancelIn(ts, autoClose, id, token, now).Ok?
    ensures var t, u := ts[id], CancelIn(ts, autoClose, id, token, now).value[id];
            && !Terminal(t.state) && u.state == Cancelled && u.updatedAt == now
            && u.evidence == None && u.acceptance == None && u.assignee == None && u.locks == []
            && (u.title, u.severity, u.priority, u.artifactContract, u.claimRole)
               == (t.title, t.severity, t.priority, t.artifactContract, t.claimRole)
            && u.completedAt == t.completedAt && u.autoClosedBy == t.autoClosedBy
  {
    NotOpenItself(ts[id := CancelledTask(ts[id], now)], id);
  }

  /** An escalation notes who has to do what, raises the severity, and leaves the work alone. */
  lemma EscalatedRow(ts: Tasks, id: Id, severity: Severity, owner: Agent, nextAction: string, now: int)
    requires EscalateIn(ts, id, severity, owner, nextAction, now).Ok?
    ensures var t, u := ts[id], EscalateIn(ts, id, severity, owner, nextAction, now).value[id];
            && u.escalation.Some? && u.escalation.value.owner == owner && u.escalation.value.nextAction == nextAction
            && u.escalation.value.severity == u.severity == severity
               && u.escalation.value.raisedAt == u.updatedAt == now
            && (u.state, u.assignee, u.locks, u.evidence, u.acceptance)
                 == (t.state, t.assignee, t.locks, t.evidence, t.acceptance)
  {
    hide Strings.Trim;
  }

  /** A verdict: accepted in place, or rejected under the contract's metric and open to all again. */
  lemma VerdictRow(ts: Tasks, judge: Judge, id: Id, contract: Option<Contract>, given: Option<Evidence>, now: int)
    requires AcceptIn(ts, judge, id, contract, given, now).Ok?
    ensures var t, u := ts[id], AcceptIn(ts, judge, id, contract, given, now).value[id];
            var effective := if contract.Some? then contract else t.artifactContract;
            var shown := if given.Some? then given else t.evidence;
            && t.state == Completed && u.updatedAt == now
            && (u.evidence, u.artifactContract, u.completedAt, u.title)
                 == (t.evidence, t.artifactContract, t.completedAt, t.title)
            && if effective.None? || Satisfies(judge, effective.value, shown) then
                 u.acceptance == Some(Accepted(now)) && (u.state, u.assignee, u.locks) == (t.state, t.assignee, t.locks)
               else
                 && u.acceptance == Some(Rejected(now, effective.value.metric))
                 && u.state == Unstarted && u.assignee == None && u.locks == []
  {
    hide Satisfies;
  }

  /** What auto-close leaves of an open descendant. */
  lemma AutoClosedRow(ts: Tasks, root: Id, closeState: State, now: int, id: Id)
    requires id in ts && OpenBelow(ts, root, id)
    ensures var t, u := ts[id], CloseBelow(ts, root, closeState, now)[id];
            && u.state == closeState && u.assignee == None && u.locks == [] && u.updatedAt == now
            && u.autoClosedBy == t.parentId && u.evidence == t.evidence && u.acceptance == t.acceptance
            && u.completedAt == if closeState == Completed then Some(now) else t.completedAt
  {
    hide OpenBelow;
  }
}
