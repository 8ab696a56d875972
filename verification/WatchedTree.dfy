/**
 * The fleet-watchdog service: the gate on stopped work. The leaves of a watched tree are the tasks of the
 * tree outside every review subtree without such a child; when all of them rest, each is judged against
 * its artifact contract, and a false "done" is reopened, put under review and reassigned.
 */
module WatchedTree {
  import opened Prelude
  import opened TaskTree
  import opened TasksService

  const REVIEW_ROLE: string := "watchdog-review"

  // ---- the leaves, by parent links ----

  predicate IsReview(ts: Tasks, id: Id) {
    id in ts && ts[id].claimRole == Some(REVIEW_ROLE)
  }

  ghost predicate InTree(ts: Tasks, root: Id, id: Id) {
    id in ts && (id == root || StrictlyBelow(ts, root, id))
  }

  ghost predicate UnderReview(ts: Tasks, id: Id) {
    IsReview(ts, id) || exists r :: IsReview(ts, r) && StrictlyBelow(ts, r, id)
  }

  ghost predicate Watched(ts: Tasks, root: Id, id: Id) {
    InTree(ts, root, id) && !UnderReview(ts, id)
  }

  ghost predicate IsLeaf(ts: Tasks, root: Id, id: Id) {
    Watched(ts, root, id) && forall c :: c in ts && ts[c].parentId == Some(id) ==> !Watched(ts, root, c)
  }

  ghost function LeafIds(ts: Tasks, root: Id): set<Id> {
    set id | id in ts && IsLeaf(ts, root, id)
  }

  // ---- the leaves, by stored ancestry ----

  predicate Contains(ts: Tasks, root: Id, id: Id) {
    id in ts && (id == root || root in ts[id].goalAncestry)
  }

  predicate Guarded(ts: Tasks, id: Id)
    requires id in ts
  {
    ts[id].claimRole == Some(REVIEW_ROLE) || exists a :: a in ts[id].goalAncestry && IsReview(ts, a)
  }

  lemma WatchedByAncestry(ts: Tasks, root: Id, id: Id)
    requires AncestryKept(ts)
    ensures InTree(ts, root, id) <==> Contains(ts, root, id)
    ensures id in ts ==> (UnderReview(ts, id) <==> Guarded(ts, id))
    ensures Watched(ts, root, id) <==> Contains(ts, root, id) && !Guarded(ts, id)
  {
    hide AncestryKept, StrictlyBelow;
    if id in ts {
      GoalQueryExact(ts, root, id);
      forall r ensures r in ts[id].goalAncestry <==> StrictlyBelow(ts, r, id) {
        GoalQueryExact(ts, r, id);
      }
    }
  }

  /** Roots of which neither is below the other contain no common task. */
  lemma TreesApart(ts: Tasks, root: Id, other: Id, id: Id)
    requires AncestryKept(ts) && Contains(ts, root, id) && Contains(ts, other, id) && root != other
    ensures Contains(ts, root, other) || Contains(ts, other, root)
  {
    hide AncestryKept;
    var a := ts[id].goalAncestry;
    if root != id && other != id {
      var i :| 0 <= i < |a| && a[i] == root;
      var j :| 0 <= j < |a| && a[j] == other;
      AncestryTail(ts, id, i);
      AncestryTail(ts, id, j);
      if i < j {
        assert a[i + 1..][j - i - 1] == other;
      } else {
        assert a[j + 1..][i - j - 1] == root;
      }
    }
  }

  /** What leaves a leaf set alone: old tasks keep place and role, new tasks are under review. */
  ghost predicate SamePlaces(ts: Tasks, us: Tasks) {
    && ts.Keys <= us.Keys
    && (forall id :: id in ts ==>
          && us[id].parentId == ts[id].parentId && us[id].goalAncestry == ts[id].goalAncestry
          && us[id].claimRole == ts[id].claimRole)
    && (forall id :: id in us && id !in ts ==> IsReview(us, id))
  }

  lemma SamePlacesSameLeaves(ts: Tasks, us: Tasks, root: Id)
    requires AncestryKept(ts) && AncestryKept(us) && SamePlaces(ts, us) && root in ts
    ensures LeafIds(us, root) == LeafIds(ts, root)
  {
    hide AncestryKept, InTree, UnderReview, StrictlyBelow;
    forall id | id in us ensures Watched(us, root, id) <==> id in ts && Watched(ts, root, id) {
      WatchedByAncestry(us, root, id);
      if id in ts {
        WatchedByAncestry(ts, root, id);
        AncestorsPresent(ts, id);
      }
    }
  }

  // ---- verdicts ----

  /** A stopped task whose stored evidence is missing, empty, or fails its contract. */
  predicate FalseDone(judge: Judge, t: Task) {
    && t.state == Completed && t.artifactContract.Some?
    && !(t.evidence.Some? && Present(t.evidence.value.result)
         && judge(t.artifactContract.value, t.evidence.value.result))
  }

  /** A stopped task that `accept` reopens. */
  predicate Unearned(judge: Judge, t: Task) {
    t.state == Completed && !Passes(judge, t.artifactContract, t.evidence)
  }

  /** A stop that stands: cancelled, or completed and accepted on evidence that satisfies the contract, if any. */
  predicate Sound(judge: Judge, t: Task) {
    || t.state == Cancelled
    || (&& t.state == Completed
        && t.acceptance.Some? && t.acceptance.value.Accepted?
        && (t.artifactContract.Some? ==>
              t.evidence.Some? && Present(t.evidence.value.result)
                && judge(t.artifactContract.value, t.evidence.value.result)))
  }

  function JudgedTask(judge: Judge, t: Task, at: int): Task {
    if t.state != Completed then t
    else if Passes(judge, t.artifactContract, t.evidence) then AcceptedTask(t, at)
    else ReopenedTask(t, t.artifactContract.value.metric, at)
  }

  /** Org-chart routing of a reopened leaf. */
  type Routing = Option<string> -> Option<Agent>

  function ReviewInput(leaf: Task): CreateInput {
    CreateInput("[watchdog] verify \"" + leaf.title + "\" after false-done", None, Some(leaf.id), None, Some(P1),
                Some(REVIEW_ROLE), None)
  }

  /** Fresh review ids and lock tokens, one for each leaf: what the random generators are trusted for. */
  datatype Supply = Supply(reviewId: Id -> Id, token: Id -> Token)

  ghost predicate FreshFor(supply: Supply, taken: set<Id>) {
    && (forall x :: x in taken ==> supply.reviewId(x) !in taken)
    && (forall x, y :: x in taken && y in taken && x != y ==> supply.reviewId(x) != supply.reviewId(y))
  }

  /** A judged leaf after the claim of the routed agent, which succeeds on a reopened leaf only. */
  function ReassignedTask(routing: Routing, supply: Supply, t: Task, at: int): Task {
    var agent := routing(t.claimRole);
    if agent.Some? && Claimable(t.state) && t.assignee == None then ClaimedTask(t, agent.value, supply.token(t.id), at)
      else t
  }

  /** The table after the tasks of `done` are judged: all others are as they were. */
  ghost predicate Judged(judge: Judge, ts: Tasks, us: Tasks, done: set<Id>, at: int) {
    && us.Keys == ts.Keys
    && forall id :: id in ts ==> us[id] == if id in done then JudgedTask(judge, ts[id], at) else ts[id]
  }

  /** The table after the tasks of `done` got a review task and, where routing names one, a new assignee. */
  ghost predicate Settled(routing: Routing, supply: Supply, ts: Tasks, us: Tasks, done: set<Id>, at: int)
    requires done <= ts.Keys && KeyedById(ts)
  {
    && us.Keys == ts.Keys + (set r | r in done :: supply.reviewId(r))
    && (forall id :: id in ts ==> us[id] == if id in done then ReassignedTask(routing, supply, ts[id], at) else ts[id])
    && (forall r :: r in done ==> us[supply.reviewId(r)] == NewTask(ts, ReviewInput(ts[r]), supply.reviewId(r), at))
  }

  // ---- the gate ----

  datatype Status = Watching | Verifying | Verified | Rejecting
  datatype Verdict = PASS | REJECT | SKIP
  datatype LeafResult = LeafResult(taskId: Id, state: State, verdict: Verdict)
  datatype LeafStop = LeafStop(id: Id, state: State, contract: Option<Contract>)

  /** The stop fingerprint as the value it is the hash of. */
  datatype Fingerprint = Fingerprint(root: Id, leaves: set<LeafStop>)

  datatype WatchRecord = WatchRecord(
    treeRootId: Id, status: Status, createdAt: int, stoppedFingerprint: Option<Fingerprint>,
    lastStoppedAt: Option<int>, lastVerifiedAt: Option<int>, verifiedAt: Option<int>, rejectedAt: Option<int>,
    lastVerdict: Option<Verdict>, leaves: seq<LeafResult>)

  function NewRecord(root: Id, createdAt: int): WatchRecord {
    WatchRecord(root, Watching, createdAt, None, None, None, None, None, None, [])
  }

  datatype VerifyResult =
    | NotWatched
    | InProgress
    | RootGone
    | NotRested
    | Suppressed(stoppedFingerprint: Fingerprint)
    | Verdicts(stoppedFingerprint: Fingerprint, verdict: Verdict, rejected: seq<Id>)

  ghost predicate Rested(ts: Tasks, root: Id) {
    LeafIds(ts, root) != {} && forall id :: id in LeafIds(ts, root) ==> Terminal(ts[id].state)
  }

  ghost function StopOf(ts: Tasks, root: Id): Fingerprint {
    Fingerprint(root, set id | id in LeafIds(ts, root) :: LeafStop(id, ts[id].state, ts[id].artifactContract))
  }

  /**
   * The stop of the last full pass, PASS or REJECT, is not verified again within the window of the last PASS of
   * any stop, unless forced.
   */
  predicate Repeats(watch: WatchRecord, fingerprint: Fingerprint, windowMs: int, force: bool, now: int) {
    && !force && watch.stoppedFingerprint == Some(fingerprint)
    && watch.lastVerifiedAt.Some? && now - watch.lastVerifiedAt.value < windowMs
  }

  ghost function FalseLeaves(judge: Judge, ts: Tasks, root: Id): set<Id> {
    set id | id in LeafIds(ts, root) && FalseDone(judge, ts[id])
  }

  /**
   * What one full pass makes of the table: every leaf judged, exactly the false ones put under review and
   * reassigned.
   */
  ghost predicate PassDone(judge: Judge, routing: Routing, supply: Supply, ts: Tasks, us: Tasks, root: Id, at: int)
    requires KeyedById(ts)
  {
    exists mid :: Judged(judge, ts, mid, LeafIds(ts, root), at)
               && Settled(routing, supply, mid, us, FalseLeaves(judge, ts, root), at)
  }

  /** The verdict on a leaf that rests. */
  function ResultFor(judge: Judge, t: Task, at: int): LeafResult {
    LeafResult(t.id, JudgedTask(judge, t, at).state, if FalseDone(judge, t) then REJECT else PASS)
  }

  /** The record after a full pass. */
  function Recorded(watch: WatchRecord, fingerprint: Fingerprint, passed: bool, results: seq<LeafResult>,
          now: int): WatchRecord {
    var stopped := watch.(stoppedFingerprint := Some(fingerprint), lastStoppedAt := Some(now), leaves := results);
    if passed then stopped.(status := Verified, verifiedAt := Some(now), lastVerifiedAt := Some(now),
                            lastVerdict := Some(PASS))
    else stopped.(status := Rejecting, rejectedAt := Some(now), lastVerdict := Some(REJECT))
  }

  /** One call of the gate. */
  datatype Call = Call(root: Id, force: bool, now: int, at: int, supply: Supply)

  /** The parts of the gate that no call changes. */
  datatype Setup = Setup(judge: Judge, routing: Routing, windowMs: int)

  /** What a call that is not nested makes of the table and of the tree's record, and what it answers. */
  ghost predicate GateAnswer(setup: Setup, call: Call, ts: Tasks, us: Tasks, watch: WatchRecord, after: WatchRecord,
          r: VerifyResult)
    requires KeyedById(ts)
  {
    if call.root !in ts then
      r == RootGone && us == ts && after == watch
    else if !Rested(ts, call.root) then
      r == NotRested && us == ts && after == watch.(status := if watch.status == Rejecting then Rejecting else Watching)
    else
      var stop := StopOf(ts, call.root);
      var falseLeaves := FalseLeaves(setup.judge, ts, call.root);
      if Repeats(watch, stop, setup.windowMs, call.force, call.now) then
        r == Suppressed(stop) && us == ts && after == watch
      else
        && r.Verdicts? && r.stoppedFingerprint == stop
        && r.verdict == (if falseLeaves == {} then PASS else REJECT)
        && (forall id :: id in r.rejected <==> id in falseLeaves)
        && PassDone(setup.judge, setup.routing, call.supply, ts, us, call.root, call.at)
        && after == Recorded(watch, stop, falseLeaves == {}, after.leaves, call.now)
        && (forall res ::
              res in after.leaves <==>
              exists id :: id in LeafIds(ts, call.root) && res == ResultFor(setup.judge, ts[id], call.at))
  }
}
