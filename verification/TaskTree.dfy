/** The task vocabulary, the store as a keyed map, and the forest its parent links form. */
module TaskTree {
  import opened Prelude

  type Id = string
  type Agent = string
  type Token = string

  datatype State = Triage | Backlog | Unstarted | Started | Completed | Cancelled

  datatype Severity = P0 | P1 | P2

  /** An execution lock: the right of one agent to mutate a task. */
  datatype Lock = Lock(holder: Agent, token: Token, acquiredAt: int)

  datatype Contract = Contract(expectedResult: string, metric: string, passRange: string)

  /** A metric value as a caller may supply it: absent and empty forms and numbers that are not finite included. */
  datatype Metric =
    | Undefined | NullValue | Text(text: string) | Flag(flag: bool)
    | Numeric(value: real) | NotANumber | Infinite(positive: bool)

  datatype Evidence = Evidence(result: Metric, submittedAt: Option<int>, submittedBy: Option<Agent>)

  datatype Acceptance = Pending | Accepted(checkedAt: int) | Rejected(checkedAt: int, metric: string)

  datatype Escalation = Escalation(severity: Severity, owner: Agent, nextAction: string, raisedAt: int)

  datatype Task = Task(
    id: Id,
    title: string,
    goalAncestry: seq<Id>,
    parentId: Option<Id>,
    state: State,
    assignee: Option<Agent>,
    priority: Option<string>,
    severity: Severity,
    escalation: Option<Escalation>,
    artifactContract: Option<Contract>,
    claimRole: Option<string>,
    locks: seq<Lock>,
    evidence: Option<Evidence>,
    acceptance: Option<Acceptance>,
    autoClosedBy: Option<Id>,
    createdAt: int,
    updatedAt: int,
    completedAt: Option<int>)

  type Tasks = map<Id, Task>

  predicate Claimable(s: State) {
    s == Triage || s == Backlog || s == Unstarted
  }

  predicate Terminal(s: State) {
    s == Completed || s == Cancelled
  }

  predicate Present(m: Metric) {
    m != Undefined && m != NullValue && m != Text("")
  }

  predicate Finite(m: Metric) {
    !m.NotANumber? && !m.Infinite?
  }

  /** What the JSON column keeps of a value: a number that is not finite becomes null. */
  function Stored(m: Metric): Metric {
    if Finite(m) then m else NullValue
  }

  predicate Open(ts: Tasks, id: Id) {
    id in ts && !Terminal(ts[id].state)
  }

  // ---- the forest ----

  /** The stored ancestry of every task is its parent followed by the parent's ancestry. */
  ghost predicate AncestryKept(ts: Tasks) {
    forall id :: id in ts ==> AncestryOf(ts, id)
  }

  ghost predicate AncestryOf(ts: Tasks, id: Id)
    requires id in ts
  {
    match ts[id].parentId
    case None => ts[id].goalAncestry == []
    case Some(p) => p in ts && ts[id].goalAncestry == [p] + ts[p].goalAncestry
  }

  /** A walk along parent links: each task's parent is the next one. */
  ghost predicate ParentPath(ts: Tasks, path: seq<Id>) {
    forall i :: 0 <= i < |path| - 1 ==> path[i] in ts && ts[path[i]].parentId == Some(path[i + 1])
  }

  /** `id` is joined to `root` by one or more parent links. */
  ghost predicate StrictlyBelow(ts: Tasks, root: Id, id: Id) {
    exists path :: |path| >= 2 && path[0] == id && path[|path| - 1] == root && ParentPath(ts, path)
  }

  /** `id` is joined to `root` by parent links through tasks that are all non-terminal, itself included. */
  ghost predicate OpenBelow(ts: Tasks, root: Id, id: Id) {
    exists path :: |path| >= 2 && path[0] == id && path[|path| - 1] == root && ParentPath(ts, path)
      && forall i :: 0 <= i < |path| - 1 ==> Open(ts, path[i])
  }

  /** Each ancestor of a task has the rest of the ancestry as its own. */
  lemma {:induction false} AncestryTail(ts: Tasks, id: Id, k: nat)
    requires AncestryKept(ts) && id in ts && k < |ts[id].goalAncestry|
    ensures ts[id].goalAncestry[k] in ts
    ensures ts[ts[id].goalAncestry[k]].goalAncestry == ts[id].goalAncestry[k + 1..]
    decreases k
  {
    assert AncestryOf(ts, id);
    var p := ts[id].parentId.value;
    var a, b := ts[id].goalAncestry, ts[p].goalAncestry;
    assert a[k + 1..] == b[k..];
    if k > 0 {
      assert a[k] == b[k - 1];
      AncestryTail(ts, p, k - 1);
    }
  }

  lemma AncestorsPresent(ts: Tasks, id: Id)
    requires AncestryKept(ts) && id in ts
    ensures forall a :: a in ts[id].goalAncestry ==> a in ts
  {
    hide AncestryKept;
    forall k | 0 <= k < |ts[id].goalAncestry| ensures ts[id].goalAncestry[k] in ts {
      AncestryTail(ts, id, k);
    }
  }

  /** The stored ancestry is the chain of parent links. */
  lemma {:induction false} AncestryIsParentPath(ts: Tasks, id: Id)
    requires AncestryKept(ts) && id in ts
    ensures ParentPath(ts, [id] + ts[id].goalAncestry)
    ensures var path := [id] + ts[id].goalAncestry;
            path[|path| - 1] in ts && ts[path[|path| - 1]].parentId == None
    decreases |ts[id].goalAncestry|
  {
    assert AncestryOf(ts, id);
    if ts[id].parentId.Some? {
      var p := ts[id].parentId.value;
      AncestryIsParentPath(ts, p);
      assert AncestryOf(ts, p);
      var path := [id] + ts[id].goalAncestry;
      assert path[1..] == [p] + ts[p].goalAncestry;
      forall i | 0 <= i < |path| - 1 ensures path[i] in ts && ts[path[i]].parentId == Some(path[i + 1]) {
        if i > 0 {
          assert path[i] == path[1..][i - 1] && path[i + 1] == path[1..][i];
        }
      }
    }
  }

  /** Parent links never lead back: a task is not its own ancestor. */
  lemma AncestryAcyclic(ts: Tasks, id: Id)
    requires AncestryKept(ts) && id in ts
    ensures id !in ts[id].goalAncestry
  {
    if id in ts[id].goalAncestry {
      var k :| 0 <= k < |ts[id].goalAncestry| && ts[id].goalAncestry[k] == id;
      AncestryTail(ts, id, k);
    }
  }

  /** A walk along parent links follows the stored ancestry. */
  lemma {:induction false} PathFollowsAncestry(ts: Tasks, path: seq<Id>)
    requires AncestryKept(ts) && |path| >= 2 && ParentPath(ts, path)
    ensures path[0] in ts && |path| - 1 <= |ts[path[0]].goalAncestry|
    ensures path[1..] == ts[path[0]].goalAncestry[..|path| - 1]
  {
    assert AncestryOf(ts, path[0]);
    assert path[1..] == [path[1]] + path[2..];
    if |path| > 2 {
      assert ParentPath(ts, path[1..]) by {
        forall i | 0 <= i < |path[1..]| - 1
          ensures path[1..][i] in ts && ts[path[1..][i]].parentId == Some(path[1..][i + 1])
        {
          assert path[1..][i] == path[i + 1] && path[1..][i + 1] == path[i + 2];
        }
      }
      PathFollowsAncestry(ts, path[1..]);
      assert path[1..][1..] == path[2..];
    }
  }

  /** The goal query returns exactly the strict descendants of the goal. */
  lemma GoalQueryExact(ts: Tasks, goal: Id, id: Id)
    requires AncestryKept(ts) && id in ts
    ensures goal in ts[id].goalAncestry <==> StrictlyBelow(ts, goal, id)
  {
    var a := ts[id].goalAncestry;
    if goal in a {
      var k :| 0 <= k < |a| && a[k] == goal;
      AncestryIsParentPath(ts, id);
      PathPrefix(ts, [id] + a, k + 2);
      var path := ([id] + a)[..k + 2];
      assert path[0] == id && path[|path| - 1] == goal;
    }
    if StrictlyBelow(ts, goal, id) {
      var path :| |path| >= 2 && path[0] == id && path[|path| - 1] == goal && ParentPath(ts, path);
      PathFollowsAncestry(ts, path);
      assert a[|path| - 2] == path[1..][|path| - 2];
    }
  }

  lemma PathPrefix(ts: Tasks, path: seq<Id>, n: nat)
    requires ParentPath(ts, path) && n <= |path|
    ensures ParentPath(ts, path[..n])
  {
    forall i | 0 <= i < n - 1 ensures path[..n][i] in ts && ts[path[..n][i]].parentId == Some(path[..n][i + 1]) {
      assert path[..n][i] == path[i] && path[..n][i + 1] == path[i + 1];
    }
  }

  // ---- closing a subtree ----

  /** The ancestry form of OpenBelow: `root` is ancestor number `k`, everything before it is open. */
  ghost predicate OpenUpTo(ts: Tasks, root: Id, id: Id, k: nat)
    requires id in ts
  {
    && k < |ts[id].goalAncestry| && ts[id].goalAncestry[k] == root
    && Open(ts, id) && forall j :: 0 <= j < k ==> Open(ts, ts[id].goalAncestry[j])
  }

  lemma OpenUpToIsOpenBelow(ts: Tasks, root: Id, id: Id, k: nat)
    requires AncestryKept(ts) && id in ts && OpenUpTo(ts, root, id, k)
    ensures OpenBelow(ts, root, id)
  {
    var a := ts[id].goalAncestry;
    AncestryIsParentPath(ts, id);
    PathPrefix(ts, [id] + a, k + 2);
    var path := ([id] + a)[..k + 2];
    assert path[0] == id && path[|path| - 1] == root;
    forall i | 0 <= i < |path| - 1 ensures Open(ts, path[i]) {
      assert i > 0 ==> path[i] == a[i - 1];
    }
  }

  lemma OpenBelowIsOpenUpTo(ts: Tasks, root: Id, id: Id)
    requires AncestryKept(ts) && id in ts
    ensures OpenBelow(ts, root, id) <==> exists k: nat :: OpenUpTo(ts, root, id, k)
  {
    if k: nat :| OpenUpTo(ts, root, id, k) {
      OpenUpToIsOpenBelow(ts, root, id, k);
    }
    if OpenBelow(ts, root, id) {
      var path :| |path| >= 2 && path[0] == id && path[|path| - 1] == root && ParentPath(ts, path)
        && forall i :: 0 <= i < |path| - 1 ==> Open(ts, path[i]);
      PathFollowsAncestry(ts, path);
      var k := |path| - 2;
      assert forall j :: 0 <= j <= k ==> ts[id].goalAncestry[j] == path[1..][j] == path[j + 1];
      assert OpenUpTo(ts, root, id, k);
    }
  }

  /** What auto-close makes of a task: closed by its direct parent, assignee and locks gone. */
  function ClosedTask(t: Task, closeState: State, now: int): Task {
    t.(state := closeState, assignee := None, locks := [], autoClosedBy := t.parentId,
       completedAt := if closeState == Completed then Some(now) else t.completedAt, updatedAt := now)
  }

  /** The store after the open subtree below `root` is closed. */
  ghost function CloseBelow(ts: Tasks, root: Id, closeState: State, now: int): (r: Tasks)
    ensures r.Keys == ts.Keys
  {
    map id | id in ts :: if OpenBelow(ts, root, id) then ClosedTask(ts[id], closeState, now) else ts[id]
  }

  /** The store after the children `cs` and the open subtrees below them are closed. */
  ghost function CloseChildren(ts: Tasks, cs: seq<Id>, closeState: State, now: int): (r: Tasks)
    ensures r.Keys == ts.Keys
  {
    map id | id in ts :: if InSubtrees(ts, cs, id) then ClosedTask(ts[id], closeState, now) else ts[id]
  }

  ghost predicate InSubtrees(ts: Tasks, cs: seq<Id>, id: Id) {
    id in cs || exists c :: c in cs && OpenBelow(ts, c, id)
  }

  /** Two stores that differ in task fields only, never in the shape of the forest. */
  ghost predicate SameShape(ts: Tasks, us: Tasks) {
    ts.Keys == us.Keys
    && forall id :: id in ts ==> ts[id].parentId == us[id].parentId && ts[id].goalAncestry == us[id].goalAncestry
  }

  lemma ShapeKeepsAncestry(ts: Tasks, us: Tasks)
    requires AncestryKept(ts) && SameShape(ts, us)
    ensures AncestryKept(us)
  {
    forall id | id in us ensures AncestryOf(us, id) {
      assert AncestryOf(ts, id);
    }
  }

  /** Whether a task is in the open subtree below `c` depends only on the tasks that have `c` as an ancestor. */
  lemma OpenBelowFrame(ts: Tasks, us: Tasks, c: Id, id: Id)
    requires AncestryKept(ts) && SameShape(ts, us) && id in ts
    requires forall x :: x in ts && c in ts[x].goalAncestry ==> Open(ts, x) == Open(us, x)
    ensures OpenBelow(ts, c, id) <==> OpenBelow(us, c, id)
  {
    ShapeKeepsAncestry(ts, us);
    OpenBelowIsOpenUpTo(ts, c, id);
    OpenBelowIsOpenUpTo(us, c, id);
    var a := ts[id].goalAncestry;
    forall k: nat ensures OpenUpTo(ts, c, id, k) <==> OpenUpTo(us, c, id, k) {
      if k < |a| && a[k] == c {
        assert c in a;
        forall j | 0 <= j < k ensures Open(ts, a[j]) == Open(us, a[j]) {
          AncestryTail(ts, id, j);
          assert a[j + 1..][k - j - 1] == c;
        }
      }
    }
  }

  /** Ancestors at the same depth of one task are the same ancestor. */
  lemma SiblingsDisjoint(ts: Tasks, c: Id, d: Id, id: Id)
    requires AncestryKept(ts) && c in ts && d in ts && id in ts
    requires ts[c].parentId == ts[d].parentId
    requires c in ts[id].goalAncestry && (d == id || d in ts[id].goalAncestry)
    ensures c == d
  {
    hide AncestryKept;
    var a := ts[id].goalAncestry;
    SiblingsShareAncestry(ts, c, d);
    var k :| 0 <= k < |a| && a[k] == c;
    AncestryTail(ts, id, k);
    if d in a {
      var n :| 0 <= n < |a| && a[n] == d;
      AncestryTail(ts, id, n);
    }
  }

  lemma SiblingsShareAncestry(ts: Tasks, c: Id, d: Id)
    requires AncestryKept(ts) && c in ts && d in ts && ts[c].parentId == ts[d].parentId
    ensures ts[c].goalAncestry == ts[d].goalAncestry
  {
    assert AncestryOf(ts, c) && AncestryOf(ts, d);
  }

  lemma OpenBelowInAncestry(ts: Tasks, root: Id, id: Id)
    requires AncestryKept(ts) && id in ts && OpenBelow(ts, root, id)
    ensures root in ts[id].goalAncestry && Open(ts, id)
  {
    OpenBelowIsOpenUpTo(ts, root, id);
  }

  lemma ChildOfOpenBelow(ts: Tasks, root: Id, id: Id, k: nat) returns (c: Id)
    requires AncestryKept(ts) && id in ts && OpenUpTo(ts, root, id, k)
    ensures Open(ts, c) && ts[c].parentId == Some(root)
    ensures id == c || OpenBelow(ts, c, id)
  {
    hide OpenBelow;
    var path := [id] + ts[id].goalAncestry;
    AncestryIsParentPath(ts, id);
    c := path[k];
    assert path[k + 1] == root;
    if k > 0 {
      assert OpenUpTo(ts, c, id, k - 1);
      OpenUpToIsOpenBelow(ts, c, id, k - 1);
    }
  }

  lemma OpenBelowThroughChild(ts: Tasks, root: Id, c: Id, id: Id)
    requires AncestryKept(ts) && id in ts && Open(ts, c) && ts[c].parentId == Some(root)
    requires id == c || OpenBelow(ts, c, id)
    ensures OpenBelow(ts, root, id)
  {
    hide OpenBelow;
    assert AncestryOf(ts, c);
    if id == c {
      OpenUpToIsOpenBelow(ts, root, id, 0);
    } else {
      OpenBelowIsOpenUpTo(ts, c, id);
      var k: nat :| OpenUpTo(ts, c, id, k);
      AncestryTail(ts, id, k);
      assert ts[id].goalAncestry[k + 1] == root;
      OpenUpToIsOpenBelow(ts, root, id, k + 1);
    }
  }

  /** The open subtree below a task is its open children and the open subtrees below them. */
  lemma OpenBelowByChild(ts: Tasks, root: Id, cs: seq<Id>, id: Id)
    requires AncestryKept(ts) && id in ts
    requires forall c :: c in cs <==> Open(ts, c) && ts[c].parentId == Some(root)
    ensures OpenBelow(ts, root, id) <==> InSubtrees(ts, cs, id)
  {
    hide OpenBelow;
    if OpenBelow(ts, root, id) {
      OpenBelowIsOpenUpTo(ts, root, id);
      var k: nat :| OpenUpTo(ts, root, id, k);
      var c := ChildOfOpenBelow(ts, root, id, k);
      assert c in cs;
    }
    if c :| c in cs && (id == c || OpenBelow(ts, c, id)) {
      OpenBelowThroughChild(ts, root, c, id);
    }
  }
}
