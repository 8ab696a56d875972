/** The fleet-watchdog service over the task queue: watch records, the re-entrancy guard and the verification pass. */
module Watchdog {
  import opened Prelude
  import opened TaskTree
  import opened TasksService
  import opened WatchedTree
  import Strings

  /** No watched tree lies inside another one that contains a task of `root`'s tree. */
  ghost predicate Apart(ts: Tasks, watched: set<Id>, root: Id) {
    forall w :: w in watched && w != root ==> !Contains(ts, root, w) && !Contains(ts, w, root)
  }

  class FleetWatchdog {
    const queue: FleetTasks
    const reverifyWindowMs: int
    const routing: Routing
    var watches: map<Id, WatchRecord>
    var verifying: set<Id>

    constructor (queue: FleetTasks, reverifyWindowMs: int, routing: Routing)
      ensures this.queue == queue && this.reverifyWindowMs == reverifyWindowMs && this.routing == routing
      ensures watches == map[] && verifying == {}
    {
      this.queue := queue;
      this.reverifyWindowMs := reverifyWindowMs;
      this.routing := routing;
      this.watches := map[];
      this.verifying := {};
    }

    /** What a call that is not nested in a pass over the same tree relies on. */
    ghost predicate Ready(call: Call)
      reads this, queue
    {
      && TableKept(queue.tasks)
      && Apart(queue.tasks, watches.Keys, call.root)
      && FreshFor(call.supply, queue.tasks.Keys + watches.Keys)
    }

    /** Watches a tree and runs the gate on it; a tree that is already watched keeps its record. */
    method Watch(call: Call, createdAt: int) returns (r: Option<VerifyResult>)
      requires call.root !in verifying ==>
                 && TableKept(queue.tasks) && Apart(queue.tasks, watches.Keys, call.root)
                 && FreshFor(call.supply, queue.tasks.Keys + (watches.Keys + {call.root}))
      modifies this, queue
      ensures verifying == old(verifying)
      ensures r.None? <==> call.root !in old(queue.tasks)
      ensures r.None? ==> watches == old(watches) && queue.tasks == old(queue.tasks)
      ensures r.Some? ==>
                var start := if call.root in old(watches) then old(watches)[call.root]
                  else NewRecord(call.root, createdAt);
                && call.root in watches && watches == old(watches)[call.root := watches[call.root]]
                && (call.root in old(verifying) ==>
                      r.value == InProgress && queue.tasks == old(queue.tasks) && watches[call.root] == start)
                && (call.root !in old(verifying) ==>
                      && KeyedById(old(queue.tasks))
                      && GateAnswer(Setup(queue.judge, routing, reverifyWindowMs), call, old(queue.tasks), queue.tasks,
                                    start, watches[call.root], r.value))
    {
      hide AncestryKept, TaskKept, GateAnswer, FreshFor, Contains;
      if call.root !in queue.tasks { return None; }
      ghost var watched := watches.Keys;
      if call.root !in watches {
        watches := watches[call.root := NewRecord(call.root, createdAt)];
      }
      assert watches.Keys == watched + {call.root};
      var answer := Verify(call);
      return Some(answer);
    }

    method Unwatch(treeRootId: Id) returns (was: bool)
      modifies this`watches
      ensures was <==> treeRootId in old(watches)
      ensures watches == old(watches) - {treeRootId}
    {
      was := treeRootId in watches;
      watches := watches - {treeRootId};
    }

    /** The gate. A call on a tree that is already being verified changes nothing. */
    method Verify(call: Call) returns (r: VerifyResult)
      requires call.root in watches && call.root !in verifying ==> Ready(call)
      modifies this, queue
      ensures verifying == old(verifying)
      ensures call.root !in old(watches) ==>
                r == NotWatched && queue.tasks == old(queue.tasks) && watches == old(watches)
      ensures call.root in old(watches) && call.root in old(verifying) ==>
                r == InProgress && queue.tasks == old(queue.tasks) && watches == old(watches)
      ensures call.root in old(watches) && call.root !in old(verifying) ==>
                && KeyedById(old(queue.tasks))
                && watches.Keys == old(watches.Keys)
                && watches == old(watches)[call.root := watches[call.root]]
                && GateAnswer(Setup(queue.judge, routing, reverifyWindowMs), call, old(queue.tasks), queue.tasks,
                              old(watches)[call.root], watches[call.root], r)
      decreases |watches.Keys - verifying|, 2
    {
      hide AncestryKept, IsLeaf, TaskKept, GateAnswer, Apart, FreshFor, Contains, Listed;
      if call.root !in watches { return NotWatched; }
      if call.root in verifying { return InProgress; }
      ghost var ts, watch := queue.tasks, watches[call.root];
      KeptKeys(ts);
      if call.root !in queue.tasks {
        GoneAnswer(Setup(queue.judge, routing, reverifyWindowMs), call, ts, watch);
        return RootGone;
      }
      var leaves := ComputeLeaves(call.root);
      LeafList(ts, call.root, leaves);
      if |leaves| == 0 || exists i :: 0 <= i < |leaves| && !Terminal(leaves[i].state) {
        if watches[call.root].status != Rejecting {
          watches := watches[call.root := watches[call.root].(status := Watching)];
        }
        UnrestedAnswer(Setup(queue.judge, routing, reverifyWindowMs), call, ts, watch);
        return NotRested;
      }
      var stops := set i | 0 <= i < |leaves| :: LeafStop(leaves[i].id, leaves[i].state, leaves[i].artifactContract);
      var fingerprint := Fingerprint(call.root, stops);
      if && !call.force && watches[call.root].stoppedFingerprint == Some(fingerprint)
         && watches[call.root].lastVerifiedAt.Some?
            && call.now - watches[call.root].lastVerifiedAt.value < reverifyWindowMs
      {
        RepeatedAnswer(Setup(queue.judge, routing, reverifyWindowMs), call, ts, watch);
        return Suppressed(fingerprint);
      }
      r := Pass(call, leaves, fingerprint);
    }

    /** The verification pass proper, inside the re-entrancy guard. */
    method Pass(call: Call, leaves: seq<Task>, fingerprint: Fingerprint) returns (r: VerifyResult)
      requires call.root in watches && call.root !in verifying
      requires TableKept(queue.tasks) && KeyedById(queue.tasks)
      requires Apart(queue.tasks, watches.Keys, call.root) && FreshFor(call.supply, queue.tasks.Keys + watches.Keys)
      requires Listed(queue.tasks, leaves) && IdSet(leaves) == LeafIds(queue.tasks, call.root)
      requires call.root in queue.tasks && Rested(queue.tasks, call.root)
      requires fingerprint == StopOf(queue.tasks, call.root)
      requires !Repeats(watches[call.root], fingerprint, reverifyWindowMs, call.force, call.now)
      modifies this, queue
      ensures verifying == old(verifying)
      ensures watches.Keys == old(watches.Keys)
      ensures watches == old(watches)[call.root := watches[call.root]]
      ensures GateAnswer(Setup(queue.judge, routing, reverifyWindowMs), call, old(queue.tasks), queue.tasks,
                         old(watches)[call.root], watches[call.root], r)
      decreases |watches.Keys - verifying|, 1
    {
      hide *;
      ghost var ts, watch, watched := queue.tasks, watches[call.root], watches.Keys;
      LeavesReady(ts, watched, verifying + {call.root}, call.root, leaves);
      GuardShrinks(watches.Keys, verifying, call.root);
      verifying := verifying + {call.root};
      watches := watches[call.root :=
                           watches[call.root].(status := Verifying, stoppedFingerprint := Some(fingerprint),
                                               lastStoppedAt := Some(call.now))];
      assert watches.Keys == watched;
      var results, rejected := JudgeLeaves(call, leaves);
      ghost var mid := queue.tasks;
      JudgedKeys(queue.judge, ts, mid, IdSet(leaves), call.at);
      RejectedReady(queue.judge, ts, mid, watched, verifying, leaves, rejected, call.at);
      assert watches.Keys == watched;
      assert mid.Keys + watches.Keys == ts.Keys + watched;
      Conclude(call, rejected, results);
      RecordedInSteps(watch, fingerprint, results, call.now);
      r := Verdicts(fingerprint, if |rejected| > 0 then REJECT else PASS,
                    seq(|rejected|, i requires 0 <= i < |rejected| => rejected[i].id));
      PassAnswer(Setup(queue.judge, routing, reverifyWindowMs), call, ts, mid, queue.tasks, watch, leaves, rejected,
                 results, r);
      verifying := verifying - {call.root};
    }

    /** The verdict on the record; after a REJECT also the review and the reassignment of each false leaf. */
    method Conclude(call: Call, rejected: seq<Task>, results: seq<LeafResult>)
      requires call.root in watches
      requires KeyedById(queue.tasks) && FreshFor(call.supply, queue.tasks.Keys + watches.Keys)
      requires forall i :: 0 <= i < |rejected| ==>
                 rejected[i].id in queue.tasks && SameLeaf(queue.tasks[rejected[i].id], rejected[i])
      requires forall i :: 0 <= i < |rejected| ==> EnclosedBy(queue.tasks, watches.Keys, verifying, rejected[i].id)
      requires forall i, j :: 0 <= i < j < |rejected| ==> rejected[i].id != rejected[j].id
      modifies this, queue
      ensures verifying == old(verifying)
      ensures var w := old(watches)[call.root];
              watches == old(watches)[call.root :=
                if |rejected| > 0 then w.(status := Rejecting, rejectedAt := Some(call.now),
                                          lastVerdict := Some(REJECT), leaves := results)
                else w.(status := Verified, verifiedAt := Some(call.now), lastVerifiedAt := Some(call.now),
                        lastVerdict := Some(PASS), leaves := results)]
      ensures IdSet(rejected) <= old(queue.tasks).Keys
      ensures Settled(routing, call.supply, old(queue.tasks), queue.tasks, IdSet(rejected), call.at)
      decreases |watches.Keys - verifying|, 6
    {
      hide *;
      ghost var watched := watches.Keys;
      if |rejected| > 0 {
        watches := watches[call.root :=
                             watches[call.root].(status := Rejecting, rejectedAt := Some(call.now),
                                                 lastVerdict := Some(REJECT))];
        assert watches.Keys == watched;
        RejectLeaves(call, rejected);
      } else {
        watches := watches[call.root :=
                             watches[call.root].(status := Verified, verifiedAt := Some(call.now),
                                                 lastVerifiedAt := Some(call.now), lastVerdict := Some(PASS))];
        NothingSettled(routing, call.supply, queue.tasks, rejected, call.at);
      }
      watches := watches[call.root := watches[call.root].(leaves := results)];
    }

    method JudgeLeaves(call: Call, leaves: seq<Task>) returns (results: seq<LeafResult>, rejected: seq<Task>)
      requires Listed(queue.tasks, leaves)
      requires forall i :: 0 <= i < |leaves| ==> Terminal(leaves[i].state)
      requires forall i :: 0 <= i < |leaves| ==> EnclosedBy(queue.tasks, watches.Keys, verifying, leaves[i].id)
      modifies this, queue
      ensures watches == old(watches) && verifying == old(verifying)
      ensures Judged(queue.judge, old(queue.tasks), queue.tasks, IdSet(leaves), call.at)
      ensures Listed(old(queue.tasks), rejected)
      ensures forall x :: x in rejected <==> x in leaves && FalseDone(queue.judge, x)
      ensures |results| == |leaves| && forall i :: 0 <= i < |leaves| ==>
                results[i] == ResultFor(queue.judge, leaves[i], call.at)
      decreases |watches.Keys - verifying|, 5
    {
      hide Judged, FalseDone, ResultFor, Contains, TaskKept;
      ghost var ts := queue.tasks;
      results, rejected := [], [];
      JudgedNone(queue.judge, ts, call.at);
      for i := 0 to |leaves|
        invariant watches == old(watches) && verifying == old(verifying)
        invariant Judged(queue.judge, ts, queue.tasks, IdSet(leaves[..i]), call.at)
        invariant Listed(ts, rejected)
        invariant forall x :: x in rejected <==> x in leaves[..i] && FalseDone(queue.judge, x)
        invariant |results| == i && forall k :: 0 <= k < i ==> results[k] == ResultFor(queue.judge, leaves[k], call.at)
      {
        JudgedNext(queue.judge, ts, queue.tasks, leaves, i, call.at);
        EnclosedAlike(ts, queue.tasks, watches.Keys, verifying, leaves[i].id);
        var result := VerifyLeaf(call, leaves[i]);
        results := results + [result];
        if result.verdict == REJECT {
          rejected := rejected + [leaves[i]];
        }
        assert leaves[..i + 1] == leaves[..i] + [leaves[i]];
      }
      assert leaves[..|leaves|] == leaves;
    }

    /** One stopped leaf: the structural evidence check, then `accept`, then the task event it causes. */
    method VerifyLeaf(call: Call, leaf: Task) returns (result: LeafResult)
      requires leaf.id in queue.tasks && queue.tasks[leaf.id] == leaf && Terminal(leaf.state)
      requires EnclosedBy(queue.tasks, watches.Keys, verifying, leaf.id)
      modifies this, queue
      ensures watches == old(watches) && verifying == old(verifying)
      ensures queue.tasks == old(queue.tasks)[leaf.id := JudgedTask(queue.judge, leaf, call.at)]
      ensures result == ResultFor(queue.judge, leaf, call.at)
      ensures result.verdict == REJECT <==> FalseDone(queue.judge, leaf)
      decreases |watches.Keys - verifying|, 4
    {
      if leaf.state == Cancelled { return LeafResult(leaf.id, leaf.state, PASS); }
      var present := leaf.evidence.Some? && leaf.evidence.value.result != Undefined
        && leaf.evidence.value.result != NullValue && leaf.evidence.value.result != Text("");
      var check := leaf.artifactContract.Some? && Satisfies(queue.judge, leaf.artifactContract.value, leaf.evidence);
      var accepted := queue.Accept(leaf.id, None, None, call.at);
      Observe(call, leaf.id);
      if leaf.artifactContract.None? { return LeafResult(leaf.id, Completed, PASS); }
      if !present { return LeafResult(leaf.id, accepted.value.1.state, REJECT); }
      if check { return LeafResult(leaf.id, Completed, PASS); }
      return LeafResult(leaf.id, accepted.value.1.state, REJECT);
    }

    method RejectLeaves(call: Call, rejected: seq<Task>)
      requires KeyedById(queue.tasks) && FreshFor(call.supply, queue.tasks.Keys + watches.Keys)
      requires forall i :: 0 <= i < |rejected| ==>
                 rejected[i].id in queue.tasks && SameLeaf(queue.tasks[rejected[i].id], rejected[i])
      requires forall i :: 0 <= i < |rejected| ==> EnclosedBy(queue.tasks, watches.Keys, verifying, rejected[i].id)
      requires forall i, j :: 0 <= i < j < |rejected| ==> rejected[i].id != rejected[j].id
      modifies this, queue
      ensures watches == old(watches) && verifying == old(verifying)
      ensures IdSet(rejected) <= old(queue.tasks).Keys
      ensures Settled(routing, call.supply, old(queue.tasks), queue.tasks, IdSet(rejected), call.at)
      decreases |watches.Keys - verifying|, 5
    {
      hide Settled, FreshFor, Contains, SameLeaf;
      ghost var ts := queue.tasks;
      NothingSettled(routing, call.supply, ts, rejected[..0], call.at);
      for i := 0 to |rejected|
        invariant watches == old(watches) && verifying == old(verifying)
        invariant IdSet(rejected[..i]) <= ts.Keys
        invariant Settled(routing, call.supply, ts, queue.tasks, IdSet(rejected[..i]), call.at)
      {
        SettledNext(routing, call.supply, ts, queue.tasks, watches.Keys, rejected, i, call.at);
        EnclosedAlike(ts, queue.tasks, watches.Keys, verifying, rejected[i].id);
        HandleReject(call, rejected[i]);
      }
      assert rejected[..|rejected|] == rejected;
    }

    /** A false-done leaf: a review task below it and, where routing names an agent, a new claim. */
    method HandleReject(call: Call, leaf: Task)
      requires leaf.id in queue.tasks && SameLeaf(queue.tasks[leaf.id], leaf) && queue.tasks[leaf.id].id == leaf.id
      requires call.supply.reviewId(leaf.id) !in queue.tasks && call.supply.reviewId(leaf.id) !in watches
      requires EnclosedBy(queue.tasks, watches.Keys, verifying, leaf.id)
      modifies this, queue
      ensures watches == old(watches) && verifying == old(verifying)
      ensures var reviewId := call.supply.reviewId(leaf.id);
              var t := old(queue.tasks)[leaf.id];
              queue.tasks == old(queue.tasks)[reviewId := NewTask(old(queue.tasks), ReviewInput(t), reviewId, call.at)]
                                             [leaf.id := ReassignedTask(routing, call.supply, t, call.at)]
      decreases |watches.Keys - verifying|, 4
    {
      hide CreateIn, ClaimIn, NewTask, ClaimedTask, ReassignedTask;
      ghost var ts := queue.tasks;
      var reviewId := call.supply.reviewId(leaf.id);
      RejectSpec(routing, call.supply, ts, watches.Keys, verifying, leaf, reviewId, call.at);
      var review := queue.Create(ReviewInput(leaf), reviewId, call.at);
      Observe(call, reviewId);
      var agent := routing(leaf.claimRole);
      if agent.Some? {
        var claim := queue.Claim(leaf.id, agent.value, call.supply.token(leaf.id), call.at);
        if claim.Ok? {
          Observe(call, leaf.id);
        }
      }
    }

    /**
     * A task event: every watch whose tree contains the task runs the gate. Inside a pass over the tree that
     * changes nothing; outside, at most one watched tree contains the task.
     */
    method Observe(call: Call, id: Id)
      requires forall w :: w in watches && Contains(queue.tasks, w, id) && w !in verifying ==>
                 Ready(call.(root := w, force := false))
      modifies this, queue
      ensures verifying == old(verifying)
      ensures EnclosedBy(old(queue.tasks), old(watches).Keys, old(verifying), id) ==>
                watches == old(watches) && queue.tasks == old(queue.tasks)
      ensures forall w :: w in old(watches) && Contains(old(queue.tasks), w, id) && w !in old(verifying) ==>
                && KeyedById(old(queue.tasks)) && w in watches && watches == old(watches)[w := watches[w]]
                && exists r :: GateAnswer(Setup(queue.judge, routing, reverifyWindowMs),
                                          call.(root := w, force := false),
                                          old(queue.tasks), queue.tasks, old(watches)[w], watches[w], r)
      decreases |watches.Keys - verifying|, 3
    {
      hide GateAnswer, AncestryKept, TaskKept, FreshFor;
      if id !in queue.tasks { return; }
      var task := queue.tasks[id];
      ghost var ts, ws := queue.tasks, watches;
      ghost var gated: Option<Id> := None;
      var rest := watches.Keys;
      while rest != {}
        invariant rest <= ws.Keys && watches.Keys == ws.Keys && verifying == old(verifying)
        invariant gated.None? ==>
                    && watches == ws && queue.tasks == ts
                    && forall w :: w in ws.Keys - rest && Contains(ts, w, id) ==> w in verifying
        invariant gated.Some? ==>
                    && gated.value in ws.Keys - rest && Contains(ts, gated.value, id) && gated.value !in verifying
                    && KeyedById(ts) && watches == ws[gated.value := watches[gated.value]]
                    && exists r :: GateAnswer(Setup(queue.judge, routing, reverifyWindowMs),
                                              call.(root := gated.value, force := false),
                                              ts, queue.tasks, ws[gated.value], watches[gated.value], r)
      {
        HasText(rest);
        var root :| root in rest;
        rest := rest - {root};
        if root == id || root in task.goalAncestry {
          if gated.Some? {
            OneWatch(ts, ws.Keys, gated.value, root, id);
          }
          ghost var free := root !in verifying;
          var answer := Verify(call.(root := root, force := false));
          if free {
            gated := Some(root);
          }
        }
      }
      if gated.Some? {
        forall w | w in ws && Contains(ts, w, id) && w !in verifying ensures w == gated.value {
          OneWatch(ts, ws.Keys, gated.value, w, id);
        }
      }
    }

    /** The leaf set of a tree: each leaf once, as the table holds it. */
    method ComputeLeaves(treeRootId: Id) returns (leaves: seq<Task>)
      requires AncestryKept(queue.tasks) && KeyedById(queue.tasks)
      ensures Listed(queue.tasks, leaves)
      ensures forall id :: id in Ids(leaves) <==> id in queue.tasks && IsLeaf(queue.tasks, treeRootId, id)
    {
      hide AncestryKept, Watched, IsReview;
      ghost var ts := queue.tasks;
      if treeRootId !in queue.tasks {
        NoLeavesWithoutRoot(ts, treeRootId);
        return [];
      }
      var reviewIds := ReviewIds();
      var nonReview := set id | id in queue.tasks
        && (id == treeRootId || treeRootId in queue.tasks[id].goalAncestry)
        && queue.tasks[id].claimRole != Some(REVIEW_ROLE)
        && !exists a :: a in queue.tasks[id].goalAncestry && a in reviewIds;
      forall id | id in ts ensures id in nonReview <==> Watched(ts, treeRootId, id) {
        WatchedByAncestry(ts, treeRootId, id);
      }
      var parentIds := ParentIds(nonReview);
      leaves := ListOf(nonReview - parentIds);
    }

    method ReviewIds() returns (reviewIds: set<Id>)
      ensures forall id :: id in reviewIds <==> IsReview(queue.tasks, id)
    {
      reviewIds := {};
      var rest := queue.tasks.Keys;
      while rest != {}
        invariant rest <= queue.tasks.Keys
        invariant forall id :: id in reviewIds <==> id !in rest && IsReview(queue.tasks, id)
      {
        HasText(rest);
        var id :| id in rest;
        rest := rest - {id};
        if queue.tasks[id].claimRole == Some(REVIEW_ROLE) {
          reviewIds := reviewIds + {id};
        }
      }
    }

    method ParentIds(children: set<Id>) returns (parentIds: set<Id>)
      requires children <= queue.tasks.Keys
      ensures forall p :: p in parentIds <==> exists c :: c in children && queue.tasks[c].parentId == Some(p)
    {
      parentIds := {};
      var rest := children;
      while rest != {}
        invariant rest <= children
        invariant forall p :: p in parentIds <==> exists c :: c in children - rest && queue.tasks[c].parentId == Some(p)
      {
        HasText(rest);
        var id :| id in rest;
        rest := rest - {id};
        if queue.tasks[id].parentId.Some? {
          parentIds := parentIds + {queue.tasks[id].parentId.value};
        }
      }
    }

    method ListOf(ids: set<Id>) returns (list: seq<Task>)
      requires KeyedById(queue.tasks) && ids <= queue.tasks.Keys
      ensures Listed(queue.tasks, list)
      ensures forall id :: id in Ids(list) <==> id in ids
    {
      list := [];
      var rest := ids;
      while rest != {}
        invariant rest <= ids && Listed(queue.tasks, list)
        invariant forall id :: id in Ids(list) <==> id in ids && id !in rest
      {
        HasText(rest);
        var id :| id in rest;
        rest := rest - {id};
        IdsAppend(list, queue.tasks[id]);
        assert forall i :: 0 <= i < |list| ==> Ids(list)[i] != id;
        list := list + [queue.tasks[id]];
      }
    }
  }

  /** Tasks as the table holds them, each once. */
  ghost predicate Listed(ts: Tasks, list: seq<Task>) {
    && (forall i :: 0 <= i < |list| ==> list[i].id in ts && list[i] == ts[list[i].id])
    && (forall i, j :: 0 <= i < j < |list| ==> list[i].id != list[j].id)
  }

  /** At most one watched tree that stands apart contains a task. */
  lemma OneWatch(ts: Tasks, watched: set<Id>, root: Id, other: Id, id: Id)
    requires TableKept(ts) && Apart(ts, watched, root) && root in watched && other in watched
    requires Contains(ts, root, id) && Contains(ts, other, id)
    ensures other == root
  {
    hide AncestryKept;
    if other != root {
      TreesApart(ts, root, other, id);
    }
  }

  ghost function IdSet(list: seq<Task>): set<Id> {
    set i | 0 <= i < |list| :: list[i].id
  }

  /** Every watched tree that contains the task is being verified. */
  ghost predicate EnclosedBy(ts: Tasks, watched: set<Id>, verifying: set<Id>, id: Id) {
    forall w :: w in watched && Contains(ts, w, id) ==> w in verifying
  }

  /** What a review and a reassignment need of a judged leaf is as in the stopped one. */
  predicate SameLeaf(t: Task, leaf: Task) {
    t.id == leaf.id && t.title == leaf.title && t.claimRole == leaf.claimRole && t.goalAncestry == leaf.goalAncestry
  }

  lemma KeptKeys(ts: Tasks)
    requires TableKept(ts)
    ensures KeyedById(ts) && AncestryKept(ts) && forall id :: id in ts ==> TaskKept(id, ts[id])
  {
  }

  lemma GoneAnswer(setup: Setup, call: Call, ts: Tasks, watch: WatchRecord)
    requires KeyedById(ts) && call.root !in ts
    ensures GateAnswer(setup, call, ts, ts, watch, watch, RootGone)
  {
  }

  lemma UnrestedAnswer(setup: Setup, call: Call, ts: Tasks, watch: WatchRecord)
    requires KeyedById(ts) && call.root in ts && !Rested(ts, call.root)
    ensures GateAnswer(setup, call, ts, ts, watch,
                       watch.(status := if watch.status == Rejecting then Rejecting else Watching), NotRested)
  {
  }

  lemma RepeatedAnswer(setup: Setup, call: Call, ts: Tasks, watch: WatchRecord)
    requires KeyedById(ts) && call.root in ts && Rested(ts, call.root)
    requires Repeats(watch, StopOf(ts, call.root), setup.windowMs, call.force, call.now)
    ensures GateAnswer(setup, call, ts, ts, watch, watch, Suppressed(StopOf(ts, call.root)))
  {
  }

  /** The list of leaves against the definitions over the leaf set. */
  lemma LeafList(ts: Tasks, root: Id, leaves: seq<Task>)
    requires Listed(ts, leaves) && forall id :: id in Ids(leaves) <==> id in ts && IsLeaf(ts, root, id)
    ensures IdSet(leaves) == LeafIds(ts, root)
    ensures Rested(ts, root) <==> |leaves| > 0 && forall i :: 0 <= i < |leaves| ==> Terminal(leaves[i].state)
    ensures var stops := set i | 0 <= i < |leaves| ::
                           LeafStop(leaves[i].id, leaves[i].state, leaves[i].artifactContract);
            StopOf(ts, root) == Fingerprint(root, stops)
  {
    hide IsLeaf;
    forall i | 0 <= i < |leaves| ensures leaves[i].id in LeafIds(ts, root) && leaves[i] == ts[leaves[i].id] {
      assert Ids(leaves)[i] == leaves[i].id;
    }
    forall id | id in LeafIds(ts, root)
      ensures exists i :: 0 <= i < |leaves| && leaves[i].id == id && leaves[i] == ts[id]
    {
      assert id in Ids(leaves);
      var i :| 0 <= i < |leaves| && Ids(leaves)[i] == id;
      assert leaves[i].id == id;
    }
    ghost var stops := set i | 0 <= i < |leaves| :: LeafStop(leaves[i].id, leaves[i].state, leaves[i].artifactContract);
    assert StopOf(ts, root).leaves == stops;
    if |leaves| > 0 {
      assert leaves[0].id in LeafIds(ts, root);
    }
  }

  lemma RecordedInSteps(watch: WatchRecord, fingerprint: Fingerprint, results: seq<LeafResult>, now: int)
    ensures var stopped := watch.(status := Verifying, stoppedFingerprint := Some(fingerprint),
                                  lastStoppedAt := Some(now));
            && stopped.(status := Rejecting, rejectedAt := Some(now), lastVerdict := Some(REJECT), leaves := results)
               == Recorded(watch, fingerprint, false, results, now)
            && stopped.(status := Verified, verifiedAt := Some(now), lastVerifiedAt := Some(now),
                        lastVerdict := Some(PASS), leaves := results)
               == Recorded(watch, fingerprint, true, results, now)
  {
  }

  lemma GuardShrinks(watched: set<Id>, verifying: set<Id>, root: Id)
    requires root in watched && root !in verifying
    ensures |watched - (verifying + {root})| < |watched - verifying|
  {
    assert watched - verifying == (watched - (verifying + {root})) + {root};
  }

  // ---- steps of a pass ----

  lemma EnclosedAlike(ts: Tasks, us: Tasks, watched: set<Id>, verifying: set<Id>, id: Id)
    requires EnclosedBy(ts, watched, verifying, id) && id in ts && id in us
    requires us[id].goalAncestry == ts[id].goalAncestry
    ensures EnclosedBy(us, watched, verifying, id)
  {
  }

  /** Every leaf is a kept task that no watched tree outside the guard contains. */
  lemma LeavesReady(ts: Tasks, watched: set<Id>, verifying: set<Id>, root: Id, leaves: seq<Task>)
    requires TableKept(ts) && Apart(ts, watched, root) && root in verifying
    requires Listed(ts, leaves) && IdSet(leaves) == LeafIds(ts, root) && Rested(ts, root)
    ensures forall i :: 0 <= i < |leaves| ==>
      TaskKept(leaves[i].id, leaves[i]) && Terminal(leaves[i].state) && EnclosedBy(ts, watched, verifying, leaves[i].id)
  {
    hide AncestryKept, Watched, TaskKept, Contains;
    forall i | 0 <= i < |leaves|
      ensures TaskKept(leaves[i].id, leaves[i]) && Terminal(leaves[i].state)
      ensures EnclosedBy(ts, watched, verifying, leaves[i].id)
    {
      var id := leaves[i].id;
      assert id in IdSet(leaves);
      WatchedByAncestry(ts, root, id);
      forall w | w in watched && Contains(ts, w, id) ensures w in verifying {
        if w != root {
          TreesApart(ts, root, w, id);
        }
      }
    }
  }

  lemma JudgedNone(judge: Judge, ts: Tasks, at: int)
    ensures forall leaves: seq<Task> :: Judged(judge, ts, ts, IdSet(leaves[..0]), at)
  {
  }

  lemma JudgedNext(judge: Judge, ts: Tasks, us: Tasks, leaves: seq<Task>, i: nat, at: int)
    requires i < |leaves| && Listed(ts, leaves) && Judged(judge, ts, us, IdSet(leaves[..i]), at)
    ensures leaves[i].id in us && us[leaves[i].id] == leaves[i]
    ensures Judged(judge, ts, us[leaves[i].id := JudgedTask(judge, leaves[i], at)], IdSet(leaves[..i + 1]), at)
  {
    hide JudgedTask;
    IdSetNext(leaves, i);
  }

  lemma IdSetNext(list: seq<Task>, i: nat)
    requires i < |list|
    ensures IdSet(list[..i + 1]) == IdSet(list[..i]) + {list[i].id}
    ensures (forall j :: 0 <= j < i ==> list[j].id != list[i].id) ==> list[i].id !in IdSet(list[..i])
  {
    var a, b := list[..i + 1], list[..i];
    assert a[i] == list[i];
    assert forall j :: 0 <= j < i ==> a[j] == b[j] == list[j];
    forall id ensures id in IdSet(a) <==> id in IdSet(b) + {list[i].id} {
      if id in IdSet(b) {
        var j :| 0 <= j < |b| && b[j].id == id;
        assert a[j].id == id;
      }
      if id in IdSet(a) {
        var j :| 0 <= j < |a| && a[j].id == id;
        assert j < i ==> b[j].id == id;
      }
      assert a[i].id == list[i].id;
    }
    assert IdSet(a) == IdSet(b) + {list[i].id};
  }

  lemma JudgedKeys(judge: Judge, ts: Tasks, us: Tasks, done: set<Id>, at: int)
    requires Judged(judge, ts, us, done, at) && KeyedById(ts)
    ensures us.Keys == ts.Keys && KeyedById(us)
  {
  }

  lemma NothingSettled(routing: Routing, supply: Supply, ts: Tasks, rejected: seq<Task>, at: int)
    requires KeyedById(ts) && rejected == []
    ensures IdSet(rejected) <= ts.Keys && Settled(routing, supply, ts, ts, IdSet(rejected), at)
  {
  }

  /** After judging, the rejected leaves are where they were. */
  lemma RejectedReady(judge: Judge, ts: Tasks, mid: Tasks, watched: set<Id>, verifying: set<Id>, leaves: seq<Task>,
          rejected: seq<Task>, at: int)
    requires Listed(ts, leaves) && Listed(ts, rejected)
    requires forall x :: x in rejected <==> x in leaves && FalseDone(judge, x)
    requires Judged(judge, ts, mid, IdSet(leaves), at)
    requires forall i :: 0 <= i < |leaves| ==> EnclosedBy(ts, watched, verifying, leaves[i].id)
    ensures forall i :: 0 <= i < |rejected| ==> rejected[i].id in mid && SameLeaf(mid[rejected[i].id], rejected[i])
    ensures forall i :: 0 <= i < |rejected| ==> EnclosedBy(mid, watched, verifying, rejected[i].id)
    ensures forall i, j :: 0 <= i < j < |rejected| ==> rejected[i].id != rejected[j].id
  {
    hide EnclosedBy, JudgedTask, FalseDone, SameLeaf;
    forall i | 0 <= i < |rejected|
      ensures rejected[i].id in mid && SameLeaf(mid[rejected[i].id], rejected[i])
      ensures EnclosedBy(mid, watched, verifying, rejected[i].id)
    {
      var t := rejected[i];
      assert t in rejected;
      var k :| 0 <= k < |leaves| && leaves[k] == t;
      assert t.id in IdSet(leaves);
      JudgedSameLeaf(judge, t, at);
      EnclosedAlike(ts, mid, watched, verifying, t.id);
    }
  }

  lemma JudgedSameLeaf(judge: Judge, t: Task, at: int)
    ensures SameLeaf(JudgedTask(judge, t, at), t) && JudgedTask(judge, t, at).goalAncestry == t.goalAncestry
  {
  }

  lemma SettledNext(routing: Routing, supply: Supply, ts: Tasks, us: Tasks, watched: set<Id>, rejected: seq<Task>,
          i: nat, at: int)
    requires KeyedById(ts) && FreshFor(supply, ts.Keys + watched) && i < |rejected|
    requires forall k :: 0 <= k < |rejected| ==> rejected[k].id in ts
    requires forall j, k :: 0 <= j < k < |rejected| ==> rejected[j].id != rejected[k].id
    requires IdSet(rejected[..i]) <= ts.Keys && Settled(routing, supply, ts, us, IdSet(rejected[..i]), at)
    ensures var id := rejected[i].id;
            var reviewId := supply.reviewId(id);
            && id in us && us[id] == ts[id]
            && reviewId !in us && reviewId !in watched
            && IdSet(rejected[..i + 1]) <= ts.Keys
            && Settled(routing, supply, ts,
                       us[reviewId := NewTask(us, ReviewInput(us[id]), reviewId, at)][id :=
                           ReassignedTask(routing, supply, us[id], at)],
                       IdSet(rejected[..i + 1]), at)
  {
    hide ReassignedTask, IdSet, Settled, NewTask, ReviewInput, FreshFor;
    IdSetNext(rejected, i);
    var id := rejected[i].id;
    assert rejected[i].id in ts;
    assert id !in IdSet(rejected[..i]);
    SettleOne(routing, supply, ts, us, watched, IdSet(rejected[..i]), id, at);
  }

  lemma SettleOne(routing: Routing, supply: Supply, ts: Tasks, us: Tasks, watched: set<Id>, done: set<Id>, id: Id,
          at: int)
    requires KeyedById(ts) && FreshFor(supply, ts.Keys + watched) && id in ts && id !in done
    requires done <= ts.Keys && Settled(routing, supply, ts, us, done, at)
    ensures var reviewId := supply.reviewId(id);
            && id in us && us[id] == ts[id]
            && reviewId !in us && reviewId !in watched
            && Settled(routing, supply, ts,
                       us[reviewId := NewTask(us, ReviewInput(us[id]), reviewId, at)][id :=
                           ReassignedTask(routing, supply, us[id], at)],
                       done + {id}, at)
  {
    hide ReassignedTask, NewTask;
    var reviewId := supply.reviewId(id);
    assert reviewId !in ts && reviewId !in watched && id in ts.Keys + watched;
    forall r | r in done ensures supply.reviewId(r) != reviewId && supply.reviewId(r) !in ts {
      assert r in ts.Keys + watched;
    }
    SameReview(ts, us, id, reviewId, at);
    SettledWith(routing, supply, ts, us, done, id, NewTask(ts, ReviewInput(ts[id]), reviewId, at),
                ReassignedTask(routing, supply, ts[id], at), at);
  }

  lemma SettledWith(routing: Routing, supply: Supply, ts: Tasks, us: Tasks, done: set<Id>, id: Id, review: Task,
          t: Task, at: int)
    requires KeyedById(ts) && id in ts && id !in done && done <= ts.Keys && Settled(routing, supply, ts, us, done, at)
    requires var reviewId := supply.reviewId(id);
             && review == NewTask(ts, ReviewInput(ts[id]), reviewId, at)
             && reviewId !in ts && forall r :: r in done ==> supply.reviewId(r) != reviewId && supply.reviewId(r) !in ts
    requires t == ReassignedTask(routing, supply, ts[id], at)
    ensures Settled(routing, supply, ts, us[supply.reviewId(id) := review][id := t], done + {id}, at)
  {
    hide ReassignedTask, ReviewInput, NewTask, KeyedById;
    var reviewId := supply.reviewId(id);
    var next := us[reviewId := review][id := t];
    assert next.Keys == us.Keys + {reviewId};
    OneMoreReview(supply, done, id);
    forall r | r in done ensures next[supply.reviewId(r)] == us[supply.reviewId(r)] {
    }
  }

  lemma OneMoreReview(supply: Supply, done: set<Id>, id: Id)
    ensures (set r | r in done + {id} :: supply.reviewId(r))
              == (set r | r in done :: supply.reviewId(r)) + {supply.reviewId(id)}
  {
  }

  lemma SameReview(ts: Tasks, us: Tasks, id: Id, reviewId: Id, at: int)
    requires id in ts && id in us && us[id] == ts[id] && ts[id].id == id
    ensures NewTask(us, ReviewInput(us[id]), reviewId, at) == NewTask(ts, ReviewInput(ts[id]), reviewId, at)
  {
  }

  lemma PassAnswer(setup: Setup, call: Call, ts: Tasks, mid: Tasks, us: Tasks, watch: WatchRecord, leaves: seq<Task>,
                   rejected: seq<Task>, results: seq<LeafResult>, r: VerifyResult)
    requires KeyedById(ts) && call.root in ts && Rested(ts, call.root)
    requires !Repeats(watch, StopOf(ts, call.root), setup.windowMs, call.force, call.now)
    requires Listed(ts, leaves) && IdSet(leaves) == LeafIds(ts, call.root)
    requires Listed(ts, rejected) && forall x :: x in rejected <==> x in leaves && FalseDone(setup.judge, x)
    requires |results| == |leaves| && forall i :: 0 <= i < |leaves| ==>
               results[i] == ResultFor(setup.judge, leaves[i], call.at)
    requires Judged(setup.judge, ts, mid, IdSet(leaves), call.at) && KeyedById(mid) && IdSet(rejected) <= mid.Keys
    requires Settled(setup.routing, call.supply, mid, us, IdSet(rejected), call.at)
    requires r == Verdicts(StopOf(ts, call.root), if |rejected| > 0 then REJECT else PASS,
                           seq(|rejected|, i requires 0 <= i < |rejected| => rejected[i].id))
    ensures GateAnswer(setup, call, ts, us, watch,
                       Recorded(watch, StopOf(ts, call.root), |rejected| == 0, results, call.now), r)
  {
    hide IsLeaf, Judged, Settled, StopOf, Repeats, FalseDone, ResultFor, Rested;
    RejectedAreFalse(setup.judge, ts, call.root, leaves, rejected);
    ResultsOfLeaves(setup.judge, ts, call.root, leaves, results, call.at);
    assert PassDone(setup.judge, setup.routing, call.supply, ts, us, call.root, call.at);
    forall id ensures id in r.rejected <==> id in IdSet(rejected) {
      if id in IdSet(rejected) {
        var i :| 0 <= i < |rejected| && rejected[i].id == id;
        assert r.rejected[i] == id;
      }
    }
    assert IdSet(rejected) == {} <==> |rejected| == 0 by {
      if |rejected| > 0 { assert rejected[0].id in IdSet(rejected); }
    }
  }

  lemma RejectedAreFalse(judge: Judge, ts: Tasks, root: Id, leaves: seq<Task>, rejected: seq<Task>)
    requires Listed(ts, leaves) && IdSet(leaves) == LeafIds(ts, root)
    requires Listed(ts, rejected) && forall x :: x in rejected <==> x in leaves && FalseDone(judge, x)
    ensures IdSet(rejected) == FalseLeaves(judge, ts, root)
  {
    hide IsLeaf, FalseDone;
    forall id | id in FalseLeaves(judge, ts, root) ensures id in IdSet(rejected) {
      assert id in IdSet(leaves);
      var i :| 0 <= i < |leaves| && leaves[i].id == id;
      assert leaves[i] in rejected;
      var k :| 0 <= k < |rejected| && rejected[k] == leaves[i];
      assert rejected[k].id == id;
    }
    forall id | id in IdSet(rejected) ensures id in FalseLeaves(judge, ts, root) {
      var k :| 0 <= k < |rejected| && rejected[k].id == id;
      assert rejected[k] in rejected;
      var i :| 0 <= i < |leaves| && leaves[i] == rejected[k];
      assert id in IdSet(leaves);
    }
  }

  lemma ResultsOfLeaves(judge: Judge, ts: Tasks, root: Id, leaves: seq<Task>, results: seq<LeafResult>, at: int)
    requires Listed(ts, leaves) && IdSet(leaves) == LeafIds(ts, root)
    requires |results| == |leaves| && forall i :: 0 <= i < |leaves| ==> results[i] == ResultFor(judge, leaves[i], at)
    ensures forall res :: res in results
              <==> exists id :: id in LeafIds(ts, root) && res == ResultFor(judge, ts[id], at)
  {
    hide IsLeaf, ResultFor;
    forall res ensures res in results <==> exists id :: id in LeafIds(ts, root) && res == ResultFor(judge, ts[id], at) {
      if res in results {
        var i :| 0 <= i < |results| && results[i] == res;
        assert leaves[i].id in IdSet(leaves);
        assert res == ResultFor(judge, ts[leaves[i].id], at);
      }
      if id :| id in LeafIds(ts, root) && res == ResultFor(judge, ts[id], at) {
        assert id in IdSet(leaves);
        var i :| 0 <= i < |leaves| && leaves[i].id == id;
        assert results[i] == res;
      }
    }
  }

  /** The verbs a rejection calls all go through, and touch only the leaf and its new review task. */
  lemma RejectSpec(routing: Routing, supply: Supply, ts: Tasks, watched: set<Id>, verifying: set<Id>, leaf: Task,
          reviewId: Id, at: int)
    requires leaf.id in ts && SameLeaf(ts[leaf.id], leaf) && reviewId !in ts && reviewId !in watched
    requires EnclosedBy(ts, watched, verifying, leaf.id)
    ensures var us := ts[reviewId := NewTask(ts, ReviewInput(ts[leaf.id]), reviewId, at)];
            && CreateIn(ts, ReviewInput(leaf), reviewId, at) == Ok(us)
            && EnclosedBy(us, watched, verifying, reviewId)
            && match routing(leaf.claimRole)
               case None => us[leaf.id := ReassignedTask(routing, supply, ts[leaf.id], at)] == us
               case Some(agent) =>
                 var vs := us[leaf.id := ReassignedTask(routing, supply, ts[leaf.id], at)];
                 var claim := ClaimIn(us, leaf.id, agent, supply.token(leaf.id), at);
                 (claim == Ok(vs) && EnclosedBy(vs, watched, verifying, leaf.id)) || (claim.Err? && vs == us)
  {
    hide EnclosedBy, Strings.Trim;
    TitleNotBlank(leaf);
    var us := ts[reviewId := NewTask(ts, ReviewInput(ts[leaf.id]), reviewId, at)];
    EnclosedChild(ts, us, watched, verifying, leaf.id, reviewId);
    var t := ReassignedTask(routing, supply, ts[leaf.id], at);
    EnclosedAlike(ts, us[leaf.id := t], watched, verifying, leaf.id);
  }

  lemma EnclosedChild(ts: Tasks, us: Tasks, watched: set<Id>, verifying: set<Id>, parent: Id, child: Id)
    requires EnclosedBy(ts, watched, verifying, parent) && parent in ts && child in us && child !in watched
    requires us[child].goalAncestry == [parent] + ts[parent].goalAncestry
    ensures EnclosedBy(us, watched, verifying, child)
  {
    forall w | w in watched && Contains(us, w, child) ensures w in verifying {
      assert Contains(ts, w, parent);
    }
  }

  lemma TitleNotBlank(leaf: Task)
    ensures Strings.Trim(ReviewInput(leaf).title) != ""
  {
    var title := ReviewInput(leaf).title;
    assert title[0] == '[';
    assert Strings.TrimStart(title) == title;
  }

  lemma NoLeavesWithoutRoot(ts: Tasks, root: Id)
    requires AncestryKept(ts) && root !in ts
    ensures forall id :: !IsLeaf(ts, root, id)
  {
    hide AncestryKept, Watched;
    forall id ensures !Watched(ts, root, id) {
      WatchedByAncestry(ts, root, id);
      if id in ts {
        AncestorsPresent(ts, id);
      }
    }
  }
}
