/** Where a task's acceptance comes from: over whole runs, only a verdict on its latest completion. */
module Acceptance {
  import opened Prelude
  import opened TaskTree
  import opened TasksService
  import opened TaskRuns
  import opened WatchedTree
  import opened GateLaws
  import Strings

  predicate IsAccepted(t: Task) {
    t.acceptance.Some? && t.acceptance.value.Accepted?
  }

  predicate AcceptedIn(ts: Tasks, id: Id) {
    id in ts && IsAccepted(ts[id])
  }

  /** Only completed tasks are accepted. */
  ghost predicate AcceptanceKept(ts: Tasks) {
    forall id :: AcceptedIn(ts, id) ==> ts[id].state == Completed
  }

  /** What a verb that goes through says about a task: a completion and a creation wait, `accept` gives its verdict. */
  predicate Speaks(op: Op, id: Id) {
    ((op.Accept? || op.Complete?) && op.task == id) || (op.Create? && op.id == id)
  }

  predicate Approves(config: Config, ts: Tasks, op: Op, id: Id)
    requires id in ts
  {
    op.Accept? && Passes(config.judge, OrElse(op.contract, ts[id].artifactContract), OrElse(op.given, ts[id].evidence))
  }

  lemma ClosingKeepsAcceptance(ts: Tasks, root: Id, closeState: State, now: int)
    requires AcceptanceKept(ts)
    ensures var us := CloseBelow(ts, root, closeState, now);
            AcceptanceKept(us) && forall id :: AcceptedIn(us, id) <==> AcceptedIn(ts, id)
  {
    var us := CloseBelow(ts, root, closeState, now);
    forall id | id in ts
      ensures us[id].acceptance == ts[id].acceptance && (IsAccepted(ts[id]) ==> us[id].state == Completed)
    {
      OpenBelowIsOpen(ts, root, id);
    }
  }

  lemma OpenBelowIsOpen(ts: Tasks, root: Id, id: Id)
    ensures OpenBelow(ts, root, id) ==> Open(ts, id)
  {
  }

  lemma OneTaskAccepted(ts: Tasks, id: Id, t: Task)
    requires AcceptanceKept(ts) && (IsAccepted(t) ==> t.state == Completed)
    ensures var us := ts[id := t];
            && AcceptanceKept(us)
            && forall x :: AcceptedIn(us, x) <==> if x == id then IsAccepted(t) else AcceptedIn(ts, x)
  {
  }

  /** One verb: it speaks about its own task only, and leaves all other acceptances alone. */
  lemma VerbAcceptance(config: Config, ts: Tasks, op: Op, id: Id)
    requires AcceptanceKept(ts) && Outcome(config, ts, op).Ok?
    ensures var us := Outcome(config, ts, op).value;
            && AcceptanceKept(us)
            && (AcceptedIn(us, id) <==>
                if Speaks(op, id) then id in ts && Approves(config, ts, op, id) else AcceptedIn(ts, id))
  {
    hide CloseBelow, Passes, Strings.Trim, Present, AcceptanceKept, AcceptedIn;
    match op
    case Create(input, x, at) => OneTaskAccepted(ts, x, NewTask(ts, input, x, at));
    case Claim(x, agent, token, at) =>
      StateOfAccepted(ts, x);
      OneTaskAccepted(ts, x, ClaimedTask(ts[x], agent, token, at));
      OwnAcceptance(ts, x, ClaimedTask(ts[x], agent, token, at));
    case Update(x, token, patch, at) =>
      StateOfAccepted(ts, x);
      OneTaskAccepted(ts, x, PatchedTask(ts[x], patch, at));
      OwnAcceptance(ts, x, PatchedTask(ts[x], patch, at));
    case Complete(x, token, evidence, actor, at) =>
      var done := AsStored(CompletedTask(ts[x], evidence, actor, at));
      OneTaskAccepted(ts, x, done);
      ClosingKeepsAcceptance(ts[x := done], x, Completed, at);
    case Cancel(x, token, at) =>
      StateOfAccepted(ts, x);
      OneTaskAccepted(ts, x, CancelledTask(ts[x], at));
      OwnAcceptance(ts, x, ts[x]);
      ClosingKeepsAcceptance(ts[x := CancelledTask(ts[x], at)], x, Cancelled, at);
    case Escalate(x, severity, owner, nextAction, at) =>
      StateOfAccepted(ts, x);
      var escalated := ts[x].(severity := severity, escalation := Some(Escalation(severity, owner, nextAction, at)),
                              updatedAt := at);
      OneTaskAccepted(ts, x, escalated);
      OwnAcceptance(ts, x, escalated);
    case Accept(x, contract, given, at) =>
      OneTaskAccepted(ts, x, Outcome(config, ts, op).value[x]);
  }

  lemma StateOfAccepted(ts: Tasks, id: Id)
    requires AcceptanceKept(ts) && id in ts
    ensures IsAccepted(ts[id]) ==> ts[id].state == Completed
  {
    assert AcceptedIn(ts, id) <==> IsAccepted(ts[id]);
  }

  lemma OwnAcceptance(ts: Tasks, id: Id, t: Task)
    requires id in ts && t.acceptance == ts[id].acceptance
    ensures AcceptedIn(ts, id) <==> IsAccepted(t)
  {
  }

  // ---- over the service's own runs ----

  /** The last word on a task in a run: whether it was an approval. */
  ghost predicate LastWord(config: Config, ops: seq<Op>, id: Id) {
    ops != []
    && var op, before := ops[|ops| - 1], Run(config, EMPTY, ops[..|ops| - 1]).tasks;
       if Outcome(config, before, op).Ok? && Speaks(op, id) then id in before && Approves(config, before, op, id)
       else LastWord(config, ops[..|ops| - 1], id)
  }

  lemma {:induction false} RunAppends(config: Config, q: Queue, ops: seq<Op>, op: Op)
    ensures Run(config, q, ops + [op]) == Step(config, Run(config, q, ops), op)
    decreases |ops|
  {
    hide Step;
    if ops == [] {
      assert ([] + [op])[1..] == [] && ([] + [op])[0] == op;
    } else {
      assert (ops + [op])[0] == ops[0] && (ops + [op])[1..] == ops[1..] + [op];
      RunAppends(config, Step(config, q, ops[0]), ops[1..], op);
    }
  }

  /**
   * In every reachable table a task is accepted exactly when the last completion or `accept` of it that went
   * through was an `accept` whose evidence earned it; and only completed tasks are.
   */
  lemma {:induction false} AcceptedByLastWord(config: Config, ops: seq<Op>, id: Id)
    ensures var ts := Run(config, EMPTY, ops).tasks;
            AcceptanceKept(ts) && (AcceptedIn(ts, id) <==> LastWord(config, ops, id))
    decreases |ops|
  {
    hide Outcome, AcceptanceKept, Approves;
    if ops == [] {
      NothingAccepted();
    } else {
      var op, init := ops[|ops| - 1], ops[..|ops| - 1];
      assert ops == init + [op];
      RunAppends(config, EMPTY, init, op);
      AcceptedByLastWord(config, init, id);
      if Outcome(config, Run(config, EMPTY, init).tasks, op).Ok? {
        VerbAcceptance(config, Run(config, EMPTY, init).tasks, op, id);
      }
    }
  }

  lemma NothingAccepted()
    ensures AcceptanceKept(map[])
  {
  }

  // ---- with the gate ----

  /** What a round says about a task: a full pass judges every completed leaf, and its review tasks are new. */
  ghost predicate RoundSpeaks(root: Id, ts: Tasks, round: Round, id: Id) {
    match round
    case Verb(op) => Speaks(op, id)
    case Gate(_, _) => FullPass(round) && (id !in ts || (id in LeafIds(ts, root) && ts[id].state == Completed))
  }

  ghost predicate RoundApproves(setup: Setup, config: Config, ts: Tasks, round: Round, id: Id) {
    && id in ts
    && match round
       case Verb(op) => Approves(config, ts, op, id)
       case Gate(_, _) => Passes(setup.judge, ts[id].artifactContract, ts[id].evidence)
  }

  lemma PassAcceptance(setup: Setup, call: Call, ts: Tasks, us: Tasks, id: Id)
    requires KeyedById(ts) && AcceptanceKept(ts) && FreshFor(call.supply, ts.Keys)
    requires PassDone(setup.judge, setup.routing, call.supply, ts, us, call.root, call.at)
    ensures AcceptedIn(us, id) <==>
              && id in ts
              && if id in LeafIds(ts, call.root) && ts[id].state == Completed
                 then Passes(setup.judge, ts[id].artifactContract, ts[id].evidence) else IsAccepted(ts[id])
    ensures AcceptedIn(us, id) ==> us[id].state == Completed
  {
    hide LeafIds, FreshFor, PassDone, FalseDone, Passes, KeyedById, AcceptanceKept;
    if id in ts {
      PassOnTask(setup, call, ts, us, id);
      StateOfAccepted(ts, id);
      JudgedAcceptance(setup, call, ts[id]);
    } else {
      PassAddsReviews(setup, call, ts, us);
      if id in us {
        var r :| r in FalseLeaves(setup.judge, ts, call.root) && call.supply.reviewId(r) == id;
        assert ReviewOf(us[id], id, r, ts);
      }
    }
  }

  lemma JudgedAcceptance(setup: Setup, call: Call, t: Task)
    requires IsAccepted(t) ==> t.state == Completed
    ensures var j := JudgedTask(setup.judge, t, call.at);
            var u := ReassignedTask(setup.routing, call.supply, j, call.at);
            && (IsAccepted(u) <==> IsAccepted(j))
            && (IsAccepted(j) <==> if t.state == Completed then Passes(setup.judge, t.artifactContract, t.evidence)
                                   else IsAccepted(t))
            && (IsAccepted(j) ==> j.state == Completed && u.state == Completed)
  {
    hide Passes;
  }

  lemma RoundAcceptance(setup: Setup, config: Config, root: Id, a: Moment, round: Round, b: Moment, id: Id)
    requires KeyedById(a.tasks) && AcceptanceKept(a.tasks) && RoundStep(setup, config, root, a, round, b)
    ensures AcceptedIn(b.tasks, id) <==>
              if RoundSpeaks(root, a.tasks, round, id) then RoundApproves(setup, config, a.tasks, round, id)
              else AcceptedIn(a.tasks, id)
    ensures AcceptedIn(b.tasks, id) ==> b.tasks[id].state == Completed
  {
    hide LeafIds, Outcome, FreshFor, PassDone, FalseDone, Passes, Approves, Rested, StopOf, Repeats;
    match round
    case Verb(op) => VerbAcceptance(config, a.tasks, op, id);
    case Gate(call, answer) =>
      if answer.Verdicts? {
        AnswerOfPass(setup, call, a.tasks, b.tasks, a.watch, b.watch, answer);
        PassAcceptance(setup, call, a.tasks, b.tasks, id);
      }
  }

  lemma RoundKeepsAcceptance(setup: Setup, config: Config, root: Id, a: Moment, round: Round, b: Moment)
    requires KeyedById(a.tasks) && AcceptanceKept(a.tasks) && RoundStep(setup, config, root, a, round, b)
    ensures AcceptanceKept(b.tasks)
  {
    hide RoundStep, KeyedById;
    forall id | id in b.tasks ensures AcceptedIn(b.tasks, id) ==> b.tasks[id].state == Completed {
      RoundAcceptance(setup, config, root, a, round, b, id);
    }
  }

  /** The last word on a task over verbs and gate calls; without one, what it was at the start. */
  ghost predicate LastRoundWord(setup: Setup, config: Config, root: Id, trace: seq<Moment>, rounds: seq<Round>, id: Id)
    requires |trace| == |rounds| + 1
    decreases |rounds|
  {
    if rounds == [] then AcceptedIn(trace[0].tasks, id)
    else
      var n := |rounds| - 1;
      if RoundSpeaks(root, trace[n].tasks, rounds[n], id) then
        RoundApproves(setup, config, trace[n].tasks, rounds[n], id)
      else LastRoundWord(setup, config, root, trace[..n + 1], rounds[..n], id)
  }

  /**
   * With the watchdog at work too: a task is accepted exactly when the last word on it,
   * of a verb or a full pass, was an approval.
   */
  lemma {:induction false} AcceptedByLastRound(setup: Setup, config: Config, root: Id, trace: seq<Moment>,
          rounds: seq<Round>, id: Id)
    requires Rounds(setup, config, root, trace, rounds) && AcceptanceKept(trace[0].tasks)
    ensures AcceptanceKept(trace[|rounds|].tasks)
    ensures AcceptedIn(trace[|rounds|].tasks, id) <==> LastRoundWord(setup, config, root, trace, rounds, id)
    decreases |rounds|
  {
    hide RoundStep, KeyedById, RoundSpeaks, RoundApproves, AcceptedIn, AcceptanceKept;
    if rounds != [] {
      var n := |rounds| - 1;
      var init, before := trace[..n + 1], rounds[..n];
      assert init[n] == trace[n];
      AcceptedByLastRound(setup, config, root, init, before, id);
      RoundKeepsAcceptance(setup, config, root, trace[n], rounds[n], trace[n + 1]);
      RoundAcceptance(setup, config, root, trace[n], rounds[n], trace[n + 1], id);
    }
  }
}
