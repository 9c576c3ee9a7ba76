/** The plan tables as `Store` updates them, one call at a time, and the budget count read from them. */
module PlanStore {
  import Outcomes
  import opened Timestamps
  import opened RemediationPlans

  class Store {
    var plans: map<string, Plan>
    var approvals: seq<Approval>
    var runs: seq<RunRow>

    function Now(): Db
      reads this
    {
      Db(plans, approvals, runs)
    }

    constructor ()
      ensures Now() == EMPTY.db
    {
      plans, approvals, runs := map[], [], [];
    }

    method CreatePlan(id: string, p: Plan) returns (ok: bool)
      modifies this
      ensures ok <==> id !in old(plans)
      ensures ok ==> id in plans && plans[id] == p.(state := Proposed, expiresAt := plans[id].expiresAt)
                     && plans[id].expiresAt <= p.expiresAt < plans[id].expiresAt + SECOND && plans[id].expiresAt % SECOND == 0
      ensures !ok ==> plans == old(plans)
      ensures Now() == RemediationPlans.CreatePlan(old(Now()), id, p)
    {
      ok := id !in plans;
      if ok {
        plans := plans[id := p.(state := Proposed, expiresAt := Stored(p.expiresAt))];
      }
    }

    /** The guarded update every transition uses; reports whether a row changed. */
    method Swap(id: string, from: PlanState, to: PlanState) returns (changed: bool)
      modifies this`plans
      ensures changed <==> id in old(plans) && old(plans)[id].state == from
      ensures Now() == SetState(old(Now()), id, from, to)
    {
      changed := id in plans && plans[id].state == from;
      if changed {
        plans := plans[id := plans[id].(state := to)];
      }
    }

    method ExpireIfPastDeadline(id: string, p: Plan, now: int) returns (seen: Plan)
      modifies this`plans
      ensures var due := (p.state == Proposed || p.state == Approved) && PastDeadline(p, now);
        && seen == (if due then p.(state := Expired) else p)
        && Now() == (if due then SetState(old(Now()), id, p.state, Expired) else old(Now()))
    {
      seen := p;
      if (p.state == Proposed || p.state == Approved) && PastDeadline(p, now) {
        var _ := Swap(id, p.state, Expired);
        seen := p.(state := Expired);
      }
    }

    /** Succeeds exactly when a call that read these tables has a decision left to commit, and leaves what it commits. */
    method RecordApprovalDecision(planId: string, hash: string, d: Decision, actor: string, now: int) returns (ok: bool)
      modifies this
      ensures var c := ReadForDecision(old(Now()), planId, hash, d, actor, now);
        Now() == Alone(old(Now()), c) && (ok <==> c.Some? && c.value.WillDecide?)
      ensures ok <==> && actor != "" && planId in old(plans) && old(plans)[planId].state == Proposed
                      && old(plans)[planId].hash == hash && now <= old(plans)[planId].expiresAt
      ensures ok ==> && plans == old(plans)[planId := old(plans)[planId].(state := if d == Approve then Approved else Rejected)]
                     && approvals == old(approvals) + [Approval(planId, hash, d, actor, Stored(now))]
      ensures !ok ==> approvals == old(approvals)
      ensures runs == old(runs)
    {
      ok := false;
      if actor == "" || planId !in plans { return; }
      var p := ExpireIfPastDeadline(planId, plans[planId], now);
      if p.state != Proposed || p.hash != hash { return; }
      var row := Approval(planId, hash, d, actor, Stored(now));
      ok := Swap(planId, Proposed, DecidedState(d));
      approvals := if ok then approvals + [row] else approvals;
    }

    method MarkExecuting(planId: string, now: int) returns (ok: bool)
      modifies this`plans
      ensures var c := ReadForExecution(old(Now()), planId, now);
        Now() == Alone(old(Now()), c) && (ok <==> c.Some? && c.value.WillExecute?)
      ensures ok <==> planId in old(plans) && old(plans)[planId].state == Approved && now <= old(plans)[planId].expiresAt
      ensures ok ==> plans == old(plans)[planId := old(plans)[planId].(state := Executing)]
      ensures planId in old(plans) && (old(plans)[planId].state == Proposed || old(plans)[planId].state == Approved) && now > old(plans)[planId].expiresAt
        ==> plans == old(plans)[planId := old(plans)[planId].(state := Expired)]
    {
      ok := false;
      if planId !in plans { return; }
      var p := ExpireIfPastDeadline(planId, plans[planId], now);
      if p.state != Approved { return; }
      ok := Swap(planId, Approved, Executing);
    }

    method FinishRun(planId: string, result: PlanState) returns (ok: bool)
      modifies this`plans, this`runs
      ensures var r := RemediationPlans.FinishRun(old(Now()), planId, result);
        ok == r.Ok? && Now() == if r.Ok? then r.value else old(Now())
    {
      ok := planId in plans && !HasRun(runs, planId);
      if ok {
        runs := runs + [RunRow(planId, result)];
        var _ := Swap(planId, Executing, result);
      }
    }

    /** `ids` are the rows of the query for EXECUTING plans, in the order it returns them. */
    method RecoverOrphanedExecutingPlans(ids: seq<string>) returns (recovered: nat, ok: bool)
      requires ListsOrphans(plans, ids)
      modifies this`plans, this`runs
      ensures var (db, n, complete) := Recover(old(Now()), ids); Now() == db && recovered == n && ok == complete
    {
      recovered, ok := 0, true;
      for i := 0 to |ids|
        invariant recovered == i
        invariant var (db, n, complete) := Recover(Now(), ids[i..]);
          Recover(old(Now()), ids) == (db, i + n, complete)
      {
        assert ids[i..][0] == ids[i] && ids[i..][1..] == ids[i + 1..];
        ok := FinishRun(ids[i], ExecutionFailed);
        if !ok { return; }
        recovered := recovered + 1;
      }
    }
  }

  /** The orphans closed one by one until one is refused: the tables, how many were closed, whether all were. */
  function Recover(db: Db, ids: seq<string>): (r: (Db, nat, bool))
    decreases |ids|
  {
    if ids == [] then (db, 0, true)
    else
      var r := RemediationPlans.FinishRun(db, ids[0], ExecutionFailed);
      if r.Rejected? then (db, 0, false)
      else var (end, n, complete) := Recover(r.value, ids[1..]); (end, n + 1, complete)
  }

  ghost predicate ListsOrphans(plans: map<string, Plan>, ids: seq<string>) {
    && (forall i, j :: 0 <= i < j < |ids| ==> ids[i] != ids[j])
    && (forall id :: id in ids <==> id in plans && plans[id].state == Executing)
  }

  /** The plans with those of `done` closed as EXECUTION_FAILED. */
  function Failed(plans: map<string, Plan>, done: seq<string>): map<string, Plan> {
    map id | id in plans :: if id in done then plans[id].(state := ExecutionFailed) else plans[id]
  }

  function Rows(ids: seq<string>): seq<RunRow> {
    seq(|ids|, i requires 0 <= i < |ids| => RunRow(ids[i], ExecutionFailed))
  }

  /** Recovery closes the orphans in order up to the first that already has a run row, and stops there. */
  lemma {:induction false} RecoverExact(db: Db, ids: seq<string>)
    requires ListsOrphans(db.plans, ids)
    ensures var (end, n, complete) := Recover(db, ids);
      && n <= |ids| && (complete <==> n == |ids|) && (!complete ==> HasRun(db.runs, ids[n]))
      && (forall i :: 0 <= i < n ==> !HasRun(db.runs, ids[i]))
      && end == Db(Failed(db.plans, ids[..n]), db.approvals, db.runs + Rows(ids[..n]))
    decreases |ids|
  {
    if ids == [] {
      assert Failed(db.plans, []) == db.plans;
    } else if HasRun(db.runs, ids[0]) {
      assert Failed(db.plans, ids[..0]) == db.plans;
    } else {
      var next := RemediationPlans.FinishRun(db, ids[0], ExecutionFailed).value;
      OrphansLeft(db, ids);
      RecoverExact(next, ids[1..]);
      var (end, n, complete) := Recover(next, ids[1..]);
      assert ids[..n + 1] == [ids[0]] + ids[1..][..n];
      RowsOfNext(db, ids, n);
      forall i | 0 <= i < |ids| - 1 ensures HasRun(next.runs, ids[1..][i]) <==> HasRun(db.runs, ids[i + 1]) {
        HasRunAppended(db.runs, RunRow(ids[0], ExecutionFailed), ids[i + 1]);
      }
    }
  }

  lemma {:induction false} OrphansLeft(db: Db, ids: seq<string>)
    requires ListsOrphans(db.plans, ids) && ids != [] && !HasRun(db.runs, ids[0])
    ensures ListsOrphans(RemediationPlans.FinishRun(db, ids[0], ExecutionFailed).value.plans, ids[1..])
  {
    assert ids[0] in ids;
    var plans := RemediationPlans.FinishRun(db, ids[0], ExecutionFailed).value.plans;
    forall id ensures id in ids[1..] <==> id in plans && plans[id].state == Executing {
      assert id in ids <==> id == ids[0] || id in ids[1..];
    }
  }

  lemma {:induction false} RowsOfNext(db: Db, ids: seq<string>, n: nat)
    requires n < |ids| && ids[0] in db.plans && db.plans[ids[0]].state == Executing && !HasRun(db.runs, ids[0])
    ensures var next := RemediationPlans.FinishRun(db, ids[0], ExecutionFailed).value;
      && Failed(next.plans, ids[1..][..n]) == Failed(db.plans, ids[..n + 1])
      && next.runs + Rows(ids[1..][..n]) == db.runs + Rows(ids[..n + 1])
  {
    assert ids[..n + 1] == [ids[0]] + ids[1..][..n];
  }

  /** After recovery on tables that keep the run rule, no plan is left EXECUTING and the rule still holds. */
  lemma {:induction false} RecoverCloses(db: Db, ids: seq<string>)
    requires ListsOrphans(db.plans, ids) && forall id: string :: RunRule(db, id)
    ensures var (end, n, complete) := Recover(db, ids);
      && complete && n == |ids|
      && (forall id :: id in end.plans ==> end.plans[id].state != Executing)
      && (forall id: string :: RunRule(end, id))
  {
    forall i | 0 <= i < |ids| ensures !HasRun(db.runs, ids[i]) {
      assert ids[i] in ids && RunRule(db, ids[i]);
    }
    RecoverExact(db, ids);
    var (end, n, complete) := Recover(db, ids);
    assert ids[..n] == ids;
    forall id: string ensures RunRule(end, id) {
      assert RunRule(db, id);
      HasRunRows(db.runs, ids, id);
    }
  }

  lemma {:induction false} HasRunRows(runs: seq<RunRow>, ids: seq<string>, id: string)
    ensures HasRun(runs + Rows(ids), id) <==> HasRun(runs, id) || id in ids
  {
    var all := runs + Rows(ids);
    assert forall i :: 0 <= i < |runs| ==> all[i] == runs[i];
    assert forall i :: 0 <= i < |ids| ==> all[|runs| + i] == RunRow(ids[i], ExecutionFailed);
    if HasRun(all, id) {
      var i :| 0 <= i < |all| && all[i].planId == id;
      if i >= |runs| { assert all[|runs| + (i - |runs|)].planId == ids[i - |runs|]; }
    }
  }

  /** What a call that has read the tables leaves when nothing else commits before it does. */
  function Alone(db: Db, c: Outcomes.Option<Call>): Db {
    if c == Outcomes.None then db
    else
      match c.value
      case WillExpire(id, from) => SetState(db, id, from, Expired)
      case WillDecide(a, _) => Decide(db, a)
      case WillExecute(id, _) => SetState(db, id, Approved, Executing)
      case _ => db
  }

  /** A decision or an execution that nothing interrupts is its read step followed at once by its commit step. */
  lemma {:induction false} AloneIsTwoSteps(w: World, call: nat, planId: string, hash: string, d: Decision, actor: string, now: int, any: PlanState)
    requires call !in w.calls
    ensures Run(w, [Decides(call, planId, hash, d, actor, now), Commits(call, any)]).db
         == Alone(w.db, ReadForDecision(w.db, planId, hash, d, actor, now))
    ensures Run(w, [Executes(call, planId, now), Commits(call, any)]).db
         == Alone(w.db, ReadForExecution(w.db, planId, now))
  {
    TwoSteps(w, Decides(call, planId, hash, d, actor, now), Commits(call, any));
    TwoSteps(w, Executes(call, planId, now), Commits(call, any));
  }

  lemma {:induction false} TwoSteps(w: World, first: Step, second: Step)
    ensures Run(w, [first, second]) == Next(Next(w, first), second)
  {
    var mid := Next(w, first);
    assert [first, second][1..] == [second] && [second][1..] == [];
    assert Run(mid, [second]) == Next(mid, second);
  }

  // The budget of autonomous runs.

  /** Does this approval row join a run of the plan, in `CountPolicyRunsForIncident`? */
  predicate Joins(a: Approval, id: string, isPolicy: string -> bool) {
    a.planId == id && a.decision == Approve && isPolicy(a.actor)
  }

  function JoinedApprovals(approvals: seq<Approval>, id: string, isPolicy: string -> bool): nat {
    if approvals == [] then 0
    else
      var n := |approvals| - 1;
      JoinedApprovals(approvals[..n], id, isPolicy) + if Joins(approvals[n], id, isPolicy) then 1 else 0
  }

  /** The rows the join of runs, plans and approvals yields for the incident. */
  function CountPolicyRuns(db: Db, runs: seq<RunRow>, incident: string, isPolicy: string -> bool): nat {
    if runs == [] then 0
    else
      var n := |runs| - 1; var id := runs[n].planId;
      CountPolicyRuns(db, runs[..n], incident, isPolicy)
      + if id in db.plans && db.plans[id].incident == incident then JoinedApprovals(db.approvals, id, isPolicy) else 0
  }

  /** A policy actor decided on the plan, and approved it. */
  ghost predicate PolicyApproved(db: Db, id: string, isPolicy: string -> bool) {
    exists i :: 0 <= i < |db.approvals| && db.approvals[i].planId == id && db.approvals[i].decision == Approve && isPolicy(db.approvals[i].actor)
  }

  /** The plans of the incident that a policy approved and that have a row in `runs`. */
  ghost function PolicyExecuted(db: Db, runs: seq<RunRow>, incident: string, isPolicy: string -> bool): set<string> {
    set id | id in db.plans && db.plans[id].incident == incident && PolicyApproved(db, id, isPolicy) && HasRun(runs, id)
  }

  lemma {:induction false} JoinedOnce(approvals: seq<Approval>, id: string, isPolicy: string -> bool)
    requires |ApprovalsOf(approvals, id)| <= 1
    ensures JoinedApprovals(approvals, id, isPolicy)
         == if exists i :: 0 <= i < |approvals| && Joins(approvals[i], id, isPolicy) then 1 else 0
  {
    if approvals != [] {
      var n := |approvals| - 1;
      var rest := approvals[..n];
      JoinedOnce(rest, id, isPolicy);
      assert forall i :: 0 <= i < n ==> rest[i] == approvals[i];
      if Joins(approvals[n], id, isPolicy) {
        NoneJoins(rest, id, isPolicy);
      }
    }
  }

  lemma {:induction false} NoneJoins(approvals: seq<Approval>, id: string, isPolicy: string -> bool)
    requires ApprovalsOf(approvals, id) == []
    ensures JoinedApprovals(approvals, id, isPolicy) == 0
  {
    if approvals != [] { NoneJoins(approvals[..|approvals| - 1], id, isPolicy); }
  }

  /** In every reachable state the query counts plans: no autonomous run is counted twice or missed. */
  lemma {:induction false} BudgetCountsPlans(steps: seq<Step>, incident: string, isPolicy: string -> bool)
    requires Possibles(EMPTY, steps)
    ensures var db := Run(EMPTY, steps).db;
      CountPolicyRuns(db, db.runs, incident, isPolicy) == |PolicyExecuted(db, db.runs, incident, isPolicy)|
  {
    var db := Run(EMPTY, steps).db;
    forall id: string ensures |ApprovalsOf(db.approvals, id)| <= 1 && |RunsOf(db.runs, id)| <= 1 {
      DecidedAtMostOnce(steps, id);
      RunIffOutcome(steps, id);
      HasRunExact(db.runs, id);
    }
    CountIsSize(db, db.runs, incident, isPolicy);
  }

  lemma {:induction false} CountIsSize(db: Db, runs: seq<RunRow>, incident: string, isPolicy: string -> bool)
    requires forall id: string :: |ApprovalsOf(db.approvals, id)| <= 1 && |RunsOf(runs, id)| <= 1
    ensures CountPolicyRuns(db, runs, incident, isPolicy) == |PolicyExecuted(db, runs, incident, isPolicy)|
  {
    if runs != [] {
      var n := |runs| - 1;
      var rest, id := runs[..n], runs[n].planId;
      assert runs == rest + [runs[n]];
      forall k: string ensures HasRun(runs, k) <==> HasRun(rest, k) || k == id { HasRunAppended(rest, runs[n], k); }
      forall k: string ensures |RunsOf(rest, k)| <= 1 { assert |RunsOf(runs, k)| <= 1; }
      CountIsSize(db, rest, incident, isPolicy);
      assert |RunsOf(runs, id)| <= 1;
      HasRunExact(rest, id);
      JoinedOnce(db.approvals, id, isPolicy);
      var before := PolicyExecuted(db, rest, incident, isPolicy);
      if id in db.plans && db.plans[id].incident == incident && PolicyApproved(db, id, isPolicy) {
        assert PolicyExecuted(db, runs, incident, isPolicy) == before + {id};
      } else {
        assert PolicyExecuted(db, runs, incident, isPolicy) == before;
      }
    }
  }
}
