/** Remediation plans of internal/agentcontroller (remediation.go, approval.go, policy_gather.go):
    proposal, approval, execution and recovery over the tables of schemaV2, under every interleaving. */
module RemediationPlans {
  import Outcomes
  import opened Timestamps

  datatype PlanState =
    | Proposed | Approved | Rejected | Expired | Stale | Executing
    | AppliedVerified | AppliedAlertStillFiring | ExecutionFailed | VerificationFailed | VerificationInconclusive

  predicate IsOutcome(s: PlanState) {
    s.AppliedVerified? || s.AppliedAlertStillFiring? || s.ExecutionFailed? || s.VerificationFailed? || s.VerificationInconclusive?
  }

  /** A remediation_plans row. Times are nanoseconds; stored times are cut to whole seconds. */
  datatype Plan = Plan(incident: string, host: string, hash: string, state: PlanState, expiresAt: int)

  datatype Decision = Approve | Reject

  datatype Approval = Approval(planId: string, hash: string, decision: Decision, actor: string, createdAt: int)

  datatype RunRow = RunRow(planId: string, result: PlanState)

  datatype Db = Db(plans: map<string, Plan>, approvals: seq<Approval>, runs: seq<RunRow>)

  predicate PastDeadline(p: Plan, now: int) {
    now > p.expiresAt
  }

  // The transactions.

  function CreatePlan(db: Db, id: string, p: Plan): Db {
    if id in db.plans then db
    else db.(plans := db.plans[id := p.(state := Proposed, expiresAt := Stored(p.expiresAt))])
  }

  function SetState(db: Db, id: string, from: PlanState, to: PlanState): Db {
    if id in db.plans && db.plans[id].state == from then db.(plans := db.plans[id := db.plans[id].(state := to)]) else db
  }

  function DecidedState(d: Decision): PlanState {
    if d.Approve? then Approved else Rejected
  }

  /** The transaction of `recordApprovalDecision`: rolled back unless the plan is still PROPOSED. */
  function Decide(db: Db, a: Approval): Db {
    if a.planId in db.plans && db.plans[a.planId].state == Proposed then
      SetState(db, a.planId, Proposed, DecidedState(a.decision)).(approvals := db.approvals + [a])
    else db
  }

  predicate HasRun(runs: seq<RunRow>, id: string) {
    exists i :: 0 <= i < |runs| && runs[i].planId == id
  }

  /** `FinishRun`: the unique index on remediation_runs(plan_id) and the foreign key make the insert fail. */
  function FinishRun(db: Db, id: string, result: PlanState): Outcomes.Result<Db> {
    if id !in db.plans || HasRun(db.runs, id) then Outcomes.Rejected
    else Outcomes.Ok(SetState(db, id, Executing, result).(runs := db.runs + [RunRow(id, result)]))
  }

  // Calls in flight. A call has read its plan and has one guarded statement left to run.

  datatype Call =
    | WillExpire(planId: string, from: PlanState)
    | WillDecide(approval: Approval, at: int)
    | WillExecute(planId: string, at: int)
    /** MarkExecuting succeeded; its caller will report the outcome. */
    | Running(planId: string)
    /** RecoverOrphanedExecutingPlans has read these plans as EXECUTING. */
    | Recovering(left: seq<string>)

  /** What became visible, in commit order. */
  datatype Moment =
    | Decided(planId: string, hash: string, decision: Decision, at: int)
    | Entered(planId: string, at: int)

  datatype World = World(db: Db, calls: map<nat, Call>, history: seq<Moment>)

  datatype Step =
    | Creates(id: string, plan: Plan)
    /** Approve or Reject up to its transaction. */
    | Decides(call: nat, planId: string, hash: string, decision: Decision, actor: string, now: int)
    /** MarkExecuting up to its guarded update. */
    | Executes(call: nat, planId: string, now: int)
    | ReadsOrphans(call: nat, orphans: seq<string>)
    /** The remaining statement of a call; `result` is the outcome a Running call reports. */
    | Commits(call: nat, result: PlanState)
    /** The process of a call is killed. */
    | Dies(call: nat)

  /** The read and the checks of `recordApprovalDecision`: what is left to do, if anything. */
  function ReadForDecision(db: Db, planId: string, hash: string, d: Decision, actor: string, now: int): Outcomes.Option<Call> {
    if actor == "" || planId !in db.plans then Outcomes.None
    else
      var p := db.plans[planId];
      if (p.state == Proposed || p.state == Approved) && PastDeadline(p, now) then Outcomes.Some(WillExpire(planId, p.state))
      else if p.state != Proposed || p.hash != hash then Outcomes.None
      else Outcomes.Some(WillDecide(Approval(planId, hash, d, actor, Stored(now)), now))
  }

  /** The read and the checks of `MarkExecuting`. */
  function ReadForExecution(db: Db, planId: string, now: int): Outcomes.Option<Call> {
    if planId !in db.plans then Outcomes.None
    else
      var p := db.plans[planId];
      if (p.state == Proposed || p.state == Approved) && PastDeadline(p, now) then Outcomes.Some(WillExpire(planId, p.state))
      else if p.state != Approved then Outcomes.None
      else Outcomes.Some(WillExecute(planId, now))
  }

  function Started(w: World, call: nat, c: Outcomes.Option<Call>): World {
    if c.Some? && call !in w.calls then w.(calls := w.calls[call := c.value]) else w
  }

  function Ended(w: World, call: nat): World {
    w.(calls := w.calls - {call})
  }

  function Commit(w: World, call: nat, result: PlanState): World
    requires call in w.calls
  {
    match w.calls[call]
    case WillExpire(id, from) => Ended(w.(db := SetState(w.db, id, from, Expired)), call)
    case WillDecide(a, at) =>
      if a.planId in w.db.plans && w.db.plans[a.planId].state == Proposed then
        Ended(w.(db := Decide(w.db, a), history := w.history + [Decided(a.planId, a.hash, a.decision, at)]), call)
      else Ended(w, call)
    case WillExecute(id, at) =>
      if id in w.db.plans && w.db.plans[id].state == Approved then
        w.(db := SetState(w.db, id, Approved, Executing), history := w.history + [Entered(id, at)],
           calls := w.calls[call := Running(id)])
      else Ended(w, call)
    case Running(id) =>
      var r := FinishRun(w.db, id, result);
      Ended(if r.Ok? then w.(db := r.value) else w, call)
    case Recovering(left) =>
      if left == [] then Ended(w, call)
      else
        var r := FinishRun(w.db, left[0], ExecutionFailed);
        if r.Ok? then w.(db := r.value, calls := w.calls[call := Recovering(left[1..])]) else Ended(w, call)
  }

  function Next(w: World, s: Step): World {
    match s
    case Creates(id, p) => w.(db := CreatePlan(w.db, id, p))
    case Decides(call, id, hash, d, actor, now) => Started(w, call, ReadForDecision(w.db, id, hash, d, actor, now))
    case Executes(call, id, now) => Started(w, call, ReadForExecution(w.db, id, now))
    case ReadsOrphans(call, orphans) => Started(w, call, Outcomes.Some(Recovering(orphans)))
    case Commits(call, result) => if call in w.calls then Commit(w, call, result) else w
    case Dies(call) => Ended(w, call)
  }

  /** Recovery reads plans that are EXECUTING, and an execution reports one of the outcomes. */
  ghost predicate Possible(w: World, s: Step) {
    match s
    case ReadsOrphans(_, orphans) => forall i :: 0 <= i < |orphans| ==> orphans[i] in w.db.plans && w.db.plans[orphans[i]].state == Executing
    case Commits(_, result) => IsOutcome(result)
    case _ => true
  }

  // What each plan has behind it.

  function MomentsOf(history: seq<Moment>, id: string): seq<Moment> {
    if history == [] then []
    else
      var n := |history| - 1;
      MomentsOf(history[..n], id) + if history[n].planId == id then [history[n]] else []
  }

  function ApprovalsOf(approvals: seq<Approval>, id: string): seq<Approval> {
    if approvals == [] then []
    else
      var n := |approvals| - 1;
      ApprovalsOf(approvals[..n], id) + if approvals[n].planId == id then [approvals[n]] else []
  }

  function RunsOf(runs: seq<RunRow>, id: string): seq<RunRow> {
    if runs == [] then []
    else
      var n := |runs| - 1;
      RunsOf(runs[..n], id) + if runs[n].planId == id then [runs[n]] else []
  }

  /** One decision of the given kind, with the plan's own hash, made no later than its deadline. */
  predicate DecidedOnce(p: Plan, id: string, d: Decision, moments: seq<Moment>, approvals: seq<Approval>) {
    && |moments| >= 1 && |approvals| == 1
    && moments[0] == Decided(id, p.hash, d, moments[0].at) && moments[0].at <= p.expiresAt
    && approvals[0].hash == p.hash && approvals[0].decision == d
    && approvals[0].createdAt == Stored(moments[0].at) && approvals[0].actor != ""
  }

  /** The rows and moments a plan in its state may have behind it. */
  predicate Consistent(p: Plan, id: string, moments: seq<Moment>, approvals: seq<Approval>, runs: seq<RunRow>) {
    match p.state
    case Proposed => moments == [] && approvals == [] && runs == []
    case Approved => |moments| == 1 && DecidedOnce(p, id, Approve, moments, approvals) && runs == []
    case Rejected => |moments| == 1 && DecidedOnce(p, id, Reject, moments, approvals) && runs == []
    case Expired =>
      && runs == []
      && (if moments == [] then approvals == [] else |moments| == 1 && DecidedOnce(p, id, Approve, moments, approvals))
    case Stale => false
    case Executing => ExecutedOnce(p, id, moments, approvals) && runs == []
    case _ => ExecutedOnce(p, id, moments, approvals) && runs == [RunRow(id, p.state)]
  }

  /** Approved and then entered execution, each once and in time. */
  predicate ExecutedOnce(p: Plan, id: string, moments: seq<Moment>, approvals: seq<Approval>) {
    && |moments| == 2 && DecidedOnce(p, id, Approve, moments, approvals)
    && moments[1] == Entered(id, moments[1].at) && moments[1].at <= p.expiresAt
  }

  ghost predicate PlanOk(w: World, id: string) {
    var moments, approvals, runs := MomentsOf(w.history, id), ApprovalsOf(w.db.approvals, id), RunsOf(w.db.runs, id);
    if id in w.db.plans then Consistent(w.db.plans[id], id, moments, approvals, runs)
    else moments == [] && approvals == [] && runs == []
  }

  ghost predicate CallOk(plans: map<string, Plan>, c: Call) {
    match c
    case WillExpire(id, from) => id in plans && (from == Proposed || from == Approved)
    case WillDecide(a, at) =>
      a.planId in plans && a.hash == plans[a.planId].hash && at <= plans[a.planId].expiresAt
      && a.createdAt == Stored(at) && a.actor != ""
    case WillExecute(id, at) => id in plans && at <= plans[id].expiresAt
    case Running(id) => id in plans && (plans[id].state == Executing || IsOutcome(plans[id].state))
    case Recovering(left) => forall i :: 0 <= i < |left| ==> left[i] in plans && (plans[left[i]].state == Executing || IsOutcome(plans[left[i]].state))
  }

  ghost predicate Inv(w: World) {
    && (forall id: string :: PlanOk(w, id))
    && (forall c :: c in w.calls ==> CallOk(w.db.plans, w.calls[c]))
  }

  ghost predicate Possibles(w: World, steps: seq<Step>)
    decreases |steps|
  {
    steps != [] ==> Possible(w, steps[0]) && Possibles(Next(w, steps[0]), steps[1..])
  }

  function Run(w: World, steps: seq<Step>): World
    decreases |steps|
  {
    if steps == [] then w else Run(Next(w, steps[0]), steps[1..])
  }

  const EMPTY := World(Db(map[], [], []), map[], [])

  // One statement at a time.

  /** A plan that execution has reached. */
  predicate Reached(s: PlanState) {
    s == Executing || IsOutcome(s)
  }

  /** Plans stay, keep their hash and deadline, and never leave execution for a state before it. */
  ghost predicate Grows(a: map<string, Plan>, b: map<string, Plan>) {
    forall id :: id in a ==>
      && id in b && b[id].hash == a[id].hash && b[id].expiresAt == a[id].expiresAt
      && b[id].incident == a[id].incident && b[id].host == a[id].host
      && (Reached(a[id].state) ==> Reached(b[id].state))
  }

  lemma {:induction false} CallStaysOk(a: map<string, Plan>, b: map<string, Plan>, c: Call)
    requires CallOk(a, c) && Grows(a, b)
    ensures CallOk(b, c)
  {
  }

  lemma {:induction false} CallsStayOk(a: map<string, Plan>, b: map<string, Plan>, calls: map<nat, Call>)
    requires forall c :: c in calls ==> CallOk(a, calls[c])
    requires Grows(a, b)
    ensures forall c :: c in calls ==> CallOk(b, calls[c])
  {
    forall c | c in calls ensures CallOk(b, calls[c]) { CallStaysOk(a, b, calls[c]); }
  }

  lemma {:induction false} MomentAppended(history: seq<Moment>, m: Moment, id: string)
    ensures MomentsOf(history + [m], id) == MomentsOf(history, id) + if m.planId == id then [m] else []
  {
    assert (history + [m])[..|history|] == history;
  }

  lemma {:induction false} ApprovalAppended(approvals: seq<Approval>, a: Approval, id: string)
    ensures ApprovalsOf(approvals + [a], id) == ApprovalsOf(approvals, id) + if a.planId == id then [a] else []
  {
    assert (approvals + [a])[..|approvals|] == approvals;
  }

  lemma {:induction false} RunAppended(runs: seq<RunRow>, r: RunRow, id: string)
    ensures RunsOf(runs + [r], id) == RunsOf(runs, id) + if r.planId == id then [r] else []
  {
    assert (runs + [r])[..|runs|] == runs;
  }

  lemma {:induction false} HasRunExact(runs: seq<RunRow>, id: string)
    ensures HasRun(runs, id) <==> RunsOf(runs, id) != []
  {
    if runs != [] {
      var n := |runs| - 1;
      HasRunExact(runs[..n], id);
      HasRunAppended(runs[..n], runs[n], id);
      assert runs == runs[..n] + [runs[n]];
    }
  }

  lemma {:induction false} HasRunAppended(runs: seq<RunRow>, r: RunRow, id: string)
    ensures HasRun(runs + [r], id) <==> HasRun(runs, id) || r.planId == id
  {
    var all := runs + [r];
    assert all[|runs|] == r;
    assert forall i :: 0 <= i < |runs| ==> all[i] == runs[i];
  }

  lemma {:induction false} CreateKeeps(w: World, id: string, p: Plan)
    requires Inv(w)
    ensures Inv(Next(w, Creates(id, p)))
  {
    var v := Next(w, Creates(id, p));
    CallsStayOk(w.db.plans, v.db.plans, w.calls);
    forall k: string ensures PlanOk(v, k) { assert PlanOk(w, k); }
  }

  lemma {:induction false} ExpireKeeps(w: World, id: string, from: PlanState)
    requires Inv(w) && (from == Proposed || from == Approved)
    ensures Inv(w.(db := SetState(w.db, id, from, Expired)))
  {
    var v := w.(db := SetState(w.db, id, from, Expired));
    CallsStayOk(w.db.plans, v.db.plans, w.calls);
    forall k: string ensures PlanOk(v, k) { assert PlanOk(w, k); }
  }

  lemma {:induction false} DecidedPlan(p: Plan, a: Approval, at: int)
    requires p.state == Proposed && a.hash == p.hash && at <= p.expiresAt && a.createdAt == Stored(at) && a.actor != ""
    ensures Consistent(p.(state := DecidedState(a.decision)), a.planId, [Decided(a.planId, a.hash, a.decision, at)], [a], [])
  {
    assert a.decision == Approve || a.decision == Reject;
  }

  lemma {:induction false} FinishedPlan(p: Plan, id: string, moments: seq<Moment>, approvals: seq<Approval>, result: PlanState)
    requires p.state == Executing && ExecutedOnce(p, id, moments, approvals) && IsOutcome(result)
    ensures Consistent(p.(state := result), id, moments, approvals, [RunRow(id, result)])
  {
    assert ExecutedOnce(p.(state := result), id, moments, approvals);
  }

  lemma {:induction false} DecideKeeps(w: World, a: Approval, at: int)
    requires Inv(w) && CallOk(w.db.plans, WillDecide(a, at)) && w.db.plans[a.planId].state == Proposed
    ensures Inv(w.(db := Decide(w.db, a), history := w.history + [Decided(a.planId, a.hash, a.decision, at)]))
  {
    var m := Decided(a.planId, a.hash, a.decision, at);
    var v := w.(db := Decide(w.db, a), history := w.history + [m]);
    CallsStayOk(w.db.plans, v.db.plans, w.calls);
    forall k: string ensures PlanOk(v, k) {
      assert PlanOk(w, k);
      MomentAppended(w.history, m, k);
      ApprovalAppended(w.db.approvals, a, k);
      if k == a.planId { DecidedPlan(w.db.plans[k], a, at); }
    }
  }

  lemma {:induction false} EnterKeeps(w: World, id: string, at: int)
    requires Inv(w) && CallOk(w.db.plans, WillExecute(id, at)) && w.db.plans[id].state == Approved
    ensures Inv(w.(db := SetState(w.db, id, Approved, Executing), history := w.history + [Entered(id, at)]))
  {
    var m := Entered(id, at);
    var v := w.(db := SetState(w.db, id, Approved, Executing), history := w.history + [m]);
    CallsStayOk(w.db.plans, v.db.plans, w.calls);
    forall k: string ensures PlanOk(v, k) {
      assert PlanOk(w, k);
      MomentAppended(w.history, m, k);
    }
  }

  /** An execution or a recovery reports once: the second report is refused by the unique index. */
  lemma {:induction false} FinishOnce(w: World, id: string, result: PlanState)
    requires Inv(w) && CallOk(w.db.plans, Running(id))
    ensures FinishRun(w.db, id, result).Ok? <==> w.db.plans[id].state == Executing
  {
    assert PlanOk(w, id);
    HasRunExact(w.db.runs, id);
  }

  lemma {:induction false} FinishKeeps(w: World, id: string, result: PlanState)
    requires Inv(w) && CallOk(w.db.plans, Running(id)) && IsOutcome(result)
    ensures FinishRun(w.db, id, result).Ok? ==> Inv(w.(db := FinishRun(w.db, id, result).value))
  {
    FinishOnce(w, id, result);
    var r := FinishRun(w.db, id, result);
    if r.Ok? {
      var v := w.(db := r.value);
      assert Grows(w.db.plans, v.db.plans);
      CallsStayOk(w.db.plans, v.db.plans, w.calls);
      forall k: string ensures PlanOk(v, k) { FinishPlan(w, id, result, k); }
    }
  }

  lemma {:induction false} FinishPlan(w: World, id: string, result: PlanState, k: string)
    requires PlanOk(w, k) && id in w.db.plans && w.db.plans[id].state == Executing && IsOutcome(result)
    requires FinishRun(w.db, id, result).Ok?
    ensures PlanOk(w.(db := FinishRun(w.db, id, result).value), k)
  {
    RunAppended(w.db.runs, RunRow(id, result), k);
    if k == id {
      FinishedPlan(w.db.plans[k], id, MomentsOf(w.history, id), ApprovalsOf(w.db.approvals, id), result);
    } else {
      assert RunsOf(w.db.runs, k) + [] == RunsOf(w.db.runs, k);
    }
  }

  /** Calls may be added or replaced by ones that fit the plans. */
  lemma {:induction false} CallsChange(w: World, calls: map<nat, Call>)
    requires Inv(w) && forall c :: c in calls ==> CallOk(w.db.plans, calls[c])
    ensures Inv(w.(calls := calls))
  {
    var v := w.(calls := calls);
    forall k: string ensures PlanOk(v, k) { assert PlanOk(w, k); }
  }

  lemma {:induction false} RecoverKeeps(w: World, call: nat, result: PlanState)
    requires Inv(w) && call in w.calls && w.calls[call].Recovering?
    ensures Inv(Commit(w, call, result))
  {
    var left := w.calls[call].left;
    assert CallOk(w.db.plans, w.calls[call]);
    if left == [] {
      CallsChange(w, w.calls - {call});
    } else {
      assert CallOk(w.db.plans, Running(left[0]));
      FinishKeeps(w, left[0], ExecutionFailed);
      var r := FinishRun(w.db, left[0], ExecutionFailed);
      if r.Ok? {
        var v := w.(db := r.value);
        assert CallOk(v.db.plans, v.calls[call]);
        CallsChange(v, v.calls[call := Recovering(left[1..])]);
      } else {
        CallsChange(w, w.calls - {call});
      }
    }
  }

  lemma {:induction false} CommitKeeps(w: World, call: nat, result: PlanState)
    requires Inv(w) && call in w.calls && IsOutcome(result)
    ensures Inv(Commit(w, call, result))
  {
    assert CallOk(w.db.plans, w.calls[call]);
    match w.calls[call]
    case WillExpire(id, from) =>
      ExpireKeeps(w, id, from);
      CallsChange(w.(db := SetState(w.db, id, from, Expired)), w.calls - {call});
    case WillDecide(a, at) =>
      if w.db.plans[a.planId].state == Proposed {
        DecideKeeps(w, a, at);
        CallsChange(w.(db := Decide(w.db, a), history := w.history + [Decided(a.planId, a.hash, a.decision, at)]), w.calls - {call});
      } else {
        CallsChange(w, w.calls - {call});
      }
    case WillExecute(id, at) =>
      if w.db.plans[id].state == Approved {
        EnterKeeps(w, id, at);
        CallsChange(w.(db := SetState(w.db, id, Approved, Executing), history := w.history + [Entered(id, at)]),
                    w.calls[call := Running(id)]);
      } else {
        CallsChange(w, w.calls - {call});
      }
    case Running(id) =>
      FinishKeeps(w, id, result);
      var r := FinishRun(w.db, id, result);
      CallsChange(if r.Ok? then w.(db := r.value) else w, w.calls - {call});
    case Recovering(_) => RecoverKeeps(w, call, result);
  }

  lemma {:induction false} StartKeeps(w: World, call: nat, c: Outcomes.Option<Call>)
    requires Inv(w) && (c.Some? ==> CallOk(w.db.plans, c.value))
    ensures Inv(Started(w, call, c))
  {
    if c.Some? && call !in w.calls { CallsChange(w, w.calls[call := c.value]); }
  }

  lemma {:induction false} StepKeepsInv(w: World, s: Step)
    requires Inv(w) && Possible(w, s)
    ensures Inv(Next(w, s))
  {
    match s
    case Creates(id, p) => CreateKeeps(w, id, p);
    case Decides(call, id, hash, d, actor, now) => StartKeeps(w, call, ReadForDecision(w.db, id, hash, d, actor, now));
    case Executes(call, id, now) => StartKeeps(w, call, ReadForExecution(w.db, id, now));
    case ReadsOrphans(call, orphans) => StartKeeps(w, call, Outcomes.Some(Recovering(orphans)));
    case Commits(call, result) => if call in w.calls { CommitKeeps(w, call, result); }
    case Dies(call) => CallsChange(w, w.calls - {call});
  }

  /** Whatever calls overlap, wherever processes die: every plan's rows and moments fit its state. */
  lemma {:induction false} RunKeepsInv(w: World, steps: seq<Step>)
    requires Inv(w) && Possibles(w, steps)
    ensures Inv(Run(w, steps))
    decreases |steps|
  {
    if steps != [] {
      StepKeepsInv(w, steps[0]);
      RunKeepsInv(Next(w, steps[0]), steps[1..]);
    }
  }

  // What holds in every run that starts from empty tables.

  lemma {:induction false} EmptyInv()
    ensures Inv(EMPTY)
  {
    forall id: string ensures PlanOk(EMPTY, id) {}
  }

  /** Where a plan's moments stand in the whole history. */
  function Positions(history: seq<Moment>, id: string): seq<nat> {
    if history == [] then []
    else var n := |history| - 1; Positions(history[..n], id) + if history[n].planId == id then [n] else []
  }

  lemma {:induction false} PositionsHold(history: seq<Moment>, id: string)
    ensures |Positions(history, id)| == |MomentsOf(history, id)|
    ensures forall t :: 0 <= t < |Positions(history, id)| ==>
      Positions(history, id)[t] < |history| && history[Positions(history, id)[t]] == MomentsOf(history, id)[t]
  {
    if history != [] { PositionsHold(history[..|history| - 1], id); }
  }

  lemma {:induction false} PositionsRise(history: seq<Moment>, id: string)
    ensures forall t, u :: 0 <= t < u < |Positions(history, id)| ==> Positions(history, id)[t] < Positions(history, id)[u]
  {
    if history != [] {
      PositionsRise(history[..|history| - 1], id);
      PositionsHold(history[..|history| - 1], id);
    }
  }

  lemma {:induction false} PositionOf(history: seq<Moment>, id: string, i: nat) returns (t: nat)
    requires i < |history| && history[i].planId == id
    ensures t < |Positions(history, id)| && Positions(history, id)[t] == i
  {
    var n := |history| - 1;
    if i == n {
      t := |Positions(history[..n], id)|;
    } else {
      t := PositionOf(history[..n], id, i);
    }
  }

  /** Rows never contradict each other: at most one decision, by one actor, for the plan's own hash, in time. */
  lemma {:induction false} DecidedAtMostOnce(steps: seq<Step>, id: string)
    requires Possibles(EMPTY, steps)
    ensures var w := Run(EMPTY, steps);
      |ApprovalsOf(w.db.approvals, id)| <= 1
      && forall a :: a in ApprovalsOf(w.db.approvals, id) ==>
          id in w.db.plans && a.hash == w.db.plans[id].hash && a.actor != "" && a.createdAt <= w.db.plans[id].expiresAt
  {
    EmptyInv();
    RunKeepsInv(EMPTY, steps);
    var w := Run(EMPTY, steps);
    assert PlanOk(w, id);
    if id in w.db.plans && w.db.plans[id].state != Proposed {
      assert Consistent(w.db.plans[id], id, MomentsOf(w.history, id), ApprovalsOf(w.db.approvals, id), RunsOf(w.db.runs, id));
    }
  }

  /** A plan enters execution at most once, in time, and only after its own hash was approved in time. */
  lemma {:induction false} ExecutionAuthorized(steps: seq<Step>, i: nat)
    requires Possibles(EMPTY, steps)
    requires i < |Run(EMPTY, steps).history| && Run(EMPTY, steps).history[i].Entered?
    ensures var w := Run(EMPTY, steps); var id := w.history[i].planId;
      && id in w.db.plans && w.history[i].at <= w.db.plans[id].expiresAt
      && (exists j :: 0 <= j < i && w.history[j] == Decided(id, w.db.plans[id].hash, Approve, w.history[j].at)
                      && w.history[j].at <= w.db.plans[id].expiresAt)
      && (forall k :: 0 <= k < |w.history| && w.history[k].planId == id && k != i ==> w.history[k].Decided? && k < i && w.history[k].decision == Approve)
  {
    EmptyInv();
    RunKeepsInv(EMPTY, steps);
    var w := Run(EMPTY, steps);
    var id := w.history[i].planId;
    assert PlanOk(w, id);
    var at := Positions(w.history, id);
    PositionsHold(w.history, id);
    PositionsRise(w.history, id);
    var t := PositionOf(w.history, id, i);
    assert |at| == 2 && i == at[1] && w.history[at[0]].Decided?;
    forall k | 0 <= k < |w.history| && w.history[k].planId == id && k != i ensures k == at[0] {
      var u := PositionOf(w.history, id, k);
    }
  }

  /** A plan has a run row exactly in the outcome states, only one, and it carries that outcome. */
  lemma {:induction false} RunIffOutcome(steps: seq<Step>, id: string)
    requires Possibles(EMPTY, steps)
    ensures var w := Run(EMPTY, steps);
      && (HasRun(w.db.runs, id) <==> id in w.db.plans && IsOutcome(w.db.plans[id].state))
      && (HasRun(w.db.runs, id) ==> RunsOf(w.db.runs, id) == [RunRow(id, w.db.plans[id].state)])
  {
    EmptyInv();
    RunKeepsInv(EMPTY, steps);
    var w := Run(EMPTY, steps);
    assert PlanOk(w, id);
    HasRunExact(w.db.runs, id);
  }

  predicate Final(s: PlanState) {
    s == Rejected || s == Expired || IsOutcome(s)
  }

  /** A late report, a late decision, a late expiry or a recovery never touches a finished plan. */
  lemma {:induction false} FinalStays(w: World, steps: seq<Step>, id: string)
    requires Inv(w) && Possibles(w, steps) && id in w.db.plans && Final(w.db.plans[id].state)
    ensures id in Run(w, steps).db.plans && Run(w, steps).db.plans[id] == w.db.plans[id]
    decreases |steps|
  {
    if steps != [] {
      FinalStep(w, steps[0], id);
      StepKeepsInv(w, steps[0]);
      FinalStays(Next(w, steps[0]), steps[1..], id);
    }
  }

  lemma {:induction false} FinalStep(w: World, s: Step, id: string)
    requires Inv(w) && Possible(w, s) && id in w.db.plans && Final(w.db.plans[id].state)
    ensures id in Next(w, s).db.plans && Next(w, s).db.plans[id] == w.db.plans[id]
  {
    if s.Commits? && s.call in w.calls {
      assert CallOk(w.db.plans, w.calls[s.call]);
    }
  }

  // The discipline of FinishRun's callers matters.

  ghost predicate RunRule(db: Db, id: string) {
    HasRun(db.runs, id) <==> id in db.plans && IsOutcome(db.plans[id].state)
  }

  /** FinishRun itself keeps the rule exactly when it refuses, or the plan is EXECUTING and the result an outcome. */
  lemma {:induction false} FinishRunExact(db: Db, id: string, result: PlanState)
    requires id in db.plans && RunRule(db, id)
    ensures var r := FinishRun(db, id, result);
      RunRule(if r.Ok? then r.value else db, id) <==> IsOutcome(db.plans[id].state) || (db.plans[id].state == Executing && IsOutcome(result))
  {
    var r := FinishRun(db, id, result);
    if r.Ok? {
      assert r.value.runs[|db.runs|].planId == id;
      assert HasRun(r.value.runs, id);
    }
  }

  const UNAPPROVED := Db(map["p" := Plan("i", "h", "hash", Proposed, 0)], [], [])

  /** A report for a plan nobody approved is stored and leaves the plan PROPOSED. */
  lemma {:induction false} FinishRunUnguarded(result: PlanState)
    ensures RunRule(UNAPPROVED, "p")
    ensures var r := FinishRun(UNAPPROVED, "p", result);
      r.Ok? && r.value.plans == UNAPPROVED.plans && HasRun(r.value.runs, "p") && !RunRule(r.value, "p")
  {
    FinishRunExact(UNAPPROVED, "p", result);
    var r := FinishRun(UNAPPROVED, "p", result);
    assert r.value.runs[0].planId == "p";
  }
}
