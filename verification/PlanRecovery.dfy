/** `RecoverOrphanedExecutingPlans` while other processes work on the same plans (internal/agentcontroller/remediation.go). */
module PlanRecovery {
  import opened RemediationPlans

  /** A recovery closes the next plan it read and goes on exactly when that plan is still EXECUTING; otherwise it ends there,
      having changed nothing, and the plans after it are left as they are. */
  lemma {:induction false} RecoveryStepExact(w: World, call: nat, any: PlanState)
    requires Inv(w) && call in w.calls && w.calls[call].Recovering? && w.calls[call].left != []
    ensures var v, left := Commit(w, call, any), w.calls[call].left;
      && left[0] in w.db.plans
      && (call in v.calls <==> w.db.plans[left[0]].state == Executing)
      && (call in v.calls ==> v.calls[call] == Recovering(left[1..])
                              && v.db.plans == w.db.plans[left[0] := w.db.plans[left[0]].(state := ExecutionFailed)])
      && (call !in v.calls ==> v.db == w.db)
  {
    var left := w.calls[call].left;
    assert CallOk(w.db.plans, w.calls[call]);
    assert CallOk(w.db.plans, Running(left[0]));
    FinishOnce(w, left[0], ExecutionFailed);
  }

  /** The step neither kills the call, nor gives its name to another, nor commits it on a plan that was reported meanwhile. */
  predicate Unbeaten(w: World, s: Step, call: nat) {
    match s
    case Dies(c) => c != call
    case Decides(c, _, _, _, _, _) => c != call
    case Executes(c, _, _) => c != call
    case ReadsOrphans(c, _) => c != call
    case Commits(c, _) =>
      c == call && c in w.calls && w.calls[c].Recovering? && w.calls[c].left != [] ==>
        w.calls[c].left[0] in w.db.plans && w.db.plans[w.calls[c].left[0]].state == Executing
    case Creates(_, _) => true
  }

  predicate NeverBeaten(w: World, steps: seq<Step>, call: nat)
    decreases |steps|
  {
    steps != [] ==> Unbeaten(w, steps[0], call) && NeverBeaten(Next(w, steps[0]), steps[1..], call)
  }

  /** The recovery has closed the first `k` plans it read. */
  ghost predicate Closed(w: World, call: nat, read: seq<string>, k: nat) {
    && k <= |read|
    && (forall i :: 0 <= i < k ==> read[i] in w.db.plans && IsOutcome(w.db.plans[read[i]].state))
    && (if call in w.calls then w.calls[call] == Recovering(read[k..]) else k == |read|)
  }

  lemma {:induction false} OthersKeepCall(w: World, s: Step, call: nat)
    requires Unbeaten(w, s, call) && !(s.Commits? && s.call == call)
    ensures call in Next(w, s).calls <==> call in w.calls
    ensures call in w.calls ==> Next(w, s).calls[call] == w.calls[call]
  {
  }

  lemma {:induction false} OutcomesStay(w: World, s: Step, read: seq<string>, k: nat)
    requires Inv(w) && Possible(w, s) && k <= |read|
    requires forall i :: 0 <= i < k ==> read[i] in w.db.plans && IsOutcome(w.db.plans[read[i]].state)
    ensures forall i :: 0 <= i < k ==> read[i] in Next(w, s).db.plans && IsOutcome(Next(w, s).db.plans[read[i]].state)
  {
    forall i | 0 <= i < k ensures read[i] in Next(w, s).db.plans && IsOutcome(Next(w, s).db.plans[read[i]].state) {
      FinalStep(w, s, read[i]);
    }
  }

  lemma {:induction false} StepCloses(w: World, s: Step, call: nat, read: seq<string>, k: nat) returns (next: nat)
    requires Inv(w) && Possible(w, s) && Unbeaten(w, s, call) && Closed(w, call, read, k)
    ensures k <= next && Closed(Next(w, s), call, read, next)
  {
    next := k;
    OutcomesStay(w, s, read, k);
    if s.Commits? && s.call == call && call in w.calls {
      if k < |read| {
        assert w.calls[call].left[0] == read[k] && read[k..][1..] == read[k + 1..];
        RecoveryStepExact(w, call, s.result);
        next := k + 1;
      }
    } else if !(s.Commits? && s.call == call) {
      OthersKeepCall(w, s, call);
    }
  }

  /** Under every interleaving in which no plan it read is reported before it gets there, a recovery that ends without being
      killed leaves every plan it read in an outcome state. */
  lemma {:induction false} RecoveryClosesAll(w: World, steps: seq<Step>, call: nat, read: seq<string>, k: nat)
    requires Inv(w) && Possibles(w, steps) && NeverBeaten(w, steps, call) && Closed(w, call, read, k)
    ensures var v := Run(w, steps);
      call !in v.calls ==> forall i :: 0 <= i < |read| ==> read[i] in v.db.plans && IsOutcome(v.db.plans[read[i]].state)
    decreases |steps|
  {
    if steps != [] {
      var next := StepCloses(w, steps[0], call, read, k);
      StepKeepsInv(w, steps[0]);
      RecoveryClosesAll(Next(w, steps[0]), steps[1..], call, read, next);
    }
  }

  // A recovery that is beaten.

  lemma {:induction false} RunSnoc(w: World, steps: seq<Step>, s: Step)
    ensures Run(w, steps + [s]) == Next(Run(w, steps), s)
    ensures Possibles(w, steps) && Possible(Run(w, steps), s) ==> Possibles(w, steps + [s])
    decreases |steps|
  {
    if steps == [] {
      assert [s][1..] == [] && [] + [s] == [s];
      assert Run(w, [s]) == Run(Next(w, s), []);
    } else {
      assert (steps + [s])[0] == steps[0] && (steps + [s])[1..] == steps[1..] + [s];
      RunSnoc(Next(w, steps[0]), steps[1..], s);
    }
  }

  lemma {:induction false} Reaches(steps: seq<Step>, w: World, s: Step)
    requires Possibles(EMPTY, steps) && Run(EMPTY, steps) == w && Possible(w, s)
    ensures Possibles(EMPTY, steps + [s]) && Run(EMPTY, steps + [s]) == Next(w, s)
  {
    RunSnoc(EMPTY, steps, s);
  }

  /** The row is in the given state. */
  predicate Stands(w: World, id: string, state: PlanState) {
    id in w.db.plans && w.db.plans[id].state == state
  }

  lemma {:induction false} ProposesTwo(a: string, p: Plan, b: string, q: Plan) returns (steps: seq<Step>, w: World)
    requires a != b
    ensures Possibles(EMPTY, steps) && Run(EMPTY, steps) == w && Stands(w, a, Proposed) && Stands(w, b, Proposed)
    ensures w.db.runs == [] && w.calls == map[]
  {
    Reaches([], EMPTY, Creates(a, p));
    w := Next(EMPTY, Creates(a, p));
    Reaches([] + [Creates(a, p)], w, Creates(b, q));
    steps, w := [] + [Creates(a, p)] + [Creates(b, q)], Next(w, Creates(b, q));
  }

  /** Approves and starts a proposed plan at its deadline; `call` is left running it. */
  lemma {:induction false} Executed(w: World, id: string, actor: string, call: nat, out: PlanState) returns (w4: World)
    requires Stands(w, id, Proposed) && actor != "" && call !in w.calls && IsOutcome(out)
    ensures var p := w.db.plans[id];
      w4 == Next(Next(Next(Next(w, Decides(call, id, p.hash, Approve, actor, p.expiresAt)), Commits(call, out)), Executes(call, id, p.expiresAt)), Commits(call, out))
    ensures w4.db.plans == w.db.plans[id := w.db.plans[id].(state := Executing)] && w4.db.runs == w.db.runs && w4.calls == w.calls[call := Running(id)]
  {
    var p := w.db.plans[id];
    var w1 := Next(w, Decides(call, id, p.hash, Approve, actor, p.expiresAt));
    assert w1.calls == w.calls[call := WillDecide(w1.calls[call].approval, p.expiresAt)];
    var w2 := Next(w1, Commits(call, out));
    assert w2.calls == w.calls && w2.db.plans == w.db.plans[id := p.(state := Approved)];
    var w3 := Next(w2, Executes(call, id, p.expiresAt));
    assert w3.calls == w.calls[call := WillExecute(id, p.expiresAt)];
    w4 := Next(w3, Commits(call, out));
  }

  lemma {:induction false} ReachesExecuted(steps: seq<Step>, w: World, id: string, actor: string, call: nat, out: PlanState)
    returns (more: seq<Step>, v: World)
    requires Possibles(EMPTY, steps) && Run(EMPTY, steps) == w
    requires Stands(w, id, Proposed) && actor != "" && call !in w.calls && IsOutcome(out)
    ensures Possibles(EMPTY, more) && Run(EMPTY, more) == v
    ensures v.db.plans == w.db.plans[id := w.db.plans[id].(state := Executing)] && v.db.runs == w.db.runs && v.calls == w.calls[call := Running(id)]
  {
    var p := w.db.plans[id];
    var s1, s2, s3 := Decides(call, id, p.hash, Approve, actor, p.expiresAt), Commits(call, out), Executes(call, id, p.expiresAt);
    v := Executed(w, id, actor, call, out);
    Reaches(steps, w, s1);
    Reaches(steps + [s1], Next(w, s1), s2);
    Reaches(steps + [s1] + [s2], Next(Next(w, s1), s2), s3);
    Reaches(steps + [s1] + [s2] + [s3], Next(Next(Next(w, s1), s2), s3), s2);
    more := steps + [s1] + [s2] + [s3] + [s2];
  }

  /** Two EXECUTING plans, the process of the second dead, and a recovery that has read both. */
  lemma {:induction false} ReadsBoth(a: string, p: Plan, b: string, q: Plan, actor: string, out: PlanState) returns (steps: seq<Step>, w: World)
    requires a != b && actor != "" && IsOutcome(out)
    ensures Possibles(EMPTY, steps) && Run(EMPTY, steps) == w && Stands(w, a, Executing) && Stands(w, b, Executing)
    ensures w.db.runs == [] && w.calls == map[1 := Running(a), 3 := Recovering([a, b])]
  {
    steps, w := ProposesTwo(a, p, b, q);
    steps, w := ReachesExecuted(steps, w, a, actor, 1, out);
    steps, w := ReachesExecuted(steps, w, b, actor, 2, out);
    Reaches(steps, w, Dies(2));
    steps, w := steps + [Dies(2)], Next(w, Dies(2));
    assert w.calls == map[1 := Running(a)];
    Reaches(steps, w, ReadsOrphans(3, [a, b]));
    steps, w := steps + [ReadsOrphans(3, [a, b])], Next(w, ReadsOrphans(3, [a, b]));
  }

  /** Any two plans can come to be EXECUTING with one process left, which runs the first, and a recovery that has read both.
      When that process reports before the recovery commits, the recovery ends there: the second plan stays EXECUTING, with no
      process and no recovery left to close it. */
  lemma {:induction false} RecoveryBeaten(a: string, p: Plan, b: string, q: Plan, actor: string, out: PlanState) returns (before: seq<Step>)
    requires a != b && actor != "" && IsOutcome(out)
    ensures Possibles(EMPTY, before)
    ensures var w := Run(EMPTY, before);
      Stands(w, a, Executing) && Stands(w, b, Executing) && w.calls == map[1 := Running(a), 3 := Recovering([a, b])]
    ensures Possibles(EMPTY, before + [Commits(1, out)] + [Commits(3, out)])
    ensures var w := Run(EMPTY, before + [Commits(1, out)] + [Commits(3, out)]);
      Stands(w, a, out) && Stands(w, b, Executing) && w.calls == map[]
  {
    var w;
    before, w := ReadsBoth(a, p, b, q, actor, out);
    var v := Next(w, Commits(1, out));
    assert v.calls == map[3 := Recovering([a, b])] && v.db.runs == [RunRow(a, out)] && v.db.plans[b] == w.db.plans[b];
    assert HasRun(v.db.runs, a) by { assert v.db.runs[0].planId == a; }
    Reaches(before, w, Commits(1, out));
    Reaches(before + [Commits(1, out)], v, Commits(3, out));
    assert Next(v, Commits(3, out)).calls == map[];
  }
}
