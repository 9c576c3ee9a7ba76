/** The incident tables as `Store` updates them. */
module IncidentStore {
  import opened Outcomes
  import opened Timestamps
  import opened Incidents

  class Store {
    var incidents: map<string, Incident>
    var runs: map<string, AgentRun>
    var events: seq<EventRow>

    function Now(): Tables
      reads this
    {
      Tables(incidents, runs, events)
    }

    constructor ()
      ensures Now() == Tables(map[], map[], []) && TablesOk(Now())
    {
      incidents, runs, events := map[], map[], [];
    }

    /** `changed` when a revision was recorded; `needsDispatch` when the event moved its incident into OPEN. */
    method IngestEvent(ev: Event, id: string, now: int) returns (ok: bool, changed: bool, needsDispatch: bool)
      requires TablesOk(Now())
      modifies this`incidents, this`events
      ensures TablesOk(Now()) && Now() == Ingest(old(Now()), ev, id, now) && Ingested(old(Now()), Now(), ev, id, now)
      ensures ok <==> id !in old(incidents) || exists row :: ActiveFor(old(Now()), ev.identity, row)
      ensures changed <==> events != old(events)
      ensures needsDispatch <==> exists k :: BecameOpen(old(incidents), incidents, k)
      ensures forall row :: ActiveFor(old(Now()), ev.identity, row) ==> (needsDispatch <==> FiresAnew(old(incidents)[row], ev))
    {
      IngestKeeps(Now(), ev, id, now);
      IngestMeans(Now(), ev, id, now);
      forall row ensures ActiveFor(Now(), ev.identity, row) <==> IsActiveRow(incidents, ev.identity, row) {}
      ok, changed, needsDispatch := true, false, false;
      if row :| row in incidents && IsActiveRow(incidents, ev.identity, row) {
        TheActiveRow(incidents, ev.identity, row);
        var i := incidents[row];
        var reopens := Reopens(i, ev);
        incidents := incidents[row := Updated(i, ev, now)];
        if !Replays(i, ev) {
          events := events + [EventRow(row, i.revision + 1, ev.resolved)];
          changed, needsDispatch := true, reopens;
          assert BecameOpen(old(incidents), incidents, row) <==> reopens;
        }
      } else if id in incidents {
        ok := false;
      } else {
        incidents := incidents[id := Fresh(ev, now)];
        events := events + [EventRow(id, 1, ev.resolved)];
        changed, needsDispatch := true, !ev.resolved;
        assert BecameOpen(old(incidents), incidents, id) <==> !ev.resolved;
      }
    }

    method EnqueueRun(id: string, run: string, now: int) returns (ok: bool)
      requires TablesOk(Now())
      modifies this`incidents, this`runs
      ensures TablesOk(Now())
      ensures var r := Enqueue(old(Now()), id, run, now); ok == r.Ok? && Now() == if r.Ok? then r.value else old(Now())
      ensures ok ==> RunEnqueued(old(Now()), Now(), id, run, now)
    {
      ok := false;
      if run in runs || id !in incidents || exists r | r in runs :: InFlight(runs, id, r) { return; }
      if Terminal(incidents[id].status) && exists k | k in incidents :: k != id && IsActiveRow(incidents, incidents[id].identity, k) { return; }
      EnqueueKeeps(Now(), id, run, now);
      var i := incidents[id];
      runs := runs[run := AgentRun(id, RunQueued)];
      incidents := incidents[id := i.(status := Queued, updatedAt := Stored(now), nextDispatch := None, attempts := i.attempts + 1)];
      ok := true;
    }

    /** Refused exactly when the run is finished and its incident has another one in flight. */
    method StartRun(run: string, id: string, now: int) returns (ok: bool)
      modifies this`incidents, this`runs
      ensures ok <==> CanStart(old(Now()), run)
      ensures Now() == if ok then Start(old(Now()), run, id, now) else old(Now())
      ensures ok ==> RunIs(old(Now()), Now(), run, RunInvestigating)
                     && Follows(old(Now()), Now(), id, Investigating, if id in old(incidents) then old(incidents)[id].nextDispatch else None, now)
      ensures old(TablesOk(Now()) && InFlight(runs, id, run)) ==> TablesOk(Now()) && InFlight(runs, id, run)
    {
      if TablesOk(Now()) && InFlight(runs, id, run) { RunKeeps(Now(), run, id, 0, 0, 0, now); }
      ok := run !in runs || Alive(runs[run].state) || !exists r | r in runs :: InFlight(runs, runs[run].incident, r);
      if !ok { return; }
      runs := Marked(runs, run, RunInvestigating);
      incidents := Moved(incidents, id, Investigating, NextDispatch(incidents, id), now);
    }

    method CompleteRunDiagnosed(run: string, id: string, now: int)
      modifies this`incidents, this`runs
      ensures Now() == Complete(old(Now()), run, id, now) && RunIs(old(Now()), Now(), run, RunDiagnosed)
      ensures Follows(old(Now()), Now(), id, Diagnosed, if id in old(incidents) then old(incidents)[id].nextDispatch else None, now)
      ensures old(TablesOk(Now()) && InFlight(runs, id, run)) ==> TablesOk(Now()) && !HasAlive(runs, id)
    {
      if TablesOk(Now()) && InFlight(runs, id, run) {
        RunKeeps(Now(), run, id, 0, 0, 0, now);
        NoneLeft(runs, id, run, RunDiagnosed);
      }
      runs := Marked(runs, run, RunDiagnosed);
      incidents := Moved(incidents, id, Diagnosed, NextDispatch(incidents, id), now);
    }

    /** Retried exactly when attempts are left; a resolved, suppressed or closed incident is never touched. */
    method FailRunAndMaybeRetry(run: string, id: string, used: nat, maxAttempts: int, backoff: int, now: int) returns (retried: bool)
      modifies this`incidents, this`runs
      ensures Now() == Fail(old(Now()), run, id, used, maxAttempts, backoff, now) && RunIs(old(Now()), Now(), run, RunFailed)
      ensures retried ==> Follows(old(Now()), Now(), id, Open, Some(Stored(now + backoff)), now)
      ensures !retried ==> Follows(old(Now()), Now(), id, AgentFailed, None, now)
      ensures old(TablesOk(Now()) && InFlight(runs, id, run)) ==> TablesOk(Now())
      ensures retried <==> used < maxAttempts
    {
      if TablesOk(Now()) && InFlight(runs, id, run) { RunKeeps(Now(), run, id, used, maxAttempts, backoff, now); }
      runs := Marked(runs, run, RunFailed);
      retried := used < maxAttempts;
      var status, next := AgentFailed, None;
      if retried { status, next := Open, Some(Stored(now + backoff)); }
      incidents := Moved(incidents, id, status, next, now);
    }

    /** `inFlight` are the rows of the query for runs in flight, in the order it returns them. */
    method RecoverInFlightRuns(inFlight: seq<string>, now: int) returns (recovered: nat)
      requires TablesOk(Now()) && ListsAlive(runs, inFlight)
      modifies this`incidents, this`runs
      ensures TablesOk(Now()) && Now() == Recover(old(Now()), now) && Recovered(old(Now()), Now(), now) && recovered == |inFlight|
      ensures forall id: string :: !HasAlive(runs, id)
    {
      RecoverKeeps(Now(), now);
      RecoverMeans(Now(), now);
      RecoverAllExact(Now(), inFlight, now);
      for i := 0 to |inFlight|
        invariant RecoverAll(Now(), inFlight[i..], now) == Recover(old(Now()), now)
      {
        assert inFlight[i..][0] == inFlight[i] && inFlight[i..][1..] == inFlight[i + 1..];
        var run := inFlight[i];
        var id := if run in runs then runs[run].incident else "";
        runs := Marked(runs, run, RunFailed);
        incidents := Moved(incidents, id, Open, None, now);
      }
      recovered := |inFlight|;
    }
  }

  lemma {:induction false} NoneLeft(runs: map<string, AgentRun>, id: string, run: string, state: RunState)
    requires OneRun(runs) && InFlight(runs, id, run) && !Alive(state)
    ensures !HasAlive(Marked(runs, run, state), id)
  {
    assert forall r :: InFlight(Marked(runs, run, state), id, r) ==> r != run && InFlight(runs, id, r);
  }

  predicate BecameOpen(before: map<string, Incident>, after: map<string, Incident>, id: string) {
    id in after && after[id].status == Open && (id in before ==> before[id].status != Open)
  }

  ghost predicate ListsAlive(runs: map<string, AgentRun>, listed: seq<string>) {
    && (forall i, j :: 0 <= i < j < |listed| ==> listed[i] != listed[j])
    && (forall r :: r in listed <==> r in runs && Alive(runs[r].state))
  }

  function RecoverOne(t: Tables, run: string, now: int): Tables {
    t.(runs := Marked(t.runs, run, RunFailed),
       incidents := Moved(t.incidents, if run in t.runs then t.runs[run].incident else "", Open, None, now))
  }

  function RecoverAll(t: Tables, listed: seq<string>, now: int): Tables
    decreases |listed|
  {
    if listed == [] then t else RecoverAll(RecoverOne(t, listed[0], now), listed[1..], now)
  }

  lemma {:induction false} RecoverOneLeaves(t: Tables, run: string, now: int)
    requires run in t.runs && Alive(t.runs[run].state)
    ensures Recover(RecoverOne(t, run, now), now) == Recover(t, now)
  {
    var n := RecoverOne(t, run, now);
    var id := t.runs[run].incident;
    assert InFlight(t.runs, id, run);
    forall k: string | k != id ensures HasAlive(n.runs, k) <==> HasAlive(t.runs, k) {
      AliveElsewhere(t.runs, n.runs, id, run, k);
    }
    assert Recover(n, now).runs == Recover(t, now).runs;
    assert Recover(n, now).incidents == Recover(t, now).incidents;
  }

  /** One run after another, in any order, comes to recovering them all at once. */
  lemma {:induction false} RecoverAllExact(t: Tables, listed: seq<string>, now: int)
    requires ListsAlive(t.runs, listed)
    ensures RecoverAll(t, listed, now) == Recover(t, now)
    decreases |listed|
  {
    if listed == [] {
      assert forall r :: r in t.runs ==> !Alive(t.runs[r].state);
      assert Recover(t, now).runs == t.runs && Recover(t, now).incidents == t.incidents;
    } else {
      assert listed[0] in listed;
      RecoverOneLeaves(t, listed[0], now);
      var n := RecoverOne(t, listed[0], now);
      assert ListsAlive(n.runs, listed[1..]) by {
        assert forall r :: r in listed <==> r == listed[0] || r in listed[1..];
      }
      RecoverAllExact(n, listed[1..], now);
    }
  }
}
