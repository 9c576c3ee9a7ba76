/** Incidents, their agent runs and their event rows: the transactions of internal/agentcontroller/incident.go
    over the tables and unique indexes of schemaV1 (store.go). */
module Incidents {
  import opened Outcomes
  import opened Timestamps

  datatype Status = Open | Queued | Investigating | Diagnosed | AgentFailed | Suppressed | ResolvedExternal | Closed

  predicate Terminal(s: Status) {
    s == ResolvedExternal || s == Closed
  }

  /** The statuses that a run's transactions leave alone. */
  predicate Frozen(s: Status) {
    Terminal(s) || s == Suppressed
  }

  datatype Identity = Identity(source: string, episode: string)

  /** An incidents row; `nextDispatch` is None for the empty string, `host` is empty when it is NULL. */
  datatype Incident = Incident(
    identity: Identity, host: string, status: Status, revision: nat, body: string,
    nextDispatch: Option<int>, attempts: nat, updatedAt: int)

  datatype RunState = RunQueued | RunInvestigating | RunDiagnosed | RunFailed

  predicate Alive(s: RunState) {
    s == RunQueued || s == RunInvestigating
  }

  datatype AgentRun = AgentRun(incident: string, state: RunState)

  datatype EventRow = EventRow(incident: string, revision: nat, resolved: bool)

  datatype Tables = Tables(incidents: map<string, Incident>, runs: map<string, AgentRun>, events: seq<EventRow>)

  /** A normalised webhook event; `body` is the hash of the alert body. */
  datatype Event = Event(identity: Identity, host: string, resolved: bool, body: string)

  // Ingest.

  predicate IsActiveRow(incidents: map<string, Incident>, identity: Identity, id: string) {
    id in incidents && incidents[id].identity == identity && !Terminal(incidents[id].status)
  }

  /** The row the lookup of `IngestEvent` finds. */
  ghost function ActiveRow(incidents: map<string, Incident>, identity: Identity): Option<string> {
    if exists id :: IsActiveRow(incidents, identity, id) then
      var id :| IsActiveRow(incidents, identity, id); Some(id)
    else None
  }

  predicate Replays(i: Incident, ev: Event) {
    !ev.resolved && ev.body == i.body
  }

  /** A changed firing event reopens a finished investigation. */
  predicate Reopens(i: Incident, ev: Event) {
    !Replays(i, ev) && !ev.resolved && (i.status == Diagnosed || i.status == AgentFailed)
  }

  /** `updateIncident` on its row. */
  function Updated(i: Incident, ev: Event, now: int): Incident {
    if Replays(i, ev) then i.(updatedAt := Stored(now))
    else
      var changed := i.(
        status := if ev.resolved then ResolvedExternal else if Reopens(i, ev) then Open else i.status,
        revision := i.revision + 1, body := ev.body, updatedAt := Stored(now));
      if Reopens(i, ev) then changed.(attempts := 0, nextDispatch := None) else changed
  }

  function Fresh(ev: Event, now: int): Incident {
    Incident(ev.identity, ev.host, if ev.resolved then ResolvedExternal else Open, 1, ev.body, None, 0, Stored(now))
  }

  /** `IngestEvent`; `id` is the identifier drawn for a new row. */
  ghost function Ingest(t: Tables, ev: Event, id: string, now: int): Tables {
    match ActiveRow(t.incidents, ev.identity)
    case None =>
      if id in t.incidents then t
      else t.(incidents := t.incidents[id := Fresh(ev, now)], events := t.events + [EventRow(id, 1, ev.resolved)])
    case Some(row) =>
      var i := t.incidents[row];
      t.(incidents := t.incidents[row := Updated(i, ev, now)],
         events := if Replays(i, ev) then t.events else t.events + [EventRow(row, i.revision + 1, ev.resolved)])
  }

  // Runs.

  predicate InFlight(runs: map<string, AgentRun>, id: string, run: string) {
    run in runs && runs[run].incident == id && Alive(runs[run].state)
  }

  ghost predicate HasAlive(runs: map<string, AgentRun>, id: string) {
    exists run :: InFlight(runs, id, run)
  }

  /** Would making this incident active again break the unique index on active identities? */
  ghost predicate IdentityTaken(incidents: map<string, Incident>, id: string)
    requires id in incidents
  {
    Terminal(incidents[id].status) && exists k :: k != id && IsActiveRow(incidents, incidents[id].identity, k)
  }

  ghost predicate CanEnqueue(t: Tables, id: string, run: string) {
    run !in t.runs && id in t.incidents && !HasAlive(t.runs, id) && !IdentityTaken(t.incidents, id)
  }

  /** `EnqueueRun`: rolled back by the primary key, the foreign key or one of the two unique indexes. */
  ghost function Enqueue(t: Tables, id: string, run: string, now: int): Result<Tables> {
    if !CanEnqueue(t, id, run) then Rejected
    else
      var i := t.incidents[id];
      Ok(t.(runs := t.runs[run := AgentRun(id, RunQueued)],
            incidents := t.incidents[id := i.(status := Queued, updatedAt := Stored(now), nextDispatch := None, attempts := i.attempts + 1)]))
  }

  function Marked(runs: map<string, AgentRun>, run: string, state: RunState): map<string, AgentRun> {
    if run in runs then runs[run := runs[run].(state := state)] else runs
  }

  /** The guarded update of the incident in a run's transactions. */
  function Moved(incidents: map<string, Incident>, id: string, status: Status, next: Option<int>, now: int): map<string, Incident> {
    if id in incidents && !Frozen(incidents[id].status) then
      incidents[id := incidents[id].(status := status, nextDispatch := next, updatedAt := Stored(now))]
    else incidents
  }

  function NextDispatch(incidents: map<string, Incident>, id: string): Option<int> {
    if id in incidents then incidents[id].nextDispatch else None
  }

  /** The unique index on runs in flight: a finished run cannot be revived beside another one of its incident. */
  ghost predicate CanStart(t: Tables, run: string) {
    run in t.runs && !Alive(t.runs[run].state) ==> !HasAlive(t.runs, t.runs[run].incident)
  }

  function Start(t: Tables, run: string, id: string, now: int): Tables {
    t.(runs := Marked(t.runs, run, RunInvestigating),
       incidents := Moved(t.incidents, id, Investigating, NextDispatch(t.incidents, id), now))
  }

  function Complete(t: Tables, run: string, id: string, now: int): Tables {
    t.(runs := Marked(t.runs, run, RunDiagnosed),
       incidents := Moved(t.incidents, id, Diagnosed, NextDispatch(t.incidents, id), now))
  }

  /** `FailRunAndMaybeRetry` after the attempt numbered `used`. */
  function Fail(t: Tables, run: string, id: string, used: nat, maxAttempts: int, backoff: int, now: int): Tables {
    t.(runs := Marked(t.runs, run, RunFailed),
       incidents := if used < maxAttempts then Moved(t.incidents, id, Open, Some(Stored(now + backoff)), now)
                    else Moved(t.incidents, id, AgentFailed, None, now))
  }

  /** `RecoverInFlightRuns`: every run in flight failed, its incident dispatchable at once. */
  ghost function Recover(t: Tables, now: int): Tables {
    t.(runs := map r | r in t.runs :: if Alive(t.runs[r].state) then t.runs[r].(state := RunFailed) else t.runs[r],
       incidents := map id | id in t.incidents ::
         if HasAlive(t.runs, id) && !Frozen(t.incidents[id].status)
         then t.incidents[id].(status := Open, nextDispatch := None, updatedAt := Stored(now)) else t.incidents[id])
  }

  // What the transactions mean, status by status.

  /** The row of an incident of this identity that is neither RESOLVED_EXTERNAL nor CLOSED. */
  predicate ActiveFor(t: Tables, identity: Identity, row: string) {
    row in t.incidents && t.incidents[row].identity == identity && t.incidents[row].status != ResolvedExternal && t.incidents[row].status != Closed
  }

  /** A finished investigation whose alert fires again with another body. */
  predicate FiresAnew(i: Incident, ev: Event) {
    !ev.resolved && ev.body != i.body && (i.status == Diagnosed || i.status == AgentFailed)
  }

  /** The row after an event: touched by a repetition, closed by a resolve, reopened with a new counter when its investigation
      was finished, and otherwise left in its status. */
  predicate RowTook(i: Incident, j: Incident, ev: Event, now: int) {
    && j.identity == i.identity && j.host == i.host && j.updatedAt == Stored(now) && j.body == ev.body
    && j.revision == (if !ev.resolved && ev.body == i.body then i.revision else i.revision + 1)
    && j.status == (if ev.resolved then ResolvedExternal else if FiresAnew(i, ev) then Open else i.status)
    && (if FiresAnew(i, ev) then j.attempts == 0 && j.nextDispatch == None else j.attempts == i.attempts && j.nextDispatch == i.nextDispatch)
  }

  /** What an event does to the tables: to the row of its identity, or by a new row; one event row records every change. */
  ghost predicate Ingested(t: Tables, n: Tables, ev: Event, id: string, now: int) {
    && n.runs == t.runs
    && (forall row :: ActiveFor(t, ev.identity, row) ==>
          && row in n.incidents && n.incidents == t.incidents[row := n.incidents[row]] && RowTook(t.incidents[row], n.incidents[row], ev, now)
          && n.events == if !ev.resolved && ev.body == t.incidents[row].body then t.events
                         else t.events + [EventRow(row, t.incidents[row].revision + 1, ev.resolved)])
    && ((forall row :: !ActiveFor(t, ev.identity, row)) ==>
          if id in t.incidents then n == t
          else && n.events == t.events + [EventRow(id, 1, ev.resolved)]
               && n.incidents == t.incidents[id := Incident(ev.identity, ev.host, if ev.resolved then ResolvedExternal else Open, 1, ev.body, None, 0, Stored(now))])
  }

  lemma {:induction false} IngestMeans(t: Tables, ev: Event, id: string, now: int)
    requires OneActive(t.incidents)
    ensures Ingested(t, Ingest(t, ev, id, now), ev, id, now)
  {
    forall row ensures ActiveFor(t, ev.identity, row) <==> IsActiveRow(t.incidents, ev.identity, row) {}
    if row :| ActiveFor(t, ev.identity, row) { TheActiveRow(t.incidents, ev.identity, row); }
  }

  /** The incident a run belongs to goes on, unless it was resolved, closed or suppressed meanwhile: those are not touched. */
  ghost predicate Follows(t: Tables, n: Tables, id: string, status: Status, next: Option<int>, now: int) {
    if id in t.incidents && t.incidents[id].status !in {ResolvedExternal, Closed, Suppressed}
    then n.incidents == t.incidents[id := t.incidents[id].(status := status, nextDispatch := next, updatedAt := Stored(now))]
    else n.incidents == t.incidents
  }

  ghost predicate RunIs(t: Tables, n: Tables, run: string, state: RunState) {
    n.events == t.events && n.runs == if run in t.runs then t.runs[run := t.runs[run].(state := state)] else t.runs
  }

  /** A new run is QUEUED with its incident, whose backoff is over and whose counter counts it. */
  ghost predicate RunEnqueued(t: Tables, n: Tables, id: string, run: string, now: int) {
    && n.events == t.events && run !in t.runs && n.runs == t.runs[run := AgentRun(id, RunQueued)]
    && id in t.incidents
    && n.incidents == t.incidents[id := t.incidents[id].(status := Queued, updatedAt := Stored(now), nextDispatch := None, attempts := t.incidents[id].attempts + 1)]
  }

  /** A started run and its incident are INVESTIGATING; a diagnosed one leaves its incident DIAGNOSED; a failed one leaves it OPEN
      until its backoff is over when attempts are left, and AGENT_FAILED otherwise. */
  lemma {:induction false} RunMeans(t: Tables, run: string, id: string, used: nat, maxAttempts: int, backoff: int, now: int)
    ensures var n := Start(t, run, id, now);
      RunIs(t, n, run, RunInvestigating) && Follows(t, n, id, Investigating, if id in t.incidents then t.incidents[id].nextDispatch else None, now)
    ensures var n := Complete(t, run, id, now);
      RunIs(t, n, run, RunDiagnosed) && Follows(t, n, id, Diagnosed, if id in t.incidents then t.incidents[id].nextDispatch else None, now)
    ensures var n := Fail(t, run, id, used, maxAttempts, backoff, now);
      && RunIs(t, n, run, RunFailed)
      && (used < maxAttempts ==> Follows(t, n, id, Open, Some(Stored(now + backoff)), now))
      && (used >= maxAttempts ==> Follows(t, n, id, AgentFailed, None, now))
    ensures var r := Enqueue(t, id, run, now); r.Ok? ==> RunEnqueued(t, r.value, id, run, now)
  {
  }

  /** Every run in flight is failed; its incident, unless resolved, closed or suppressed, is OPEN without a backoff. */
  ghost predicate Recovered(t: Tables, n: Tables, now: int) {
    && n.events == t.events && n.runs.Keys == t.runs.Keys && n.incidents.Keys == t.incidents.Keys
    && (forall r :: r in t.runs ==> n.runs[r] == if t.runs[r].state == RunQueued || t.runs[r].state == RunInvestigating then t.runs[r].(state := RunFailed) else t.runs[r])
    && (forall id :: id in t.incidents ==>
          n.incidents[id] == if t.incidents[id].status !in {ResolvedExternal, Closed, Suppressed} && InFlightFor(t, id)
                             then t.incidents[id].(status := Open, nextDispatch := None, updatedAt := Stored(now)) else t.incidents[id])
  }

  ghost predicate InFlightFor(t: Tables, id: string) {
    exists r :: r in t.runs && t.runs[r].incident == id && (t.runs[r].state == RunQueued || t.runs[r].state == RunInvestigating)
  }

  lemma {:induction false} RecoverMeans(t: Tables, now: int)
    ensures Recovered(t, Recover(t, now), now)
  {
    forall id: string ensures InFlightFor(t, id) <==> HasAlive(t.runs, id) {
      if r :| r in t.runs && t.runs[r].incident == id && Alive(t.runs[r].state) { assert InFlight(t.runs, id, r); }
    }
  }

  // What the tables keep.

  /** At most one non-terminal incident per identity. */
  ghost predicate OneActive(incidents: map<string, Incident>) {
    forall identity, a, b ::
      IsActiveRow(incidents, identity, a) && IsActiveRow(incidents, identity, b) ==> a == b
  }

  /** At most one run in flight per incident. */
  ghost predicate OneRun(runs: map<string, AgentRun>) {
    forall id, r, s :: InFlight(runs, id, r) && InFlight(runs, id, s) ==> r == s
  }

  predicate Matches(s: Status, r: RunState) {
    Frozen(s) || (s == Queued && r == RunQueued) || (s == Investigating && r == RunInvestigating)
  }

  /** A run in flight belongs to an incident in the same state, or to one that was resolved meanwhile. */
  ghost predicate RunsMatch(incidents: map<string, Incident>, runs: map<string, AgentRun>) {
    forall id, r :: InFlight(runs, id, r) ==> id in incidents && Matches(incidents[id].status, runs[r].state)
  }

  predicate Busy(s: Status) {
    s == Queued || s == Investigating
  }

  /** A QUEUED or INVESTIGATING incident has a run in flight. */
  ghost predicate BusyHaveRuns(incidents: map<string, Incident>, runs: map<string, AgentRun>) {
    forall id :: id in incidents && Busy(incidents[id].status) ==> HasAlive(runs, id)
  }

  ghost predicate TablesOk(t: Tables) {
    OneActive(t.incidents) && OneRun(t.runs) && RunsMatch(t.incidents, t.runs) && BusyHaveRuns(t.incidents, t.runs)
  }

  // Changes to one incident and one of its runs.

  /** The run changed belongs, before and after, to incident `id`. */
  ghost predicate OnlyRun(before: map<string, AgentRun>, after: map<string, AgentRun>, id: string, run: string) {
    && run in after && after[run].incident == id && (run in before ==> before[run].incident == id)
    && after == before[run := after[run]]
  }

  ghost predicate OnlyIncident(before: map<string, Incident>, after: map<string, Incident>, id: string) {
    && id in before && id in after && after[id].identity == before[id].identity && after[id].host == before[id].host
    && after == before[id := after[id]]
  }

  lemma {:induction false} AliveElsewhere(before: map<string, AgentRun>, after: map<string, AgentRun>, id: string, run: string, other: string)
    requires OnlyRun(before, after, id, run) && other != id
    ensures forall r :: InFlight(after, other, r) <==> InFlight(before, other, r)
    ensures forall r :: InFlight(after, other, r) ==> after[r] == before[r]
    ensures HasAlive(after, other) <==> HasAlive(before, other)
  {
    assert forall r :: InFlight(before, other, r) ==> r != run && after[r] == before[r];
    if HasAlive(before, other) {
      var r :| InFlight(before, other, r);
      assert InFlight(after, other, r);
    }
    if HasAlive(after, other) {
      var r :| InFlight(after, other, r);
      assert InFlight(before, other, r);
    }
  }

  lemma {:induction false} ActiveStays(before: map<string, Incident>, after: map<string, Incident>, id: string)
    requires OneActive(before) && OnlyIncident(before, after, id)
    requires Terminal(after[id].status) || !IdentityTaken(before, id)
    ensures OneActive(after)
  {
    forall identity, a, b | IsActiveRow(after, identity, a) && IsActiveRow(after, identity, b) ensures a == b {
      assert a != id ==> IsActiveRow(before, identity, a);
      assert b != id ==> IsActiveRow(before, identity, b);
      assert !Terminal(before[id].status) && before[id].identity == identity ==> IsActiveRow(before, identity, id);
    }
  }

  /** A transaction on one incident and its one run keeps the tables when the two end up fitting each other. */
  lemma {:induction false} TablesStay(t: Tables, n: Tables, id: string, run: string)
    requires TablesOk(t) && OnlyRun(t.runs, n.runs, id, run) && OnlyIncident(t.incidents, n.incidents, id)
    requires Terminal(n.incidents[id].status) || !IdentityTaken(t.incidents, id)
    requires forall r :: InFlight(t.runs, id, r) ==> r == run
    requires Alive(n.runs[run].state) ==> Matches(n.incidents[id].status, n.runs[run].state)
    requires Busy(n.incidents[id].status) ==> Alive(n.runs[run].state)
    ensures TablesOk(n)
  {
    ActiveStays(t.incidents, n.incidents, id);
    forall other: string | other != id
      ensures HasAlive(n.runs, other) <==> HasAlive(t.runs, other)
      ensures forall r :: InFlight(n.runs, other, r) <==> InFlight(t.runs, other, r)
      ensures forall r :: InFlight(n.runs, other, r) ==> n.runs[r] == t.runs[r]
    {
      AliveElsewhere(t.runs, n.runs, id, run, other);
    }
    forall r | InFlight(n.runs, id, r) ensures r == run {
      assert r != run ==> InFlight(t.runs, id, r);
    }
    forall k, r, s | InFlight(n.runs, k, r) && InFlight(n.runs, k, s) ensures r == s {
      assert k != id ==> InFlight(t.runs, k, r) && InFlight(t.runs, k, s);
    }
    if Busy(n.incidents[id].status) { assert InFlight(n.runs, id, run); }
  }

  lemma {:induction false} IngestKeeps(t: Tables, ev: Event, id: string, now: int)
    requires TablesOk(t)
    ensures TablesOk(Ingest(t, ev, id, now))
  {
    var n := Ingest(t, ev, id, now).incidents;
    var row := ActiveRow(t.incidents, ev.identity);
    if row.Some? {
      ActiveStays(t.incidents, n, row.value);
    } else if id !in t.incidents {
      forall identity, a, b | IsActiveRow(n, identity, a) && IsActiveRow(n, identity, b) ensures a == b {
        assert a != id ==> IsActiveRow(t.incidents, identity, a);
        assert b != id ==> IsActiveRow(t.incidents, identity, b);
      }
      assert !HasAlive(t.runs, id);
    }
  }

  lemma {:induction false} EnqueueKeeps(t: Tables, id: string, run: string, now: int)
    requires TablesOk(t) && Enqueue(t, id, run, now).Ok?
    ensures TablesOk(Enqueue(t, id, run, now).value)
  {
    TablesStay(t, Enqueue(t, id, run, now).value, id, run);
  }

  /** The transactions of a run that is in flight for the incident. */
  lemma {:induction false} RunKeeps(t: Tables, run: string, id: string, used: nat, maxAttempts: int, backoff: int, now: int)
    requires TablesOk(t) && InFlight(t.runs, id, run)
    ensures TablesOk(Start(t, run, id, now))
    ensures TablesOk(Complete(t, run, id, now))
    ensures TablesOk(Fail(t, run, id, used, maxAttempts, backoff, now))
  {
    TablesStay(t, Start(t, run, id, now), id, run);
    TablesStay(t, Complete(t, run, id, now), id, run);
    TablesStay(t, Fail(t, run, id, used, maxAttempts, backoff, now), id, run);
  }

  lemma {:induction false} RecoverKeeps(t: Tables, now: int)
    requires TablesOk(t)
    ensures TablesOk(Recover(t, now))
    ensures forall id: string :: !HasAlive(Recover(t, now).runs, id)
  {
    var n := Recover(t, now);
    assert forall id, r :: !InFlight(n.runs, id, r);
    forall identity, a, b | IsActiveRow(n.incidents, identity, a) && IsActiveRow(n.incidents, identity, b) ensures a == b {
      assert IsActiveRow(t.incidents, identity, a) && IsActiveRow(t.incidents, identity, b);
    }
  }

  // Events: replays, and the rows that record them.

  ghost predicate SameButTouched(a: Tables, b: Tables) {
    && a.runs == b.runs && a.events == b.events && a.incidents.Keys == b.incidents.Keys
    && forall id :: id in a.incidents ==> b.incidents[id] == a.incidents[id].(updatedAt := b.incidents[id].updatedAt)
  }

  lemma {:induction false} TheActiveRow(incidents: map<string, Incident>, identity: Identity, id: string)
    requires OneActive(incidents) && IsActiveRow(incidents, identity, id)
    ensures ActiveRow(incidents, identity) == Some(id)
  {
  }

  /** Delivering the same event again changes nothing but `updated_at`, exactly when it is a firing event. */
  lemma {:induction false} ReplayExact(t: Tables, ev: Event, id: string, now: int, id2: string, later: int)
    requires TablesOk(t) && id !in t.incidents && id2 !in t.incidents && id != id2
    ensures var once := Ingest(t, ev, id, now);
      SameButTouched(once, Ingest(once, ev, id2, later)) <==> !ev.resolved
  {
    var once := Ingest(t, ev, id, now);
    IngestKeeps(t, ev, id, now);
    var row := match ActiveRow(t.incidents, ev.identity) case Some(r) => r case None => id;
    assert once.incidents[row].identity == ev.identity;
    var twice := Ingest(once, ev, id2, later);
    if ev.resolved {
      assert forall k :: IsActiveRow(once.incidents, ev.identity, k) ==> IsActiveRow(t.incidents, ev.identity, k);
      assert ActiveRow(once.incidents, ev.identity) == None;
      assert id2 in twice.incidents && id2 !in once.incidents;
    } else {
      assert IsActiveRow(once.incidents, ev.identity, row);
      TheActiveRow(once.incidents, ev.identity, row);
      assert Replays(once.incidents[row], ev);
    }
  }

  /** The same event delivered again, each time with a row identifier to draw and a time. */
  ghost function Redeliver(t: Tables, ev: Event, times: seq<(string, int)>): Tables
    decreases |times|
  {
    if times == [] then t else Redeliver(Ingest(t, ev, times[0].0, times[0].1), ev, times[1..])
  }

  lemma {:induction false} OnlyTouched(t: Tables, ev: Event, row: string, times: seq<(string, int)>)
    requires OneActive(t.incidents) && IsActiveRow(t.incidents, ev.identity, row) && Replays(t.incidents[row], ev)
    ensures SameButTouched(t, Redeliver(t, ev, times))
    decreases |times|
  {
    if times != [] {
      TheActiveRow(t.incidents, ev.identity, row);
      var n := Ingest(t, ev, times[0].0, times[0].1);
      ActiveStays(t.incidents, n.incidents, row);
      OnlyTouched(n, ev, row, times[1..]);
    }
  }

  /** A firing event delivered any number of times in a row leaves what one delivery leaves, apart from `updated_at`. */
  lemma {:induction false} FiringIdempotent(t: Tables, ev: Event, id: string, now: int, times: seq<(string, int)>)
    requires TablesOk(t) && !ev.resolved && id !in t.incidents
    ensures var once := Ingest(t, ev, id, now); SameButTouched(once, Redeliver(once, ev, times))
  {
    var once := Ingest(t, ev, id, now);
    IngestKeeps(t, ev, id, now);
    var row := match ActiveRow(t.incidents, ev.identity) case Some(r) => r case None => id;
    OnlyTouched(once, ev, row, times);
  }

  function RevisionsOf(events: seq<EventRow>, id: string): seq<nat> {
    if events == [] then []
    else
      var n := |events| - 1;
      RevisionsOf(events[..n], id) + if events[n].incident == id then [events[n].revision] else []
  }

  function UpTo(n: nat): seq<nat> {
    if n == 0 then [] else UpTo(n - 1) + [n]
  }

  function RevisionOf(incidents: map<string, Incident>, id: string): nat {
    if id in incidents then incidents[id].revision else 0
  }

  /** The event rows of every incident carry the revisions 1, 2, ..., current, once each and in order. */
  ghost predicate Audited(incidents: map<string, Incident>, events: seq<EventRow>) {
    forall id: string :: AuditedFor(events, id, RevisionOf(incidents, id))
  }

  predicate AuditedFor(events: seq<EventRow>, id: string, revision: nat) {
    RevisionsOf(events, id) == UpTo(revision)
  }

  lemma {:induction false} EventAppended(events: seq<EventRow>, e: EventRow, id: string)
    ensures RevisionsOf(events + [e], id) == RevisionsOf(events, id) + if e.incident == id then [e.revision] else []
  {
    assert (events + [e])[..|events|] == events;
  }

  lemma {:induction false} NextRevision(events: seq<EventRow>, e: EventRow, id: string, revision: nat)
    requires AuditedFor(events, id, revision) && (e.incident == id ==> e.revision == revision + 1)
    ensures AuditedFor(events + [e], id, if e.incident == id then revision + 1 else revision)
  {
    EventAppended(events, e, id);
    assert UpTo(revision + 1) == UpTo(revision) + [revision + 1];
  }

  lemma {:induction false} EventAudited(incidents: map<string, Incident>, events: seq<EventRow>, id: string, x: Incident, resolved: bool)
    requires Audited(incidents, events) && x.revision == RevisionOf(incidents, id) + 1
    ensures Audited(incidents[id := x], events + [EventRow(id, x.revision, resolved)])
  {
    var e := EventRow(id, x.revision, resolved);
    var next, all := incidents[id := x], events + [e];
    forall k: string ensures AuditedFor(all, k, RevisionOf(next, k)) {
      assert AuditedFor(events, k, RevisionOf(incidents, k));
      NextRevision(events, e, k, RevisionOf(incidents, k));
    }
  }

  lemma {:induction false} SameRevisions(before: map<string, Incident>, after: map<string, Incident>, events: seq<EventRow>)
    requires Audited(before, events) && forall id: string :: RevisionOf(after, id) == RevisionOf(before, id)
    ensures Audited(after, events)
  {
    forall id: string ensures AuditedFor(events, id, RevisionOf(after, id)) {
      assert AuditedFor(events, id, RevisionOf(before, id));
    }
  }

  lemma {:induction false} IngestAudited(t: Tables, ev: Event, id: string, now: int)
    requires Audited(t.incidents, t.events)
    ensures var n := Ingest(t, ev, id, now); Audited(n.incidents, n.events)
  {
    match ActiveRow(t.incidents, ev.identity)
    case None =>
      if id !in t.incidents { EventAudited(t.incidents, t.events, id, Fresh(ev, now), ev.resolved); }
    case Some(row) =>
      var x := Updated(t.incidents[row], ev, now);
      if Replays(t.incidents[row], ev) { SameRevisions(t.incidents, t.incidents[row := x], t.events); }
      else { EventAudited(t.incidents, t.events, row, x, ev.resolved); }
  }

  /** EnqueueRun has no guard on the status: it keeps terminal incidents terminal exactly when a key or an index
      refuses it, or its incident is not terminal. */
  lemma {:induction false} EnqueueTerminalExact(t: Tables, id: string, run: string, now: int)
    requires id in t.incidents
    ensures var r := Enqueue(t, id, run, now);
      (forall k :: k in t.incidents && Terminal(t.incidents[k].status) ==>
        Terminal((if r.Ok? then r.value else t).incidents[k].status))
      <==> !CanEnqueue(t, id, run) || !Terminal(t.incidents[id].status)
  {
    var r := Enqueue(t, id, run, now);
    if r.Ok? { assert r.value.incidents[id].status == Queued; }
  }
}
