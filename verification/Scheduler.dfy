/** The dispatch loop of internal/agentcontroller/queue.go: passes, their goroutines, webhooks arriving
    between any two statements, and restarts, as one state machine over the incident tables. */
module Scheduler {
  import opened Outcomes
  import opened Timestamps
  import opened Incidents

  datatype Config = Config(maxConcurrent: int, maxPerHost: int, maxAttempts: int)

  /** What a pass remembers of a listed incident. */
  datatype Listing = Listing(id: string, host: string, attempts: nat)

  /** The goroutine dispatching one incident, by the statement it runs next. */
  datatype Worker =
    | Enqueuing(host: string, attempts: nat)
    | Starting(run: string, attempts: nat)
    | Diagnosing(run: string, attempts: nat)

  datatype Pass =
    | Idle
    | Counted(budget: nat)
    | Dispatching(queue: seq<Listing>, claimed: set<string>)

  /** What happened, in commit order: runs enqueued, diagnoses stored, attempt counters reset, runs cut short by a restart. */
  datatype Mark =
    | Enqueued(id: string)
    | Diagnosis(id: string)
    /** A changed firing event reopened the finished investigation of the incident. */
    | NewCycle(id: string)
    | CutShort(ids: set<string>)

  datatype World = World(t: Tables, pass: Pass, workers: map<string, Worker>, log: seq<Mark>)

  datatype Step =
    | Ingests(ev: Event, id: string, now: int)
    | Counts
    | Lists(listed: seq<Listing>, now: int)
    /** The listing returns an error, which ends the pass. */
    | ListFails
    /** The next listed incident; `countFails` when its host count returns an error. */
    | Considers(countFails: bool)
    /** A goroutine's next transaction commits. */
    | Works(id: string, run: string, diagnosed: bool, backoff: int, now: int)
    /** A goroutine's next transaction returns an error and the goroutine gives up. */
    | GivesUp(id: string)
    | Finishes
    | Restarts(now: int)

  ghost function AliveRuns(runs: map<string, AgentRun>): set<string> {
    set r | r in runs && Alive(runs[r].state)
  }

  predicate OnHost(incidents: map<string, Incident>, id: string, host: string) {
    id in incidents && incidents[id].host == host
  }

  /** The rows `CountActiveRunsForHost` counts. */
  ghost function AliveOn(t: Tables, host: string): set<string> {
    set r | r in t.runs && Alive(t.runs[r].state) && OnHost(t.incidents, t.runs[r].incident, host)
  }

  ghost predicate Due(t: Tables, id: string, now: int) {
    && id in t.incidents && t.incidents[id].status == Open && !HasAlive(t.runs, id)
    && (t.incidents[id].nextDispatch.None? || t.incidents[id].nextDispatch.value <= Stored(now))
  }

  ghost predicate AsStored(t: Tables, l: Listing) {
    l.id in t.incidents && l.host == t.incidents[l.id].host && l.attempts == t.incidents[l.id].attempts
  }

  /** `ListIncidentsNeedingDispatch`: the due incidents least recently updated, at most `limit` of them. */
  ghost predicate Listed(t: Tables, now: int, limit: nat, listed: seq<Listing>) {
    && |listed| <= limit
    && (forall i, j :: 0 <= i < j < |listed| ==> listed[i].id != listed[j].id)
    && (forall i :: 0 <= i < |listed| ==> Due(t, listed[i].id, now) && AsStored(t, listed[i]))
    && (forall i, j :: 0 <= i < j < |listed| ==> t.incidents[listed[i].id].updatedAt <= t.incidents[listed[j].id].updatedAt)
    && (forall id :: Due(t, id, now) && (forall i :: 0 <= i < |listed| ==> listed[i].id != id) ==>
          |listed| == limit && forall i :: 0 <= i < |listed| ==> t.incidents[listed[i].id].updatedAt <= t.incidents[id].updatedAt)
  }

  // The steps.

  function QueueOf(p: Pass): seq<Listing> {
    if p.Dispatching? then p.queue else []
  }

  /** Incidents whose run a recovery reopens. */
  ghost function Reopened(t: Tables): set<string> {
    set id | id in t.incidents && HasAlive(t.runs, id) && !Frozen(t.incidents[id].status)
  }

  ghost function IngestMarks(t: Tables, ev: Event): seq<Mark> {
    match ActiveRow(t.incidents, ev.identity)
    case None => []
    case Some(row) => if FiresAnew(t.incidents[row], ev) then [NewCycle(row)] else []
  }

  ghost function Consider(c: Config, w: World, countFails: bool): World
    requires QueueOf(w.pass) != []
  {
    var l := w.pass.queue[0];
    var rest := w.pass.(queue := w.pass.queue[1..]);
    if l.host != "" && !countFails && (|AliveOn(w.t, l.host)| >= c.maxPerHost || l.host in w.pass.claimed) then w.(pass := rest)
    else w.(pass := if l.host == "" then rest else rest.(claimed := rest.claimed + {l.host}),
            workers := w.workers[l.id := Enqueuing(l.host, l.attempts)])
  }

  ghost function Work(c: Config, w: World, id: string, run: string, diagnosed: bool, backoff: int, now: int): World
    requires id in w.workers
  {
    match w.workers[id]
    case Enqueuing(_, n) =>
      var r := Enqueue(w.t, id, run, now);
      if r.Rejected? then w.(workers := w.workers - {id})
      else w.(t := r.value, workers := w.workers[id := Starting(run, n)], log := w.log + [Enqueued(id)])
    case Starting(own, n) =>
      if !CanStart(w.t, own) then w.(workers := w.workers - {id})
      else w.(t := Start(w.t, own, id, now), workers := w.workers[id := Diagnosing(own, n)])
    case Diagnosing(own, n) =>
      if diagnosed then
        w.(t := Complete(w.t, own, id, now), workers := w.workers - {id},
           log := w.log + [Diagnosis(id)])
      else
        w.(t := Fail(w.t, own, id, n + 1, c.maxAttempts, backoff, now), workers := w.workers - {id})
  }

  ghost function Next(c: Config, w: World, s: Step): World {
    match s
    case Ingests(ev, id, now) => w.(t := Ingest(w.t, ev, id, now), log := w.log + IngestMarks(w.t, ev))
    case Counts =>
      var budget := c.maxConcurrent - |AliveRuns(w.t.runs)|;
      if w.pass.Idle? && budget > 0 then w.(pass := Counted(budget)) else w
    case Lists(listed, _) => if w.pass.Counted? then w.(pass := Dispatching(listed, {})) else w
    case ListFails => if w.pass.Counted? then w.(pass := Idle) else w
    case Considers(countFails) => if QueueOf(w.pass) != [] then Consider(c, w, countFails) else w
    case Works(id, run, diagnosed, backoff, now) =>
      if id in w.workers then Work(c, w, id, run, diagnosed, backoff, now) else w
    case GivesUp(id) => w.(workers := w.workers - {id})
    case Finishes => if w.pass.Dispatching? && w.pass.queue == [] && w.workers == map[] then w.(pass := Idle) else w
    case Restarts(now) => World(Recover(w.t, now), Idle, map[], w.log + [CutShort(Reopened(w.t))])
  }

  ghost predicate Possible(w: World, s: Step) {
    s.Lists? && w.pass.Counted? ==> Listed(w.t, s.now, w.pass.budget, s.listed)
  }

  ghost function Run(c: Config, w: World, steps: seq<Step>): World
    decreases |steps|
  {
    if steps == [] then w else Run(c, Next(c, w, steps[0]), steps[1..])
  }

  ghost predicate Possibles(c: Config, w: World, steps: seq<Step>)
    decreases |steps|
  {
    steps != [] ==> Possible(w, steps[0]) && Possibles(c, Next(c, w, steps[0]), steps[1..])
  }

  const EMPTY := World(Tables(map[], map[], []), Idle, map[], [])

  // What a pass knows stays true.

  ghost predicate ListedOk(t: Tables, l: Listing) {
    AsStored(t, l) && !HasAlive(t.runs, l.id) && (t.incidents[l.id].status == Open || Terminal(t.incidents[l.id].status))
  }

  /** A goroutine's attempt number is one more than it read, and its run is in the state it left it in. */
  ghost predicate WorkerOk(t: Tables, id: string, wk: Worker) {
    match wk
    case Enqueuing(host, n) => ListedOk(t, Listing(id, host, n))
    case Starting(run, n) => id in t.incidents && t.incidents[id].attempts == n + 1 && run in t.runs && t.runs[run] == AgentRun(id, RunQueued)
    case Diagnosing(run, n) => id in t.incidents && t.incidents[id].attempts == n + 1 && run in t.runs && t.runs[run] == AgentRun(id, RunInvestigating)
  }

  ghost predicate WorkersOk(t: Tables, workers: map<string, Worker>) {
    forall id :: id in workers ==> WorkerOk(t, id, workers[id])
  }

  ghost predicate QueueOk(t: Tables, queue: seq<Listing>) {
    forall i :: 0 <= i < |queue| ==> ListedOk(t, queue[i])
  }

  ghost predicate Apart(queue: seq<Listing>, workers: map<string, Worker>) {
    && (forall i, j :: 0 <= i < j < |queue| ==> queue[i].id != queue[j].id)
    && (forall i :: 0 <= i < |queue| ==> queue[i].id !in workers)
  }

  ghost predicate Inv(w: World) {
    && TablesOk(w.t) && WorkersOk(w.t, w.workers) && QueueOk(w.t, QueueOf(w.pass)) && Apart(QueueOf(w.pass), w.workers)
    && (w.workers != map[] ==> w.pass.Dispatching?)
  }

  lemma {:induction false} ListedElsewhere(t: Tables, n: Tables, id: string, run: string, l: Listing)
    requires OnlyRun(t.runs, n.runs, id, run) && OnlyIncident(t.incidents, n.incidents, id) && l.id != id
    requires ListedOk(t, l)
    ensures ListedOk(n, l)
  {
    AliveElsewhere(t.runs, n.runs, id, run, l.id);
  }

  /** A goroutine's transaction touches nothing the others or the rest of the pass rely on. */
  lemma {:induction false} OthersStay(t: Tables, n: Tables, id: string, run: string, queue: seq<Listing>, workers: map<string, Worker>)
    requires OnlyRun(t.runs, n.runs, id, run) && OnlyIncident(t.incidents, n.incidents, id)
    requires WorkersOk(t, workers) && QueueOk(t, queue) && id in workers && Apart(queue, workers)
    ensures WorkersOk(n, workers - {id}) && QueueOk(n, queue)
  {
    forall k | k in workers && k != id ensures WorkerOk(n, k, workers[k]) {
      assert WorkerOk(t, k, workers[k]);
      if workers[k].Enqueuing? { ListedElsewhere(t, n, id, run, Listing(k, workers[k].host, workers[k].attempts)); }
    }
    forall i | 0 <= i < |queue| ensures ListedOk(n, queue[i]) { ListedElsewhere(t, n, id, run, queue[i]); }
  }

  lemma {:induction false} ListedIngest(t: Tables, ev: Event, id: string, now: int, l: Listing)
    requires ListedOk(t, l)
    ensures ListedOk(Ingest(t, ev, id, now), l)
  {
  }

  lemma {:induction false} WorkerIngest(t: Tables, ev: Event, id: string, now: int, k: string, wk: Worker)
    requires TablesOk(t) && WorkerOk(t, k, wk)
    ensures WorkerOk(Ingest(t, ev, id, now), k, wk)
  {
    if wk.Enqueuing? {
      ListedIngest(t, ev, id, now, Listing(k, wk.host, wk.attempts));
    } else {
      assert InFlight(t.runs, k, wk.run);
      assert Matches(t.incidents[k].status, t.runs[wk.run].state);
    }
  }

  lemma {:induction false} IngestStep(w: World, ev: Event, id: string, now: int)
    requires Inv(w)
    ensures Inv(w.(t := Ingest(w.t, ev, id, now), log := w.log + IngestMarks(w.t, ev)))
  {
    IngestKeeps(w.t, ev, id, now);
    var n := Ingest(w.t, ev, id, now);
    forall k | k in w.workers ensures WorkerOk(n, k, w.workers[k]) { WorkerIngest(w.t, ev, id, now, k, w.workers[k]); }
    var queue := QueueOf(w.pass);
    forall i | 0 <= i < |queue| ensures ListedOk(n, queue[i]) { ListedIngest(w.t, ev, id, now, queue[i]); }
  }

  lemma {:induction false} ConsiderStep(c: Config, w: World, countFails: bool)
    requires Inv(w) && QueueOf(w.pass) != []
    ensures Inv(Consider(c, w, countFails))
  {
    var l := w.pass.queue[0];
    assert ListedOk(w.t, l) && l == Listing(l.id, l.host, l.attempts);
  }

  /** The tables after a goroutine's transaction, when it commits. */
  lemma {:induction false} WorkShape(c: Config, w: World, id: string, run: string, diagnosed: bool, backoff: int, now: int)
    requires Inv(w) && id in w.workers
    ensures var n := Work(c, w, id, run, diagnosed, backoff, now); var wk := w.workers[id]; var own := if wk.Enqueuing? then run else wk.run;
      && TablesOk(n.t)
      && (n.t != w.t ==> OnlyRun(w.t.runs, n.t.runs, id, own) && OnlyIncident(w.t.incidents, n.t.incidents, id))
  {
    assert WorkerOk(w.t, id, w.workers[id]);
    match w.workers[id]
    case Enqueuing(_, _) => if Enqueue(w.t, id, run, now).Ok? { EnqueueKeeps(w.t, id, run, now); }
    case Starting(own, n) => RunKeeps(w.t, own, id, n + 1, c.maxAttempts, backoff, now);
    case Diagnosing(own, n) => RunKeeps(w.t, own, id, n + 1, c.maxAttempts, backoff, now);
  }

  lemma {:induction false} WorkStep(c: Config, w: World, id: string, run: string, diagnosed: bool, backoff: int, now: int)
    requires Inv(w) && id in w.workers
    ensures Inv(Work(c, w, id, run, diagnosed, backoff, now))
  {
    var n := Work(c, w, id, run, diagnosed, backoff, now);
    WorkShape(c, w, id, run, diagnosed, backoff, now);
    var own := if w.workers[id].Enqueuing? then run else w.workers[id].run;
    assert WorkerOk(w.t, id, w.workers[id]);
    if n.t != w.t { OthersStay(w.t, n.t, id, own, QueueOf(w.pass), w.workers); }
    forall k | k in n.workers ensures WorkerOk(n.t, k, n.workers[k]) {
      if k != id { assert k in w.workers - {id} && n.workers[k] == w.workers[k]; }
    }
  }

  lemma {:induction false} StepKeepsInv(c: Config, w: World, s: Step)
    requires Inv(w) && Possible(w, s)
    ensures Inv(Next(c, w, s))
  {
    match s
    case Ingests(ev, id, now) => IngestStep(w, ev, id, now);
    case Considers(countFails) => if QueueOf(w.pass) != [] { ConsiderStep(c, w, countFails); }
    case Works(id, run, diagnosed, backoff, now) => if id in w.workers { WorkStep(c, w, id, run, diagnosed, backoff, now); }
    case Restarts(now) => RecoverKeeps(w.t, now);
    case _ =>
  }

  /** In every run: one active incident per identity, one run in flight per incident, statuses that agree with the runs. */
  lemma {:induction false} RunKeepsInv(c: Config, w: World, steps: seq<Step>)
    requires Inv(w) && Possibles(c, w, steps)
    ensures Inv(Run(c, w, steps))
    decreases |steps|
  {
    if steps != [] {
      StepKeepsInv(c, w, steps[0]);
      RunKeepsInv(c, Next(c, w, steps[0]), steps[1..]);
    }
  }

  /** What the invariant says of one incident: in flight exactly while QUEUED or INVESTIGATING, in the same state and once. */
  lemma {:induction false} StatusAgrees(c: Config, steps: seq<Step>, id: string)
    requires Possibles(c, EMPTY, steps) && id in Run(c, EMPTY, steps).t.incidents
    ensures var t := Run(c, EMPTY, steps).t; var status := t.incidents[id].status;
      && (status == Queued ==> exists r :: InFlight(t.runs, id, r) && t.runs[r].state == RunQueued)
      && (status == Investigating ==> exists r :: InFlight(t.runs, id, r) && t.runs[r].state == RunInvestigating)
      && (status == Open || status == Diagnosed || status == AgentFailed ==> !HasAlive(t.runs, id))
      && (forall r, s :: InFlight(t.runs, id, r) && InFlight(t.runs, id, s) ==> r == s)
      && (!Terminal(status) ==> forall k :: IsActiveRow(t.incidents, t.incidents[id].identity, k) ==> k == id)
  {
    RunKeepsInv(c, EMPTY, steps);
    var t := Run(c, EMPTY, steps).t;
    if Busy(t.incidents[id].status) {
      var r :| InFlight(t.runs, id, r);
      assert Matches(t.incidents[id].status, t.runs[r].state);
    }
    if !Terminal(t.incidents[id].status) { assert IsActiveRow(t.incidents, t.incidents[id].identity, id); }
  }

  /** A failed run with attempts left is due again exactly from the stored end of its backoff on, which is cut to the second. */
  lemma {:induction false} RetryDue(t: Tables, run: string, id: string, used: nat, maxAttempts: int, backoff: int, now: int, later: int)
    requires TablesOk(t) && InFlight(t.runs, id, run) && !Frozen(t.incidents[id].status) && used < maxAttempts
    ensures Due(Fail(t, run, id, used, maxAttempts, backoff, now), id, later) <==> later >= Stored(now + backoff)
  {
    StoredOrder(now + backoff, later);
    var n := Fail(t, run, id, used, maxAttempts, backoff, now);
    assert forall r :: InFlight(n.runs, id, r) ==> r != run && InFlight(t.runs, id, r);
  }

  /** So it never comes back before its backoff is over exactly when the backoff ends on a whole second. */
  lemma {:induction false} RetryNeverEarly(t: Tables, run: string, id: string, used: nat, maxAttempts: int, backoff: int, now: int)
    requires TablesOk(t) && InFlight(t.runs, id, run) && !Frozen(t.incidents[id].status) && used < maxAttempts
    ensures (forall later :: Due(Fail(t, run, id, used, maxAttempts, backoff, now), id, later) ==> later >= now + backoff)
       <==> (now + backoff) % SECOND == 0
  {
    var n := Fail(t, run, id, used, maxAttempts, backoff, now);
    forall later: int ensures Due(n, id, later) <==> later >= Stored(now + backoff) {
      RetryDue(t, run, id, used, maxAttempts, backoff, now, later);
    }
    assert Due(n, id, Stored(now + backoff));
  }

  /** Failing 10.9 seconds in with a backoff of 10 seconds: due again at 20 seconds, 0.9 seconds early. */
  lemma {:induction false} RetryEarly(t: Tables, run: string, id: string, used: nat, maxAttempts: int)
    requires TablesOk(t) && InFlight(t.runs, id, run) && !Frozen(t.incidents[id].status) && used < maxAttempts
    ensures Due(Fail(t, run, id, used, maxAttempts, 10 * SECOND, 10_900_000_000), id, 20 * SECOND)
  {
    RetryDue(t, run, id, used, maxAttempts, 10 * SECOND, 10_900_000_000, 20 * SECOND);
  }

  /** A run cut short by a restart is due at once, and so is a finished investigation after a changed firing event. */
  lemma {:induction false} DueAtOnce(t: Tables, id: string, now: int, ev: Event, later: int)
    requires TablesOk(t) && id in t.incidents
    ensures HasAlive(t.runs, id) && t.incidents[id].status !in {ResolvedExternal, Closed, Suppressed} ==> Due(Recover(t, now), id, later)
    ensures ActiveFor(t, ev.identity, id) && FiresAnew(t.incidents[id], ev) ==> Due(Ingest(t, ev, id, now), id, later)
  {
    IngestMeans(t, ev, id, now);
    RecoverKeeps(t, now);
    if HasAlive(t.runs, id) {
      var r :| InFlight(t.runs, id, r);
      assert Matches(t.incidents[id].status, t.runs[r].state);
    }
  }

  /** The next incident of a pass gets its goroutine unless its host has as many runs as allowed, or the pass has already taken
      one of the host's incidents. */
  lemma {:induction false} PassedOver(c: Config, w: World, countFails: bool)
    requires QueueOf(w.pass) != []
    ensures var l, v := w.pass.queue[0], Consider(c, w, countFails);
      && v.t == w.t && v.pass.Dispatching? && v.pass.queue == w.pass.queue[1..]
      && (v.workers == w.workers[l.id := Enqueuing(l.host, l.attempts)] || v == w.(pass := v.pass))
      && (v.workers != w.workers[l.id := Enqueuing(l.host, l.attempts)] ==>
            l.host != "" && !countFails && (|AliveOn(w.t, l.host)| >= c.maxPerHost || l.host in w.pass.claimed))
      && (forall host :: host in v.pass.claimed && host !in w.pass.claimed ==> host == l.host && v.workers == w.workers[l.id := Enqueuing(l.host, l.attempts)])
  {
  }

  /** A pass goes on exactly when fewer runs are in flight than allowed, and then may list as many incidents as are missing. */
  lemma {:induction false} PassBegins(c: Config, w: World)
    requires w.pass.Idle?
    ensures var v := Next(c, w, Counts);
      && (v.pass.Counted? <==> |AliveRuns(w.t.runs)| < c.maxConcurrent)
      && (v.pass.Counted? ==> |AliveRuns(w.t.runs)| + v.pass.budget == c.maxConcurrent)
      && v == w.(pass := v.pass)
  {
  }

  function GiveUps(ids: seq<string>): seq<Step> {
    if ids == [] then [Finishes] else [GivesUp(ids[0])] + GiveUps(ids[1..])
  }

  /** Errors end a pass and change no table: a failed listing ends it at once, and when every goroutine gives up it is over. */
  lemma {:induction false} PassEnds(c: Config, w: World, ids: seq<string>)
    requires w.pass.Counted? || (w.pass.Dispatching? && w.pass.queue == [] && forall id :: id in w.workers ==> id in ids)
    ensures w.pass.Counted? ==> Next(c, w, ListFails) == w.(pass := Idle)
    ensures w.pass.Dispatching? ==> Run(c, w, GiveUps(ids)) == w.(pass := Idle, workers := map[])
    decreases |ids|
  {
    if w.pass.Dispatching? {
      if ids == [] {
        assert forall id :: id !in w.workers;
        assert w.workers == map[];
        assert Run(c, w, [Finishes]) == Run(c, Next(c, w, Finishes), []);
      } else {
        var v := Next(c, w, GivesUp(ids[0]));
        assert v == w.(workers := w.workers - {ids[0]});
        assert ids == [ids[0]] + ids[1..];
        PassEnds(c, v, ids[1..]);
        assert GiveUps(ids)[0] == GivesUp(ids[0]) && GiveUps(ids)[1..] == GiveUps(ids[1..]);
      }
    }
  }

  ghost predicate IsListed(listed: seq<Listing>, id: string) {
    exists i :: 0 <= i < |listed| && listed[i].id == id
  }

  /** Nobody is overtaken: the first one listed was updated no later than any due incident, a due incident that is not listed was
      updated no earlier than any listed one, and with room left every due incident is listed. */
  lemma {:induction false} ListingFair(t: Tables, now: int, limit: nat, listed: seq<Listing>, id: string)
    requires Listed(t, now, limit, listed) && Due(t, id, now)
    ensures |listed| < limit ==> IsListed(listed, id)
    ensures listed != [] ==> listed[0].id in t.incidents && t.incidents[listed[0].id].updatedAt <= t.incidents[id].updatedAt
    ensures forall i :: 0 <= i < |listed| && t.incidents[id].updatedAt < t.incidents[listed[i].id].updatedAt ==> IsListed(listed[..i], id)
  {
    if i :| 0 <= i < |listed| && listed[i].id == id {
      forall k | 0 <= k < |listed| && t.incidents[id].updatedAt < t.incidents[listed[k].id].updatedAt ensures IsListed(listed[..k], id) {
        assert i < k;
        assert listed[..k][i].id == id;
      }
    }
  }

  lemma {:induction false} RunSnoc(c: Config, w: World, steps: seq<Step>, s: Step)
    ensures Run(c, w, steps + [s]) == Next(c, Run(c, w, steps), s)
    ensures Possibles(c, w, steps) && Possible(Run(c, w, steps), s) ==> Possibles(c, w, steps + [s])
    decreases |steps|
  {
    if steps == [] {
      assert [s][1..] == [] && [] + [s] == [s];
      assert Run(c, w, [s]) == Run(c, Next(c, w, s), []);
    } else {
      assert (steps + [s])[0] == steps[0] && (steps + [s])[1..] == steps[1..] + [s];
      RunSnoc(c, Next(c, w, steps[0]), steps[1..], s);
    }
  }

  /** A run one step longer. */
  lemma {:induction false} OneMore(c: Config, steps: seq<Step>, w: World, s: Step)
    requires Possibles(c, EMPTY, steps) && Run(c, EMPTY, steps) == w && Possible(w, s)
    ensures Possibles(c, EMPTY, steps + [s]) && Run(c, EMPTY, steps + [s]) == Next(c, w, s)
  {
    RunSnoc(c, EMPTY, steps, s);
  }
}
