/** What the dispatch loop does to one incident over time: attempts, repeated diagnoses, terminal statuses, event rows. */
module DispatchHistory {
  import opened Outcomes
  import opened Incidents
  import opened Scheduler

  // Attempts.

  /** Runs enqueued for the incident since its attempt counter was last reset. */
  function Tries(log: seq<Mark>, id: string): nat {
    if log == [] then 0
    else
      var n := |log| - 1; var before := Tries(log[..n], id);
      match log[n]
      case Enqueued(k) => if k == id then before + 1 else before
      case NewCycle(k) => if k == id then 0 else before
      case _ => before
  }

  /** Restarts that cut a run of the incident short since then. */
  function Lost(log: seq<Mark>, id: string): nat {
    if log == [] then 0
    else
      var n := |log| - 1; var before := Lost(log[..n], id);
      match log[n]
      case CutShort(ids) => if id in ids then before + 1 else before
      case NewCycle(k) => if k == id then 0 else before
      case _ => before
  }

  lemma {:induction false} Appended(log: seq<Mark>, m: Mark, id: string)
    ensures Tries(log + [m], id) ==
      (match m case Enqueued(k) => Tries(log, id) + (if k == id then 1 else 0)
               case NewCycle(k) => if k == id then 0 else Tries(log, id)
               case _ => Tries(log, id))
    ensures Lost(log + [m], id) ==
      (match m case CutShort(ids) => Lost(log, id) + (if id in ids then 1 else 0)
               case NewCycle(k) => if k == id then 0 else Lost(log, id)
               case _ => Lost(log, id))
  {
    assert (log + [m])[..|log|] == log;
  }

  predicate InQueue(queue: seq<Listing>, id: string) {
    exists i :: 0 <= i < |queue| && queue[i].id == id
  }

  /** A run may be enqueued for the incident without another event. */
  ghost predicate Waiting(i: Incident, queue: seq<Listing>, workers: map<string, Worker>, id: string) {
    i.status == Open || InQueue(queue, id) || (id in workers && workers[id].Enqueuing?)
  }

  function Allowed(c: Config): nat {
    if c.maxAttempts > 1 then c.maxAttempts else 1
  }

  predicate TriesFit(c: Config, attempts: nat, tries: nat, lost: nat, waiting: bool) {
    attempts == tries && attempts <= Allowed(c) + lost && (waiting ==> attempts < Allowed(c) + lost)
  }

  ghost predicate AttemptsFit(c: Config, w: World, id: string) {
    if id !in w.t.incidents then Tries(w.log, id) == 0
    else
      var i := w.t.incidents[id];
      TriesFit(c, i.attempts, Tries(w.log, id), Lost(w.log, id), Waiting(i, QueueOf(w.pass), w.workers, id))
  }

  lemma {:induction false} FreshAttempts(c: Config, w: World, ev: Event, id: string, now: int, k: string)
    requires Inv(w) && AttemptsFit(c, w, k) && ActiveRow(w.t.incidents, ev.identity) == None
    ensures AttemptsFit(c, Next(c, w, Ingests(ev, id, now)), k)
  {
    assert w.log + [] == w.log;
    if k !in w.t.incidents { assert !InQueue(QueueOf(w.pass), k); }
  }

  /** What `updateIncident` does to the attempt counter. */
  lemma {:induction false} UpdatedAttempts(i: Incident, ev: Event, now: int)
    ensures var after := Updated(i, ev, now);
      && (FiresAnew(i, ev) ==> after.attempts == 0)
      && (!FiresAnew(i, ev) ==> after.attempts == i.attempts && (after.status == Open ==> i.status == Open))
  {
  }

  lemma {:induction false} UpdateAttempts(c: Config, w: World, ev: Event, id: string, now: int, row: string, k: string)
    requires Inv(w) && AttemptsFit(c, w, k) && ActiveRow(w.t.incidents, ev.identity) == Some(row)
    ensures AttemptsFit(c, Next(c, w, Ingests(ev, id, now)), k)
  {
    var n, i := Next(c, w, Ingests(ev, id, now)), w.t.incidents[row];
    UpdatedAttempts(i, ev, now);
    if FiresAnew(i, ev) {
      Appended(w.log, NewCycle(row), k);
    } else {
      assert n.log == w.log + [] == w.log;
    }
    assert n.t.incidents == w.t.incidents[row := Updated(i, ev, now)];
  }

  lemma {:induction false} IngestAttempts(c: Config, w: World, ev: Event, id: string, now: int, k: string)
    requires Inv(w) && AttemptsFit(c, w, k)
    ensures AttemptsFit(c, Next(c, w, Ingests(ev, id, now)), k)
  {
    match ActiveRow(w.t.incidents, ev.identity)
    case None => FreshAttempts(c, w, ev, id, now, k);
    case Some(row) => UpdateAttempts(c, w, ev, id, now, row, k);
  }

  lemma {:induction false} ConsiderAttempts(c: Config, w: World, countFails: bool, k: string)
    requires Inv(w) && AttemptsFit(c, w, k) && QueueOf(w.pass) != []
    ensures AttemptsFit(c, Consider(c, w, countFails), k)
  {
    var queue := w.pass.queue;
    assert queue[0].id == k ==> InQueue(queue, k);
    if InQueue(queue[1..], k) {
      var i :| 0 <= i < |queue| - 1 && queue[1..][i].id == k;
      assert queue[i + 1].id == k;
    }
  }

  /** Nothing of what the bound looks at changed for this incident. */
  lemma {:induction false} AttemptsElsewhere(c: Config, w: World, n: World, k: string)
    requires AttemptsFit(c, w, k) && n.pass == w.pass
    requires k in w.t.incidents <==> k in n.t.incidents
    requires k in w.t.incidents ==> n.t.incidents[k] == w.t.incidents[k]
    requires k in w.workers <==> k in n.workers
    requires k in w.workers ==> n.workers[k] == w.workers[k]
    requires Tries(n.log, k) == Tries(w.log, k) && Lost(n.log, k) == Lost(w.log, k)
    ensures AttemptsFit(c, n, k)
  {
  }

  /** A goroutine of an incident with a run in flight: the incident is not OPEN, and not queued a second time. */
  lemma {:induction false} OwnIncident(w: World, id: string)
    requires Inv(w) && id in w.workers
    ensures !InQueue(QueueOf(w.pass), id) && id in w.t.incidents && WorkerOk(w.t, id, w.workers[id])
    ensures !w.workers[id].Enqueuing? ==> w.t.incidents[id].status != Open && w.t.incidents[id].attempts == w.workers[id].attempts + 1
  {
    assert WorkerOk(w.t, id, w.workers[id]);
    if !w.workers[id].Enqueuing? {
      assert InFlight(w.t.runs, id, w.workers[id].run);
    }
  }

  lemma {:induction false} OwnEnqueue(c: Config, w: World, id: string, run: string, diagnosed: bool, backoff: int, now: int)
    requires Inv(w) && AttemptsFit(c, w, id) && id in w.workers && w.workers[id].Enqueuing?
    ensures AttemptsFit(c, Work(c, w, id, run, diagnosed, backoff, now), id)
  {
    OwnIncident(w, id);
    var r := Enqueue(w.t, id, run, now);
    if r.Ok? {
      OwnEnqueued(c, w, id, run, diagnosed, backoff, now);
    } else {
      var n := Work(c, w, id, run, diagnosed, backoff, now);
      assert n == w.(workers := w.workers - {id});
    }
  }

  lemma {:induction false} OwnEnqueued(c: Config, w: World, id: string, run: string, diagnosed: bool, backoff: int, now: int)
    requires id in w.workers && w.workers[id].Enqueuing? && id in w.t.incidents && !InQueue(QueueOf(w.pass), id)
    requires AttemptsFit(c, w, id) && Enqueue(w.t, id, run, now).Ok?
    ensures AttemptsFit(c, Work(c, w, id, run, diagnosed, backoff, now), id)
  {
    Appended(w.log, Enqueued(id), id);
    var n := Work(c, w, id, run, diagnosed, backoff, now);
    assert n.t.incidents[id].attempts == w.t.incidents[id].attempts + 1 && n.t.incidents[id].status == Queued;
    assert n.log == w.log + [Enqueued(id)] && n.pass == w.pass && !n.workers[id].Enqueuing?;
  }

  lemma {:induction false} OwnStart(c: Config, w: World, id: string, run: string, diagnosed: bool, backoff: int, now: int)
    requires Inv(w) && AttemptsFit(c, w, id) && id in w.workers && w.workers[id].Starting?
    ensures AttemptsFit(c, Work(c, w, id, run, diagnosed, backoff, now), id)
  {
    OwnIncident(w, id);
  }

  lemma {:induction false} OwnEnd(c: Config, w: World, id: string, run: string, diagnosed: bool, backoff: int, now: int)
    requires Inv(w) && AttemptsFit(c, w, id) && id in w.workers && w.workers[id].Diagnosing?
    ensures AttemptsFit(c, Work(c, w, id, run, diagnosed, backoff, now), id)
  {
    OwnIncident(w, id);
    Appended(w.log, Diagnosis(id), id);
  }

  lemma {:induction false} WorkAttempts(c: Config, w: World, id: string, run: string, diagnosed: bool, backoff: int, now: int, k: string)
    requires Inv(w) && AttemptsFit(c, w, k) && id in w.workers
    ensures AttemptsFit(c, Work(c, w, id, run, diagnosed, backoff, now), k)
  {
    if k == id {
      match w.workers[id]
      case Enqueuing(_, _) => OwnEnqueue(c, w, id, run, diagnosed, backoff, now);
      case Starting(_, _) => OwnStart(c, w, id, run, diagnosed, backoff, now);
      case Diagnosing(_, _) => OwnEnd(c, w, id, run, diagnosed, backoff, now);
    } else {
      var n := Work(c, w, id, run, diagnosed, backoff, now);
      Appended(w.log, Enqueued(id), k);
      Appended(w.log, Diagnosis(id), k);
      WorkElsewhere(c, w, id, run, diagnosed, backoff, now, k);
      AttemptsElsewhere(c, w, n, k);
    }
  }

  lemma {:induction false} WorkElsewhere(c: Config, w: World, id: string, run: string, diagnosed: bool, backoff: int, now: int, k: string)
    requires Inv(w) && id in w.workers && k != id
    ensures var n := Work(c, w, id, run, diagnosed, backoff, now);
      && n.pass == w.pass && (k in w.t.incidents <==> k in n.t.incidents) && (k in w.workers <==> k in n.workers)
      && (k in w.t.incidents ==> n.t.incidents[k] == w.t.incidents[k]) && (k in w.workers ==> n.workers[k] == w.workers[k])
  {
    assert WorkerOk(w.t, id, w.workers[id]);
  }

  lemma {:induction false} RestartAttempts(c: Config, w: World, now: int, k: string)
    requires Inv(w) && AttemptsFit(c, w, k)
    ensures AttemptsFit(c, Next(c, w, Restarts(now)), k)
  {
    Appended(w.log, CutShort(Reopened(w.t)), k);
  }

  lemma {:induction false} StepAttempts(c: Config, w: World, s: Step, k: string)
    requires Inv(w) && AttemptsFit(c, w, k) && Possible(w, s)
    ensures AttemptsFit(c, Next(c, w, s), k)
  {
    match s
    case Ingests(ev, id, now) => IngestAttempts(c, w, ev, id, now, k);
    case Considers(countFails) => if QueueOf(w.pass) != [] { ConsiderAttempts(c, w, countFails, k); }
    case Works(id, run, diagnosed, backoff, now) => if id in w.workers { WorkAttempts(c, w, id, run, diagnosed, backoff, now, k); }
    case Restarts(now) => RestartAttempts(c, w, now, k);
    case _ =>
  }

  lemma {:induction false} RunAttempts(c: Config, w: World, steps: seq<Step>, k: string)
    requires Inv(w) && AttemptsFit(c, w, k) && Possibles(c, w, steps)
    ensures AttemptsFit(c, Run(c, w, steps), k)
    decreases |steps|
  {
    if steps != [] {
      StepKeepsInv(c, w, steps[0]);
      StepAttempts(c, w, steps[0], k);
      RunAttempts(c, Next(c, w, steps[0]), steps[1..], k);
    }
  }

  /** Between two changed firing events an incident gets at most the configured number of runs, plus one for each
      restart that cut one of them short; and its stored counter is the number of runs it had. */
  lemma {:induction false} AttemptsBounded(c: Config, steps: seq<Step>, id: string)
    requires Possibles(c, EMPTY, steps)
    ensures var w := Run(c, EMPTY, steps);
      && Tries(w.log, id) <= Allowed(c) + Lost(w.log, id)
      && (id in w.t.incidents ==> w.t.incidents[id].attempts == Tries(w.log, id))
  {
    RunAttempts(c, EMPTY, steps, id);
  }

  // A valid diagnosis is not repeated.

  /** The incident was diagnosed and no changed firing event has reopened it since. */
  predicate DiagnosedSince(log: seq<Mark>, id: string) {
    log != [] && var n := |log| - 1;
    (log[n] == Diagnosis(id) || (log[n] != NewCycle(id) && DiagnosedSince(log[..n], id)))
  }

  /** Between a stored diagnosis and a later run of the incident a changed firing event reopened it. */
  ghost predicate NoRerun(log: seq<Mark>, id: string) {
    forall i, j :: 0 <= i < j < |log| && log[i] == Diagnosis(id) && log[j] == Enqueued(id) ==>
      exists k :: i < k < j && log[k] == NewCycle(id)
  }

  lemma {:induction false} SinceAppended(log: seq<Mark>, m: Mark, id: string)
    ensures DiagnosedSince(log + [m], id) <==> m == Diagnosis(id) || (m != NewCycle(id) && DiagnosedSince(log, id))
  {
    assert (log + [m])[..|log|] == log;
  }

  lemma {:induction false} ReopenedAfter(log: seq<Mark>, id: string, i: nat)
    requires i < |log| && log[i] == Diagnosis(id) && !DiagnosedSince(log, id)
    ensures exists k :: i < k < |log| && log[k] == NewCycle(id)
  {
    var n := |log| - 1;
    if log[n] != NewCycle(id) {
      ReopenedAfter(log[..n], id, i);
      var k :| i < k < n && log[..n][k] == NewCycle(id);
      assert log[k] == NewCycle(id);
    }
  }

  lemma {:induction false} NoRerunAppended(log: seq<Mark>, m: Mark, id: string)
    requires NoRerun(log, id) && (m == Enqueued(id) ==> !DiagnosedSince(log, id))
    ensures NoRerun(log + [m], id)
  {
    var all := log + [m];
    forall i, j | 0 <= i < j < |all| && all[i] == Diagnosis(id) && all[j] == Enqueued(id)
      ensures exists k :: i < k < j && all[k] == NewCycle(id)
    {
      if j == |log| {
        ReopenedAfter(log, id, i);
        var k :| i < k < |log| && log[k] == NewCycle(id);
        assert all[k] == NewCycle(id);
      } else {
        var k :| i < k < j && log[k] == NewCycle(id);
        assert all[k] == NewCycle(id);
      }
    }
  }

  ghost predicate Pending(i: Incident, queue: seq<Listing>, workers: map<string, Worker>, id: string) {
    Waiting(i, queue, workers, id) || Busy(i.status) || id in workers
  }

  ghost predicate MayRun(w: World, id: string) {
    id in w.t.incidents ==> Pending(w.t.incidents[id], QueueOf(w.pass), w.workers, id)
  }

  ghost predicate Unrepeated(w: World, id: string) {
    (MayRun(w, id) ==> !DiagnosedSince(w.log, id)) && NoRerun(w.log, id)
  }

  lemma {:induction false} IngestUnrepeated(c: Config, w: World, ev: Event, id: string, now: int, k: string)
    requires Inv(w) && Unrepeated(w, k)
    ensures Unrepeated(Next(c, w, Ingests(ev, id, now)), k)
  {
    var n := Next(c, w, Ingests(ev, id, now));
    match ActiveRow(w.t.incidents, ev.identity)
    case None =>
      assert n.log == w.log + [] == w.log;
      if k in w.t.incidents { assert n.t.incidents[k] == w.t.incidents[k]; }
    case Some(row) =>
      var i := w.t.incidents[row];
      if FiresAnew(i, ev) {
        SinceAppended(w.log, NewCycle(row), k);
        NoRerunAppended(w.log, NewCycle(row), k);
      } else {
        assert n.log == w.log + [] == w.log;
      }
      if k in w.t.incidents && k != row { assert n.t.incidents[k] == w.t.incidents[k]; }
  }

  lemma {:induction false} ConsiderUnrepeated(c: Config, w: World, countFails: bool, k: string)
    requires Inv(w) && Unrepeated(w, k) && QueueOf(w.pass) != []
    ensures Unrepeated(Consider(c, w, countFails), k)
  {
    var queue := w.pass.queue;
    assert queue[0].id == k ==> InQueue(queue, k);
    if InQueue(queue[1..], k) {
      var i :| 0 <= i < |queue| - 1 && queue[1..][i].id == k;
      assert queue[i + 1].id == k;
    }
  }

  lemma {:induction false} OwnUnrepeated(c: Config, w: World, id: string, run: string, diagnosed: bool, backoff: int, now: int)
    requires Inv(w) && Unrepeated(w, id) && id in w.workers
    ensures Unrepeated(Work(c, w, id, run, diagnosed, backoff, now), id)
  {
    OwnIncident(w, id);
    assert !DiagnosedSince(w.log, id);
    match w.workers[id]
    case Enqueuing(_, _) =>
      SinceAppended(w.log, Enqueued(id), id);
      NoRerunAppended(w.log, Enqueued(id), id);
    case Starting(_, _) =>
    case Diagnosing(_, _) =>
      NoRerunAppended(w.log, Diagnosis(id), id);
  }

  lemma {:induction false} WorkUnrepeated(c: Config, w: World, id: string, run: string, diagnosed: bool, backoff: int, now: int, k: string)
    requires Inv(w) && Unrepeated(w, k) && id in w.workers
    ensures Unrepeated(Work(c, w, id, run, diagnosed, backoff, now), k)
  {
    if k == id {
      OwnUnrepeated(c, w, id, run, diagnosed, backoff, now);
    } else {
      WorkElsewhere(c, w, id, run, diagnosed, backoff, now, k);
      SinceAppended(w.log, Enqueued(id), k);
      SinceAppended(w.log, Diagnosis(id), k);
      NoRerunAppended(w.log, Enqueued(id), k);
      NoRerunAppended(w.log, Diagnosis(id), k);
    }
  }

  lemma {:induction false} RestartUnrepeated(c: Config, w: World, now: int, k: string)
    requires Inv(w) && Unrepeated(w, k)
    ensures Unrepeated(Next(c, w, Restarts(now)), k)
  {
    SinceAppended(w.log, CutShort(Reopened(w.t)), k);
    NoRerunAppended(w.log, CutShort(Reopened(w.t)), k);
    if k in w.t.incidents && HasAlive(w.t.runs, k) {
      var r :| InFlight(w.t.runs, k, r);
      assert Matches(w.t.incidents[k].status, w.t.runs[r].state);
    }
  }

  lemma {:induction false} StepUnrepeated(c: Config, w: World, s: Step, k: string)
    requires Inv(w) && Unrepeated(w, k) && Possible(w, s)
    ensures Unrepeated(Next(c, w, s), k)
  {
    match s
    case Ingests(ev, id, now) => IngestUnrepeated(c, w, ev, id, now, k);
    case Considers(countFails) => if QueueOf(w.pass) != [] { ConsiderUnrepeated(c, w, countFails, k); }
    case Works(id, run, diagnosed, backoff, now) => if id in w.workers { WorkUnrepeated(c, w, id, run, diagnosed, backoff, now, k); }
    case Restarts(now) => RestartUnrepeated(c, w, now, k);
    case _ =>
  }

  lemma {:induction false} RunUnrepeated(c: Config, w: World, steps: seq<Step>, k: string)
    requires Inv(w) && Unrepeated(w, k) && Possibles(c, w, steps)
    ensures Unrepeated(Run(c, w, steps), k)
    decreases |steps|
  {
    if steps != [] {
      StepKeepsInv(c, w, steps[0]);
      StepUnrepeated(c, w, steps[0], k);
      RunUnrepeated(c, Next(c, w, steps[0]), steps[1..], k);
    }
  }

  /** In every run, between a stored diagnosis of an incident and any later run of it, a changed firing event reopened it. */
  lemma {:induction false} DiagnosisNotRepeated(c: Config, steps: seq<Step>, id: string, i: nat, j: nat)
    requires Possibles(c, EMPTY, steps) && i < j < |Run(c, EMPTY, steps).log|
    requires Run(c, EMPTY, steps).log[i] == Diagnosis(id) && Run(c, EMPTY, steps).log[j] == Enqueued(id)
    ensures exists k :: i < k < j && Run(c, EMPTY, steps).log[k] == NewCycle(id)
  {
    RunUnrepeated(c, EMPTY, steps, id);
  }

  // Terminal statuses.

  /** The one step that takes an incident out of a terminal status. */
  ghost predicate Resurrects(w: World, s: Step, id: string) {
    s.Works? && s.id == id && id in w.workers && w.workers[id].Enqueuing? && CanEnqueue(w.t, id, s.run)
  }

  /** A terminal incident stays terminal through a step unless, and only unless, its own enqueue commits. */
  lemma {:induction false} TerminalExact(c: Config, w: World, s: Step, id: string)
    requires Inv(w) && id in w.t.incidents && Terminal(w.t.incidents[id].status)
    ensures id in Next(c, w, s).t.incidents
    ensures Terminal(Next(c, w, s).t.incidents[id].status) <==> !Resurrects(w, s, id)
  {
    if s.Works? && s.id in w.workers {
      assert WorkerOk(w.t, s.id, w.workers[s.id]);
      if s.id != id { WorkElsewhere(c, w, s.id, s.run, s.diagnosed, s.backoff, s.now, id); }
    }
  }

  ghost predicate NeverResurrects(c: Config, w: World, steps: seq<Step>, id: string)
    decreases |steps|
  {
    steps != [] ==> !Resurrects(w, steps[0], id) && NeverResurrects(c, Next(c, w, steps[0]), steps[1..], id)
  }

  lemma {:induction false} TerminalStays(c: Config, w: World, steps: seq<Step>, id: string)
    requires Inv(w) && Possibles(c, w, steps) && NeverResurrects(c, w, steps, id)
    requires id in w.t.incidents && Terminal(w.t.incidents[id].status)
    ensures id in Run(c, w, steps).t.incidents && Terminal(Run(c, w, steps).t.incidents[id].status)
    decreases |steps|
  {
    if steps != [] {
      TerminalExact(c, w, steps[0], id);
      StepKeepsInv(c, w, steps[0]);
      TerminalStays(c, Next(c, w, steps[0]), steps[1..], id);
    }
  }

  /** One incident, fired at time 0, listed and handed to a goroutine. */
  function OneDispatched(e: Identity, body: string, id: string): World {
    World(Tables(map[id := Incident(e, "", Open, 1, body, None, 0, 0)], map[], [EventRow(id, 1, false)]),
          Dispatching([], {}), map[id := Enqueuing("", 0)], [])
  }

  lemma {:induction false} CountsOne(c: Config, e: Identity, body: string, id: string) returns (steps: seq<Step>)
    requires c.maxConcurrent > 0
    ensures Possibles(c, EMPTY, steps)
    ensures Run(c, EMPTY, steps) == OneDispatched(e, body, id).(pass := Counted(c.maxConcurrent), workers := map[])
  {
    var fired := Ingests(Event(e, "", false, body), id, 0);
    assert AliveRuns(map[]) == {};
    var w := OneDispatched(e, body, id).(pass := Idle, workers := map[]);
    assert Next(c, EMPTY, fired) == w;
    assert Next(c, w, Counts) == w.(pass := Counted(c.maxConcurrent));
    OneMore(c, [], EMPTY, fired);
    OneMore(c, [] + [fired], w, Counts);
    steps := [] + [fired] + [Counts];
  }

  lemma {:induction false} DispatchesOne(c: Config, e: Identity, body: string, id: string) returns (steps: seq<Step>)
    requires c.maxConcurrent > 0
    ensures Possibles(c, EMPTY, steps) && Run(c, EMPTY, steps) == OneDispatched(e, body, id)
  {
    var lists, w := Lists([Listing(id, "", 0)], 0), OneDispatched(e, body, id);
    steps := CountsOne(c, e, body, id);
    var w2 := w.(pass := Counted(c.maxConcurrent), workers := map[]);
    assert Listed(w2.t, 0, c.maxConcurrent, [Listing(id, "", 0)]) by { assert [Listing(id, "", 0)][0].id == id; }
    OneMore(c, steps, w2, lists);
    var w3 := w.(pass := Dispatching([Listing(id, "", 0)], {}), workers := map[]);
    assert Next(c, w2, lists) == w3;
    assert [Listing(id, "", 0)][1..] == [] && map[][id := Enqueuing("", 0)] == map[id := Enqueuing("", 0)];
    assert QueueOf(w3.pass) != [] && Next(c, w3, Considers(false)) == w;
    OneMore(c, steps + [lists], w3, Considers(false));
    steps := steps + [lists] + [Considers(false)];
  }

  /** Such a step is reachable: an incident resolved between its listing and its enqueue comes back as QUEUED. */
  lemma {:induction false} ResolvedComesBack(c: Config, e: Identity, body: string, id: string, run: string) returns (steps: seq<Step>, last: Step)
    requires c.maxConcurrent > 0
    ensures Possibles(c, EMPTY, steps + [last])
    ensures id in Run(c, EMPTY, steps).t.incidents && Run(c, EMPTY, steps).t.incidents[id].status == ResolvedExternal
    ensures id in Run(c, EMPTY, steps + [last]).t.incidents && Run(c, EMPTY, steps + [last]).t.incidents[id].status == Queued
  {
    steps := DispatchesOne(c, e, body, id);
    var w, resolved := OneDispatched(e, body, id), Ingests(Event(e, "", true, body), id, 1);
    assert IsActiveRow(w.t.incidents, e, id) && ActiveRow(w.t.incidents, e) == Some(id);
    var w2 := Next(c, w, resolved);
    last := Works(id, run, false, 0, 2);
    assert CanEnqueue(w2.t, id, run);
    RunSnoc(c, EMPTY, steps, resolved);
    steps := steps + [resolved];
    RunSnoc(c, EMPTY, steps, last);
  }

  // Event rows.

  lemma {:induction false} StepAudited(c: Config, w: World, s: Step)
    requires Inv(w) && Audited(w.t.incidents, w.t.events)
    ensures Audited(Next(c, w, s).t.incidents, Next(c, w, s).t.events)
  {
    if s.Ingests? {
      IngestAudited(w.t, s.ev, s.id, s.now);
    } else {
      if s.Works? && s.id in w.workers { WorkShape(c, w, s.id, s.run, s.diagnosed, s.backoff, s.now); }
      SameRevisions(w.t.incidents, Next(c, w, s).t.incidents, w.t.events);
    }
  }

  lemma {:induction false} RunAudited(c: Config, w: World, steps: seq<Step>)
    requires Inv(w) && Audited(w.t.incidents, w.t.events) && Possibles(c, w, steps)
    ensures Audited(Run(c, w, steps).t.incidents, Run(c, w, steps).t.events)
    decreases |steps|
  {
    if steps != [] {
      StepKeepsInv(c, w, steps[0]);
      StepAudited(c, w, steps[0]);
      RunAudited(c, Next(c, w, steps[0]), steps[1..]);
    }
  }

  // Both, over every run from an empty store.

  /** One more than the attempts a goroutine read, which is what its retry decision goes by, is the stored counter; meanwhile
      its incident is neither OPEN nor queued again. */
  lemma {:induction false} AttemptIsCounter(c: Config, steps: seq<Step>, id: string)
    requires Possibles(c, EMPTY, steps)
    ensures var w := Run(c, EMPTY, steps);
      id in w.workers ==>
        && id in w.t.incidents && !InQueue(QueueOf(w.pass), id)
        && (!w.workers[id].Enqueuing? ==> w.t.incidents[id].status != Open && w.t.incidents[id].attempts == w.workers[id].attempts + 1)
  {
    RunKeepsInv(c, EMPTY, steps);
    var w := Run(c, EMPTY, steps);
    if id in w.workers { OwnIncident(w, id); }
  }

  /** The event rows of each incident number its revisions 1, 2, ..., current with none missing or repeated. */
  lemma {:induction false} EventsNumbered(c: Config, steps: seq<Step>)
    requires Possibles(c, EMPTY, steps)
    ensures Audited(Run(c, EMPTY, steps).t.incidents, Run(c, EMPTY, steps).t.events)
  {
    RunAudited(c, EMPTY, steps);
  }
}
