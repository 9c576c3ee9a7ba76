/** How many runs the dispatch loop keeps in flight, in all and per host. */
module DispatchBounds {
  import opened Outcomes
  import opened Incidents
  import opened Scheduler

  ghost function Enqueuers(workers: map<string, Worker>): set<string> {
    set id | id in workers && workers[id].Enqueuing?
  }

  function Cap(limit: int): nat {
    if limit > 0 then limit else 0
  }

  function Reserved(p: Pass): nat {
    match p
    case Idle => 0
    case Counted(budget) => budget
    case Dispatching(queue, _) => |queue|
  }

  /** Runs in flight, and the runs the pass may still start, fit the global limit. */
  ghost predicate Within(c: Config, w: World) {
    |AliveRuns(w.t.runs)| + Reserved(w.pass) + |Enqueuers(w.workers)| <= Cap(c.maxConcurrent)
  }

  lemma {:induction false} AliveAfter(before: map<string, AgentRun>, after: map<string, AgentRun>, id: string, run: string)
    requires OnlyRun(before, after, id, run)
    ensures AliveRuns(after) == if Alive(after[run].state) then AliveRuns(before) + {run} else AliveRuns(before) - {run}
  {
  }

  lemma {:induction false} WorkWithin(c: Config, w: World, id: string, run: string, diagnosed: bool, backoff: int, now: int)
    requires Inv(w) && Within(c, w) && id in w.workers
    ensures Within(c, Work(c, w, id, run, diagnosed, backoff, now))
  {
    var n := Work(c, w, id, run, diagnosed, backoff, now);
    WorkShape(c, w, id, run, diagnosed, backoff, now);
    assert WorkerOk(w.t, id, w.workers[id]);
    assert Enqueuers(n.workers) == Enqueuers(w.workers) - {id};
    if n.t != w.t {
      AliveAfter(w.t.runs, n.t.runs, id, if w.workers[id].Enqueuing? then run else w.workers[id].run);
    }
  }

  lemma {:induction false} ConsiderWithin(c: Config, w: World, countFails: bool)
    requires Inv(w) && Within(c, w) && QueueOf(w.pass) != []
    ensures Within(c, Consider(c, w, countFails))
  {
    var l := w.pass.queue[0];
    assert Enqueuers(w.workers[l.id := Enqueuing(l.host, l.attempts)]) == Enqueuers(w.workers) + {l.id};
  }

  lemma {:induction false} StepWithin(c: Config, w: World, s: Step)
    requires Inv(w) && Within(c, w) && Possible(w, s)
    ensures Within(c, Next(c, w, s))
  {
    match s
    case Counts => assert w.pass.Idle? ==> Enqueuers(w.workers) == {};
    case Considers(countFails) => if QueueOf(w.pass) != [] { ConsiderWithin(c, w, countFails); }
    case Works(id, run, diagnosed, backoff, now) => if id in w.workers { WorkWithin(c, w, id, run, diagnosed, backoff, now); }
    case GivesUp(id) => assert Enqueuers(w.workers - {id}) == Enqueuers(w.workers) - {id};
    case Restarts(now) =>
      assert AliveRuns(Recover(w.t, now).runs) == {};
      assert Enqueuers(map[]) == {};
    case _ =>
  }

  lemma {:induction false} RunWithin(c: Config, w: World, steps: seq<Step>)
    requires Inv(w) && Within(c, w) && Possibles(c, w, steps)
    ensures Within(c, Run(c, w, steps))
    decreases |steps|
  {
    if steps != [] {
      StepKeepsInv(c, w, steps[0]);
      StepWithin(c, w, steps[0]);
      RunWithin(c, Next(c, w, steps[0]), steps[1..]);
    }
  }

  /** At every moment of every run, restarts included: no more runs in flight than the configured maximum. */
  lemma {:induction false} GlobalLimit(c: Config, steps: seq<Step>)
    requires Possibles(c, EMPTY, steps)
    ensures |AliveRuns(Run(c, EMPTY, steps).t.runs)| <= Cap(c.maxConcurrent)
  {
    assert AliveRuns(map[]) == {} && Enqueuers(map[]) == {};
    RunWithin(c, EMPTY, steps);
  }

  // Per host.

  ghost function EnqueuersOn(workers: map<string, Worker>, host: string): set<string> {
    set id | id in workers && workers[id].Enqueuing? && workers[id].host == host
  }

  ghost predicate HostWithin(c: Config, w: World, host: string) {
    |AliveOn(w.t, host)| + |EnqueuersOn(w.workers, host)| <= Cap(c.maxPerHost)
  }

  ghost predicate Claimed(w: World) {
    forall id :: id in w.workers && w.workers[id].Enqueuing? && w.workers[id].host != "" ==>
      w.pass.Dispatching? && w.workers[id].host in w.pass.claimed
  }

  lemma {:induction false} AliveOnAfter(t: Tables, n: Tables, id: string, run: string, host: string)
    requires OnlyRun(t.runs, n.runs, id, run) && OnlyIncident(t.incidents, n.incidents, id)
    ensures AliveOn(n, host) ==
      if Alive(n.runs[run].state) && t.incidents[id].host == host then AliveOn(t, host) + {run} else AliveOn(t, host) - {run}
  {
  }

  /** A goroutine that works is no longer about to enqueue. */
  lemma {:induction false} WorkEnqueuers(c: Config, w: World, id: string, run: string, diagnosed: bool, backoff: int, now: int, host: string)
    requires id in w.workers
    ensures EnqueuersOn(Work(c, w, id, run, diagnosed, backoff, now).workers, host) == EnqueuersOn(w.workers, host) - {id}
  {
  }

  lemma {:induction false} WorkHost(c: Config, w: World, id: string, run: string, diagnosed: bool, backoff: int, now: int, host: string)
    requires Inv(w) && HostWithin(c, w, host) && id in w.workers
    ensures HostWithin(c, Work(c, w, id, run, diagnosed, backoff, now), host)
  {
    var n := Work(c, w, id, run, diagnosed, backoff, now);
    WorkShape(c, w, id, run, diagnosed, backoff, now);
    assert WorkerOk(w.t, id, w.workers[id]);
    WorkEnqueuers(c, w, id, run, diagnosed, backoff, now, host);
    if n.t != w.t {
      AliveOnAfter(w.t, n.t, id, if w.workers[id].Enqueuing? then run else w.workers[id].run, host);
    }
  }

  lemma {:induction false} IngestHost(t: Tables, ev: Event, id: string, now: int, host: string)
    requires TablesOk(t)
    ensures AliveOn(Ingest(t, ev, id, now), host) == AliveOn(t, host)
  {
    var n := Ingest(t, ev, id, now);
    forall r | r in t.runs && Alive(t.runs[r].state)
      ensures OnHost(n.incidents, t.runs[r].incident, host) <==> OnHost(t.incidents, t.runs[r].incident, host)
    {
      assert InFlight(t.runs, t.runs[r].incident, r);
    }
  }

  /** Taking the next incident keeps its host within the limit exactly when its count succeeded or there is room anyway. */
  lemma {:induction false} ConsiderHostExact(c: Config, w: World, countFails: bool)
    requires Inv(w) && Claimed(w) && QueueOf(w.pass) != [] && w.pass.queue[0].host != ""
    requires HostWithin(c, w, w.pass.queue[0].host)
    ensures var host := w.pass.queue[0].host;
      HostWithin(c, Consider(c, w, countFails), host)
      <==> !countFails || |AliveOn(w.t, host)| + |EnqueuersOn(w.workers, host)| < Cap(c.maxPerHost)
  {
    var l := w.pass.queue[0];
    assert EnqueuersOn(w.workers[l.id := Enqueuing(l.host, l.attempts)], l.host) == EnqueuersOn(w.workers, l.host) + {l.id};
    if l.host !in w.pass.claimed { assert EnqueuersOn(w.workers, l.host) == {}; }
  }

  lemma {:induction false} ConsiderHost(c: Config, w: World, host: string)
    requires Inv(w) && Claimed(w) && QueueOf(w.pass) != [] && host != "" && HostWithin(c, w, host)
    ensures HostWithin(c, Consider(c, w, false), host)
  {
    var l := w.pass.queue[0];
    if l.host == host {
      ConsiderHostExact(c, w, false);
    } else {
      assert EnqueuersOn(w.workers[l.id := Enqueuing(l.host, l.attempts)], host) == EnqueuersOn(w.workers, host);
    }
  }

  lemma {:induction false} StepClaimed(c: Config, w: World, s: Step)
    requires Inv(w) && Claimed(w)
    ensures Claimed(Next(c, w, s))
  {
    if s.Works? && s.id in w.workers {
      var n := Work(c, w, s.id, s.run, s.diagnosed, s.backoff, s.now);
      assert n.pass == w.pass && (forall k :: k in n.workers && k != s.id ==> k in w.workers && n.workers[k] == w.workers[k]);
    }
  }

  lemma {:induction false} StepHost(c: Config, w: World, s: Step, host: string)
    requires Inv(w) && Claimed(w) && host != "" && HostWithin(c, w, host) && s != Considers(true)
    ensures HostWithin(c, Next(c, w, s), host)
  {
    match s
    case Ingests(ev, id, now) => IngestHost(w.t, ev, id, now, host);
    case Considers(_) => if QueueOf(w.pass) != [] { ConsiderHost(c, w, host); }
    case Works(id, run, diagnosed, backoff, now) => if id in w.workers { WorkHost(c, w, id, run, diagnosed, backoff, now, host); }
    case GivesUp(id) => assert EnqueuersOn(w.workers - {id}, host) == EnqueuersOn(w.workers, host) - {id};
    case Restarts(now) =>
      assert AliveOn(Recover(w.t, now), host) == {};
      assert EnqueuersOn(map[], host) == {};
    case _ =>
  }

  lemma {:induction false} RunHost(c: Config, w: World, steps: seq<Step>, host: string)
    requires Inv(w) && Claimed(w) && host != "" && HostWithin(c, w, host) && Possibles(c, w, steps)
    requires forall i :: 0 <= i < |steps| ==> steps[i] != Considers(true)
    ensures HostWithin(c, Run(c, w, steps), host)
    decreases |steps|
  {
    if steps != [] {
      StepKeepsInv(c, w, steps[0]);
      StepClaimed(c, w, steps[0]);
      StepHost(c, w, steps[0], host);
      RunHost(c, Next(c, w, steps[0]), steps[1..], host);
    }
  }

  /** In every run whose host counts succeed, no named host ever has more runs in flight than its maximum. */
  lemma {:induction false} HostLimit(c: Config, steps: seq<Step>, host: string)
    requires host != "" && Possibles(c, EMPTY, steps)
    requires forall i :: 0 <= i < |steps| ==> steps[i] != Considers(true)
    ensures |AliveOn(Run(c, EMPTY, steps).t, host)| <= Cap(c.maxPerHost)
  {
    assert AliveOn(EMPTY.t, host) == {} && EnqueuersOn(map[], host) == {};
    RunHost(c, EMPTY, steps, host);
  }

  // A failed host count.

  /** Two different alerts on one host, and the identifiers drawn for their incidents. */
  datatype Pair = Pair(first: Identity, second: Identity, host: string, a: string, b: string)

  predicate Distinct(p: Pair) {
    p.first != p.second && p.a != p.b && p.host != ""
  }

  function OpenRow(e: Identity, host: string): Incident {
    Fresh(Event(e, host, false, ""), 0)
  }

  function BothOpen(p: Pair): Tables {
    Tables(map[p.a := OpenRow(p.first, p.host), p.b := OpenRow(p.second, p.host)], map[],
           [EventRow(p.a, 1, false), EventRow(p.b, 1, false)])
  }

  function BothListed(p: Pair): seq<Listing> {
    [Listing(p.a, p.host, 0), Listing(p.b, p.host, 0)]
  }

  lemma {:induction false} FiresBoth(c: Config, p: Pair) returns (steps: seq<Step>)
    requires Distinct(p)
    ensures Possibles(c, EMPTY, steps) && Run(c, EMPTY, steps) == World(BothOpen(p), Idle, map[], [])
  {
    var s1, s2 := Ingests(Event(p.first, p.host, false, ""), p.a, 0), Ingests(Event(p.second, p.host, false, ""), p.b, 0);
    var w1 := World(Tables(map[p.a := OpenRow(p.first, p.host)], map[], [EventRow(p.a, 1, false)]), Idle, map[], []);
    assert ActiveRow(EMPTY.t.incidents, p.first) == None;
    assert Next(c, EMPTY, s1) == w1;
    assert forall id :: !IsActiveRow(w1.t.incidents, p.second, id);
    assert Next(c, w1, s2).t.incidents == BothOpen(p).incidents;
    assert Next(c, w1, s2).t.events == BothOpen(p).events;
    OneMore(c, [], EMPTY, s1);
    OneMore(c, [] + [s1], w1, s2);
    steps := [] + [s1] + [s2];
  }

  lemma {:induction false} BothAreListed(p: Pair, limit: nat)
    requires Distinct(p) && limit >= 2
    ensures Listed(BothOpen(p), 0, limit, BothListed(p))
  {
    var t, listed := BothOpen(p), BothListed(p);
    assert forall id :: !HasAlive(t.runs, id);
    assert listed[0].id == p.a && listed[1].id == p.b;
    assert forall id :: Due(t, id, 0) ==> id == p.a || id == p.b;
  }

  lemma {:induction false} ListsBoth(c: Config, p: Pair) returns (steps: seq<Step>)
    requires Distinct(p) && c.maxConcurrent >= 2
    ensures Possibles(c, EMPTY, steps) && Run(c, EMPTY, steps) == World(BothOpen(p), Dispatching(BothListed(p), {}), map[], [])
  {
    steps := FiresBoth(c, p);
    var w := World(BothOpen(p), Idle, map[], []);
    assert AliveRuns(w.t.runs) == {};
    OneMore(c, steps, w, Counts);
    BothAreListed(p, c.maxConcurrent);
    OneMore(c, steps + [Counts], w.(pass := Counted(c.maxConcurrent)), Lists(BothListed(p), 0));
    steps := steps + [Counts] + [Lists(BothListed(p), 0)];
  }

  /** Both goroutines are started: the second although the host is claimed, because its count failed. */
  lemma {:induction false} TakesBoth(c: Config, p: Pair) returns (steps: seq<Step>)
    requires Distinct(p) && c.maxConcurrent >= 2 && c.maxPerHost == 1
    ensures Possibles(c, EMPTY, steps)
    ensures Run(c, EMPTY, steps) == World(BothOpen(p), Dispatching([], {p.host}), map[p.a := Enqueuing(p.host, 0), p.b := Enqueuing(p.host, 0)], [])
  {
    steps := ListsBoth(c, p);
    var w := World(BothOpen(p), Dispatching(BothListed(p), {}), map[], []);
    assert AliveOn(w.t, p.host) == {};
    var w1 := World(BothOpen(p), Dispatching([Listing(p.b, p.host, 0)], {p.host}), map[p.a := Enqueuing(p.host, 0)], []);
    assert BothListed(p)[1..] == [Listing(p.b, p.host, 0)] && {} + {p.host} == {p.host};
    assert map[][p.a := Enqueuing(p.host, 0)] == map[p.a := Enqueuing(p.host, 0)];
    assert Next(c, w, Considers(false)) == w1;
    var w2 := World(BothOpen(p), Dispatching([], {p.host}), map[p.a := Enqueuing(p.host, 0), p.b := Enqueuing(p.host, 0)], []);
    assert [Listing(p.b, p.host, 0)][1..] == [] && {p.host} + {p.host} == {p.host};
    assert Next(c, w1, Considers(true)).workers == w2.workers;
    assert Next(c, w1, Considers(true)) == w2;
    OneMore(c, steps, w, Considers(false));
    OneMore(c, steps + [Considers(false)], w1, Considers(true));
    steps := steps + [Considers(false)] + [Considers(true)];
  }

  lemma {:induction false} EnqueuesBoth(c: Config, w: World, p: Pair, r: string, s: string)
    requires Distinct(p) && r != s && w.t == BothOpen(p) && p.a in w.workers && p.b in w.workers
    requires w.workers[p.a] == Enqueuing(p.host, 0) && w.workers[p.b] == Enqueuing(p.host, 0)
    ensures var n := Next(c, Next(c, w, Works(p.a, r, false, 0, 0)), Works(p.b, s, false, 0, 0)); AliveOn(n.t, p.host) == {r, s}
  {
    assert CanEnqueue(w.t, p.a, r);
    var n := Next(c, w, Works(p.a, r, false, 0, 0));
    assert n.t.runs == map[r := AgentRun(p.a, RunQueued)] && n.workers[p.b] == Enqueuing(p.host, 0);
    assert forall x :: !InFlight(n.t.runs, p.b, x);
    assert CanEnqueue(n.t, p.b, s);
    var m := Next(c, n, Works(p.b, s, false, 0, 0));
    assert m.t.runs == map[r := AgentRun(p.a, RunQueued), s := AgentRun(p.b, RunQueued)];
    assert m.t.incidents[p.a].host == p.host && m.t.incidents[p.b].host == p.host;
  }

  /** In a run whose second host count returns an error, two runs are in flight on a host limited to one. */
  lemma {:induction false} CountErrorExceeds(c: Config, p: Pair, r: string, s: string) returns (steps: seq<Step>)
    requires Distinct(p) && r != s && c.maxConcurrent >= 2 && c.maxPerHost == 1
    ensures Possibles(c, EMPTY, steps) && Considers(true) in steps
    ensures |AliveOn(Run(c, EMPTY, steps).t, p.host)| == 2 > Cap(c.maxPerHost)
  {
    steps := TakesBoth(c, p);
    var w := Run(c, EMPTY, steps);
    var s1, s2 := Works(p.a, r, false, 0, 0), Works(p.b, s, false, 0, 0);
    EnqueuesBoth(c, w, p, r, s);
    OneMore(c, steps, w, s1);
    OneMore(c, steps + [s1], Next(c, w, s1), s2);
    steps := steps + [s1] + [s2];
    if Considers(true) !in steps { HostLimit(c, steps, p.host); }
  }
}
