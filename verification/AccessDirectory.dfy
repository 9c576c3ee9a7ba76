/** The cross-scope access directory of internal/accessdirectory (resolver.go, catalog.go), over one policy snapshot. */
module AccessDirectory {
  import opened Outcomes
  import opened Ordering
  import opened AccessPolicy

  // Recording policy and its cache.

  /** One answer of host_show. */
  datatype HostMeta = ShowFailed | Shown(unreadable: bool, valid: bool, mode: string, reason: string)

  datatype Recording = Recording(known: bool, valid: bool, mode: string, reason: string)

  /** `HostRecordingAccessPolicy`. */
  function RecordingOf(m: HostMeta): Recording {
    match m
    case ShowFailed => Recording(false, false, "", "host_show_failed")
    case Shown(unreadable, valid, mode, reason) =>
      if unreadable then Recording(false, false, "", "userclass_unreadable")
      else if !valid then Recording(true, false, "", reason)
      else Recording(true, true, mode, "")
  }

  /** An invalid marker seen from either side is never hidden, and a known result wins over an unknown one. */
  function MergeRecording(a: Recording, b: Recording): (r: Recording)
    ensures r == a || r == b
    ensures r.known <==> a.known || b.known
    ensures r.known && !r.valid <==> (a.known && !a.valid) || (b.known && !b.valid)
  {
    if a.known && !a.valid then a else if b.known && !b.valid then b else if a.known then a else b
  }

  type Cache = map<string, HostMeta>

  function Lookup(cache: Cache, fqdn: string, answer: HostMeta): HostMeta {
    if fqdn in cache then cache[fqdn] else answer
  }

  class HostMetadataCache {
    var entries: Cache

    constructor ()
      ensures entries == map[]
    {
      entries := map[];
    }

    /** `answer` is what the server would answer now; it counts only the first time. */
    method Get(fqdn: string, answer: HostMeta) returns (m: HostMeta)
      modifies this
      ensures m == Lookup(old(entries), fqdn, answer)
      ensures entries == old(entries)[fqdn := m]
    {
      if fqdn !in entries { entries := entries[fqdn := answer]; }
      m := entries[fqdn];
    }
  }

  // One scope.

  datatype Route = Route(scope: string, targetGroup: string, gatewayGroup: string, gateways: seq<string>)

  /** What the server answers while one scope is resolved: its target group's members, and host_show per host. */
  datatype ScopeRead = ScopeRead(route: Route, members: Result<seq<string>>, answers: string -> HostMeta)

  datatype HostAccess = HostAccess(fqdn: string, ssh: seq<RuleSource>, sudo: SudoAccess, recording: Recording)

  /** The user can reach the host through this scope. */
  predicate Granted(s: Snapshot, read: ScopeRead, fqdn: string, canon: string -> string) {
    read.members.Ok? && (exists i :: 0 <= i < |read.members.value| && canon(read.members.value[i]) == fqdn) && SshOf(s, fqdn, canon) != []
  }

  function Reachable(s: Snapshot, hosts: seq<string>, canon: string -> string): seq<string> {
    if hosts == [] then []
    else var n := |hosts| - 1; Reachable(s, hosts[..n], canon) + if SshOf(s, hosts[n], canon) != [] then [hosts[n]] else []
  }

  function Canonical(names: seq<string>, canon: string -> string): set<string> {
    set n | n in names :: canon(n)
  }

  function HostsOf(s: Snapshot, members: seq<string>, canon: string -> string): seq<string> {
    Reachable(s, SortedKeys(Canonical(members, canon)), canon)
  }

  function AccessTo(s: Snapshot, fqdn: string, m: HostMeta, canon: string -> string): HostAccess {
    HostAccess(fqdn, SshOf(s, fqdn, canon), SudoOf(s, fqdn, canon), RecordingOf(m))
  }

  function Listing(s: Snapshot, hosts: seq<string>, cache: Cache, answers: string -> HostMeta, canon: string -> string): seq<HostAccess> {
    seq(|hosts|, i requires 0 <= i < |hosts| => AccessTo(s, hosts[i], Lookup(cache, hosts[i], answers(hosts[i])), canon))
  }

  function Remember(cache: Cache, hosts: seq<string>, answers: string -> HostMeta): Cache {
    if hosts == [] then cache
    else
      var n := |hosts| - 1; var before := Remember(cache, hosts[..n], answers);
      before[hosts[n] := Lookup(before, hosts[n], answers(hosts[n]))]
  }

  // All scopes.

  datatype TargetRoute = TargetRoute(route: Route, ready: bool)

  datatype Target = Target(fqdn: string, ssh: seq<RuleSource>, sudo: SudoAccess, recording: Recording, routes: seq<TargetRoute>)

  function RouteTo(r: Route): TargetRoute {
    TargetRoute(r, r.gateways != [])
  }

  function AddHost(targets: map<string, Target>, h: HostAccess, r: TargetRoute): map<string, Target> {
    if h.fqdn in targets then
      var t := targets[h.fqdn];
      targets[h.fqdn := t.(recording := MergeRecording(t.recording, h.recording), routes := t.routes + [r])]
    else targets[h.fqdn := Target(h.fqdn, h.ssh, h.sudo, h.recording, [r])]
  }

  function AddListing(targets: map<string, Target>, hosts: seq<HostAccess>, r: TargetRoute): map<string, Target> {
    if hosts == [] then targets
    else var n := |hosts| - 1; AddHost(AddListing(targets, hosts[..n], r), hosts[n], r)
  }

  /** The merged targets and the metadata cache after these scopes. */
  function Merge(s: Snapshot, scopes: seq<ScopeRead>, canon: string -> string): (map<string, Target>, Cache) {
    if scopes == [] then (map[], map[])
    else
      var n := |scopes| - 1;
      var (targets, cache) := Merge(s, scopes[..n], canon);
      match scopes[n].members
      case Rejected => (targets, cache)
      case Ok(members) =>
        var hosts := HostsOf(s, members, canon);
        (AddListing(targets, Listing(s, hosts, cache, scopes[n].answers, canon), RouteTo(scopes[n].route)),
         Remember(cache, hosts, scopes[n].answers))
  }

  predicate ByScope(a: TargetRoute, b: TargetRoute) {
    LessEq(a.route.scope, b.route.scope)
  }

  predicate AllFailed(scopes: seq<ScopeRead>) {
    scopes != [] && forall i :: 0 <= i < |scopes| ==> scopes[i].members.Rejected?
  }

  function Finished(targets: map<string, Target>, keys: seq<string>): seq<Target>
    requires forall k :: k in keys ==> k in targets
  {
    seq(|keys|, i requires 0 <= i < |keys| => targets[keys[i]].(routes := SortBy(targets[keys[i]].routes, ByScope)))
  }

  /** `LoadDirectoryAccess` once the catalog and the snapshot are loaded. */
  function DirectoryOf(s: Snapshot, scopes: seq<ScopeRead>, canon: string -> string): Result<seq<Target>> {
    if AllFailed(scopes) then Rejected
    else var targets := Merge(s, scopes, canon).0; Ok(Finished(targets, SortedKeys(targets.Keys)))
  }

  // What the merge holds for one host.

  function RoutesOf(s: Snapshot, scopes: seq<ScopeRead>, fqdn: string, canon: string -> string): seq<TargetRoute> {
    if scopes == [] then []
    else
      var n := |scopes| - 1;
      RoutesOf(s, scopes[..n], fqdn, canon) + if Granted(s, scopes[n], fqdn, canon) then [RouteTo(scopes[n].route)] else []
  }

  lemma {:induction false} ReachableExact(s: Snapshot, hosts: seq<string>, canon: string -> string)
    requires NoDuplicates(hosts)
    ensures NoDuplicates(Reachable(s, hosts, canon))
    ensures forall f :: f in Reachable(s, hosts, canon) <==> f in hosts && SshOf(s, f, canon) != []
  {
    if hosts != [] {
      var rest := hosts[..|hosts| - 1];
      assert hosts == rest + [hosts[|rest|]];
      ReachableExact(s, rest, canon);
      assert hosts[|rest|] !in rest;
    }
  }

  lemma {:induction false} HostsExact(s: Snapshot, read: ScopeRead, canon: string -> string)
    requires read.members.Ok?
    ensures NoDuplicates(HostsOf(s, read.members.value, canon))
    ensures forall f :: f in HostsOf(s, read.members.value, canon) <==> Granted(s, read, f, canon)
  {
    var members := read.members.value;
    var names := Canonical(members, canon);
    ReachableExact(s, SortedKeys(names), canon);
    forall f ensures f in names <==> exists i :: 0 <= i < |members| && canon(members[i]) == f {
      if f in names { var m :| m in members && canon(m) == f; var i :| 0 <= i < |members| && members[i] == m; }
      if i :| 0 <= i < |members| && canon(members[i]) == f { assert members[i] in members; }
    }
  }

  lemma {:induction false} Remembered(cache: Cache, hosts: seq<string>, answers: string -> HostMeta)
    ensures forall f :: f in Remember(cache, hosts, answers) <==> f in cache || f in hosts
    ensures forall f :: f in cache || f in hosts ==> Remember(cache, hosts, answers)[f] == Lookup(cache, f, answers(f))
  {
    if hosts != [] {
      var rest := hosts[..|hosts| - 1];
      assert hosts == rest + [hosts[|rest|]];
      Remembered(cache, rest, answers);
    }
  }

  /** The target a listing leaves for a host it lists. */
  function Placed(targets: map<string, Target>, h: HostAccess, r: TargetRoute): Target {
    AddHost(targets, h, r)[h.fqdn]
  }

  lemma {:induction false} AddListingAt(targets: map<string, Target>, hosts: seq<HostAccess>, r: TargetRoute, fqdn: string)
    requires forall i, j :: 0 <= i < j < |hosts| ==> hosts[i].fqdn != hosts[j].fqdn
    ensures fqdn in AddListing(targets, hosts, r) <==> fqdn in targets || exists i :: 0 <= i < |hosts| && hosts[i].fqdn == fqdn
    ensures forall i :: 0 <= i < |hosts| && hosts[i].fqdn == fqdn ==> AddListing(targets, hosts, r)[fqdn] == Placed(targets, hosts[i], r)
    ensures fqdn in targets && (forall i :: 0 <= i < |hosts| ==> hosts[i].fqdn != fqdn) ==> AddListing(targets, hosts, r)[fqdn] == targets[fqdn]
  {
    if hosts != [] {
      var n := |hosts| - 1;
      var rest := hosts[..n];
      assert forall i :: 0 <= i < n ==> rest[i] == hosts[i];
      AddListingAt(targets, rest, r, fqdn);
    }
  }

  /** What host_show answered the first time a scope granted the host. */
  function FirstAnswer(s: Snapshot, scopes: seq<ScopeRead>, fqdn: string, canon: string -> string): Option<HostMeta> {
    if scopes == [] then None
    else
      var n := |scopes| - 1; var before := FirstAnswer(s, scopes[..n], fqdn, canon);
      if before.Some? then before else if Granted(s, scopes[n], fqdn, canon) then Some(scopes[n].answers(fqdn)) else None
  }

  function Declared(s: Snapshot, fqdn: string, first: HostMeta, routes: seq<TargetRoute>, canon: string -> string): Target {
    Target(fqdn, SshOf(s, fqdn, canon), SudoOf(s, fqdn, canon), RecordingOf(first), routes)
  }

  /** What is stored for a host with these routes and this first answer. */
  predicate Stored(s: Snapshot, fqdn: string, target: Option<Target>, meta: Option<HostMeta>, first: Option<HostMeta>, routes: seq<TargetRoute>, canon: string -> string) {
    && meta == first && (first.Some? <==> routes != [])
    && target == if first.Some? then Some(Declared(s, fqdn, first.value, routes, canon)) else None
  }

  ghost predicate HoldsFor(s: Snapshot, scopes: seq<ScopeRead>, targets: map<string, Target>, cache: Cache, fqdn: string, canon: string -> string) {
    Stored(s, fqdn, Find(targets, fqdn), Find(cache, fqdn), FirstAnswer(s, scopes, fqdn, canon), RoutesOf(s, scopes, fqdn, canon), canon)
  }

  /** A scope's listing holds the hosts it grants, once each, with the access of the snapshot. */
  lemma {:induction false} ListingExact(s: Snapshot, read: ScopeRead, cache: Cache, fqdn: string, canon: string -> string)
    requires read.members.Ok?
    ensures var listing := Listing(s, HostsOf(s, read.members.value, canon), cache, read.answers, canon);
      && (forall i, j :: 0 <= i < j < |listing| ==> listing[i].fqdn != listing[j].fqdn)
      && (Granted(s, read, fqdn, canon) <==> exists i :: 0 <= i < |listing| && listing[i].fqdn == fqdn)
      && (forall i :: 0 <= i < |listing| && listing[i].fqdn == fqdn ==>
            listing[i] == AccessTo(s, fqdn, Lookup(cache, fqdn, read.answers(fqdn)), canon))
  {
    var hosts := HostsOf(s, read.members.value, canon);
    var listing := Listing(s, hosts, cache, read.answers, canon);
    HostsExact(s, read, canon);
    assert forall i :: 0 <= i < |hosts| ==> listing[i].fqdn == hosts[i];
    if Granted(s, read, fqdn, canon) {
      var i :| 0 <= i < |hosts| && hosts[i] == fqdn;
      assert listing[i].fqdn == fqdn;
    }
    if i :| 0 <= i < |listing| && listing[i].fqdn == fqdn { assert hosts[i] in hosts; }
  }

  /** The entry of one host after a scope that can be read. */
  lemma {:induction false} AfterScope(s: Snapshot, read: ScopeRead, targets: map<string, Target>, cache: Cache, fqdn: string, canon: string -> string)
    requires read.members.Ok?
    ensures var hosts := HostsOf(s, read.members.value, canon);
      var h := AccessTo(s, fqdn, Lookup(cache, fqdn, read.answers(fqdn)), canon);
      && Find(AddListing(targets, Listing(s, hosts, cache, read.answers, canon), RouteTo(read.route)), fqdn)
           == (if Granted(s, read, fqdn, canon) then Some(Placed(targets, h, RouteTo(read.route))) else Find(targets, fqdn))
      && Find(Remember(cache, hosts, read.answers), fqdn)
           == (if Granted(s, read, fqdn, canon) then Some(Lookup(cache, fqdn, read.answers(fqdn))) else Find(cache, fqdn))
  {
    var hosts := HostsOf(s, read.members.value, canon);
    ListingExact(s, read, cache, fqdn, canon);
    AddListingAt(targets, Listing(s, hosts, cache, read.answers, canon), RouteTo(read.route), fqdn);
    HostsExact(s, read, canon);
    Remembered(cache, hosts, read.answers);
  }

  /** Meeting the host again adds a route and changes nothing else. */
  lemma {:induction false} MetAgain(s: Snapshot, fqdn: string, targets: map<string, Target>, cache: Cache, first: Option<HostMeta>,
                                    routes: seq<TargetRoute>, answer: HostMeta, r: TargetRoute, canon: string -> string)
    requires Stored(s, fqdn, Find(targets, fqdn), Find(cache, fqdn), first, routes, canon)
    ensures var meta := Lookup(cache, fqdn, answer);
      Stored(s, fqdn, Some(Placed(targets, AccessTo(s, fqdn, meta, canon), r)), Some(meta),
             if first.Some? then first else Some(answer), routes + [r], canon)
  {
    var meta := Lookup(cache, fqdn, answer);
    assert MergeRecording(RecordingOf(meta), RecordingOf(meta)) == RecordingOf(meta);
    assert first.None? ==> routes + [r] == [r];
  }

  lemma {:induction false} RoutesLast(s: Snapshot, scopes: seq<ScopeRead>, fqdn: string, canon: string -> string)
    requires scopes != []
    ensures var n := |scopes| - 1; var rest := RoutesOf(s, scopes[..n], fqdn, canon);
      RoutesOf(s, scopes, fqdn, canon) == if Granted(s, scopes[n], fqdn, canon) then rest + [RouteTo(scopes[n].route)] else rest
  {
    assert RoutesOf(s, scopes[..|scopes| - 1], fqdn, canon) + [] == RoutesOf(s, scopes[..|scopes| - 1], fqdn, canon);
  }

  lemma {:induction false} ScopeHolds(s: Snapshot, rest: seq<ScopeRead>, read: ScopeRead, targets: map<string, Target>, cache: Cache, fqdn: string, canon: string -> string)
    requires read.members.Ok? && HoldsFor(s, rest, targets, cache, fqdn, canon)
    ensures var hosts := HostsOf(s, read.members.value, canon);
      var granted := Granted(s, read, fqdn, canon);
      var routes, first := RoutesOf(s, rest, fqdn, canon), FirstAnswer(s, rest, fqdn, canon);
      Stored(s, fqdn, Find(AddListing(targets, Listing(s, hosts, cache, read.answers, canon), RouteTo(read.route)), fqdn),
             Find(Remember(cache, hosts, read.answers), fqdn),
             if first.Some? || !granted then first else Some(read.answers(fqdn)),
             if granted then routes + [RouteTo(read.route)] else routes, canon)
  {
    AfterScope(s, read, targets, cache, fqdn, canon);
    MetAgain(s, fqdn, targets, cache, FirstAnswer(s, rest, fqdn, canon), RoutesOf(s, rest, fqdn, canon),
             read.answers(fqdn), RouteTo(read.route), canon);
  }

  /** Merging keeps, for every host, the access of the snapshot, the first host_show answer and one route per granting scope. */
  lemma {:induction false} MergeHolds(s: Snapshot, scopes: seq<ScopeRead>, fqdn: string, canon: string -> string)
    ensures HoldsFor(s, scopes, Merge(s, scopes, canon).0, Merge(s, scopes, canon).1, fqdn, canon)
  {
    if scopes != [] {
      var n := |scopes| - 1;
      var (targets, cache) := Merge(s, scopes[..n], canon);
      MergeHolds(s, scopes[..n], fqdn, canon);
      RoutesLast(s, scopes, fqdn, canon);
      if scopes[n].members.Ok? { ScopeHolds(s, scopes[..n], scopes[n], targets, cache, fqdn, canon); }
    }
  }

  lemma {:induction false} RoutesExact(s: Snapshot, scopes: seq<ScopeRead>, fqdn: string, canon: string -> string, t: TargetRoute)
    ensures t in RoutesOf(s, scopes, fqdn, canon) <==> exists i :: 0 <= i < |scopes| && Granted(s, scopes[i], fqdn, canon) && RouteTo(scopes[i].route) == t
  {
    if scopes != [] {
      var rest := scopes[..|scopes| - 1];
      assert forall i :: 0 <= i < |rest| ==> rest[i] == scopes[i];
      RoutesExact(s, rest, fqdn, canon, t);
    }
  }

  /** The scopes come in strictly increasing order, as the catalog lists them. */
  ghost predicate InOrder(scopes: seq<ScopeRead>) {
    forall i, j :: 0 <= i < j < |scopes| ==> LessEq(scopes[i].route.scope, scopes[j].route.scope) && scopes[i].route.scope != scopes[j].route.scope
  }

  ghost predicate RoutesInOrder(routes: seq<TargetRoute>) {
    forall i, j :: 0 <= i < j < |routes| ==> ByScope(routes[i], routes[j]) && routes[i].route.scope != routes[j].route.scope
  }

  lemma {:induction false} RoutesSorted(s: Snapshot, scopes: seq<ScopeRead>, fqdn: string, canon: string -> string)
    requires InOrder(scopes)
    ensures RoutesInOrder(RoutesOf(s, scopes, fqdn, canon))
  {
    if scopes != [] {
      var n := |scopes| - 1;
      var rest := scopes[..n];
      assert forall i :: 0 <= i < n ==> rest[i] == scopes[i];
      RoutesSorted(s, rest, fqdn, canon);
      var routes := RoutesOf(s, rest, fqdn, canon);
      forall i | 0 <= i < |routes| ensures ByScope(routes[i], RouteTo(scopes[n].route)) && routes[i].route.scope != scopes[n].route.scope {
        RoutesExact(s, rest, fqdn, canon, routes[i]);
      }
    }
  }

  lemma {:induction false} SortStays(routes: seq<TargetRoute>)
    requires RoutesInOrder(routes)
    ensures SortBy(routes, ByScope) == routes
  {
    if routes != [] {
      assert forall i :: 0 <= i < |routes| - 1 ==> routes[1..][i] == routes[i + 1];
      SortStays(routes[1..]);
      assert routes == [routes[0]] + routes[1..];
    }
  }

  ghost predicate GrantedSomewhere(s: Snapshot, scopes: seq<ScopeRead>, fqdn: string, canon: string -> string) {
    exists i :: 0 <= i < |scopes| && Granted(s, scopes[i], fqdn, canon)
  }

  ghost predicate Lists(targets: seq<Target>, fqdn: string) {
    exists i :: 0 <= i < |targets| && targets[i].fqdn == fqdn
  }

  // What each scope lists for a host is what the merged target says.

  /** What `ResolveScopeAccess` lists for one scope, after the scopes before it filled the cache. */
  function ListedBy(s: Snapshot, scopes: seq<ScopeRead>, i: nat, canon: string -> string): seq<HostAccess>
    requires i < |scopes|
  {
    match scopes[i].members
    case Rejected => []
    case Ok(members) => Listing(s, HostsOf(s, members, canon), Merge(s, scopes[..i], canon).1, scopes[i].answers, canon)
  }

  /** The scope lists the host exactly when it grants it, and with the facts of the target. */
  ghost predicate Agrees(s: Snapshot, scopes: seq<ScopeRead>, i: nat, t: Target, canon: string -> string)
    requires i < |scopes|
  {
    var listing := ListedBy(s, scopes, i, canon);
    && (Granted(s, scopes[i], t.fqdn, canon) <==> exists k :: 0 <= k < |listing| && listing[k].fqdn == t.fqdn)
    && (forall k :: 0 <= k < |listing| && listing[k].fqdn == t.fqdn ==> listing[k] == HostAccess(t.fqdn, t.ssh, t.sudo, t.recording))
  }

  lemma {:induction false} FirstStays(s: Snapshot, scopes: seq<ScopeRead>, i: nat, fqdn: string, canon: string -> string)
    requires i <= |scopes| && FirstAnswer(s, scopes[..i], fqdn, canon).Some?
    ensures FirstAnswer(s, scopes, fqdn, canon) == FirstAnswer(s, scopes[..i], fqdn, canon)
  {
    if i == |scopes| {
      assert scopes[..i] == scopes;
    } else {
      var rest := scopes[..|scopes| - 1];
      assert rest[..i] == scopes[..i];
      FirstStays(s, rest, i, fqdn, canon);
    }
  }

  /** Every scope that grants a host is answered as the first one was. */
  lemma {:induction false} SameAnswer(s: Snapshot, scopes: seq<ScopeRead>, i: nat, fqdn: string, canon: string -> string)
    requires i < |scopes| && Granted(s, scopes[i], fqdn, canon)
    ensures FirstAnswer(s, scopes, fqdn, canon) == Some(Lookup(Merge(s, scopes[..i], canon).1, fqdn, scopes[i].answers(fqdn)))
  {
    MergeHolds(s, scopes[..i], fqdn, canon);
    assert scopes[..i + 1][..i] == scopes[..i];
    FirstStays(s, scopes, i + 1, fqdn, canon);
  }

  lemma {:induction false} ScopeAgrees(s: Snapshot, scopes: seq<ScopeRead>, i: nat, t: Target, canon: string -> string)
    requires i < |scopes| && AsDeclared(s, scopes, t, canon)
    ensures Agrees(s, scopes, i, t, canon)
  {
    if scopes[i].members.Ok? {
      ListingExact(s, scopes[i], Merge(s, scopes[..i], canon).1, t.fqdn, canon);
      if Granted(s, scopes[i], t.fqdn, canon) { SameAnswer(s, scopes, i, t.fqdn, canon); }
    }
  }

  /** What a host_show answer says about recording: unknown when the call failed or the marker could not be read, invalid with
      the reason, or the mode. */
  predicate Records(m: HostMeta, r: Recording) {
    && (r.known <==> m.Shown? && !m.unreadable)
    && (m.ShowFailed? ==> r.reason == "host_show_failed")
    && (m.Shown? && m.unreadable ==> r.reason == "userclass_unreadable")
    && (r.valid <==> r.known && m.valid)
    && (r.known && !r.valid ==> r.reason == m.reason)
    && (if r.valid then r.mode == m.mode && r.reason == "" else r.mode == "")
  }

  /** One route for each of these scopes that grants the host, in their order; it is ready exactly when it has a gateway. */
  ghost predicate OneRouteEach(s: Snapshot, scopes: seq<ScopeRead>, fqdn: string, routes: seq<TargetRoute>, canon: string -> string) {
    exists granting :: Picks(granting, scopes, read => Granted(s, read, fqdn, canon)) && RoutesLead(routes, granting)
  }

  predicate RoutesLead(routes: seq<TargetRoute>, granting: seq<ScopeRead>) {
    |routes| == |granting| && forall k :: 0 <= k < |routes| ==> routes[k].route == granting[k].route && (routes[k].ready <==> granting[k].route.gateways != [])
  }

  lemma {:induction false} RoutesLeadNext(routes: seq<TargetRoute>, granting: seq<ScopeRead>, last: ScopeRead)
    requires RoutesLead(routes, granting)
    ensures RoutesLead(routes + [RouteTo(last.route)], granting + [last])
  {
  }

  lemma {:induction false} RoutesEach(s: Snapshot, scopes: seq<ScopeRead>, fqdn: string, keep: ScopeRead -> bool, canon: string -> string)
    returns (granting: seq<ScopeRead>)
    requires forall read :: keep(read) <==> Granted(s, read, fqdn, canon)
    ensures Picks(granting, scopes, keep) && RoutesLead(RoutesOf(s, scopes, fqdn, canon), granting)
  {
    if scopes == [] {
      granting := [];
      PicksNothing(keep);
    } else {
      var rest, last := scopes[..|scopes| - 1], scopes[|scopes| - 1];
      assert scopes == rest + [last];
      var before := RoutesEach(s, rest, fqdn, keep, canon);
      granting := if keep(last) then before + [last] else before;
      assert Picks(granting, scopes, keep) by { PicksNext(before, rest, keep, last); }
      RoutesLast(s, scopes, fqdn, canon);
      RoutesLeadNext(RoutesOf(s, rest, fqdn, canon), before, last);
    }
  }

  /** The target carries the access of the snapshot, the first answer for its host, and one route per scope that grants it. */
  ghost predicate AsDeclared(s: Snapshot, scopes: seq<ScopeRead>, t: Target, canon: string -> string) {
    var first := FirstAnswer(s, scopes, t.fqdn, canon);
    && first.Some? && t == Declared(s, t.fqdn, first.value, RoutesOf(s, scopes, t.fqdn, canon), canon)
    && Records(first.value, t.recording) && OneRouteEach(s, scopes, t.fqdn, t.routes, canon)
  }

  lemma {:induction false} FinishedHolds(s: Snapshot, scopes: seq<ScopeRead>, fqdn: string, canon: string -> string)
    requires InOrder(scopes) && fqdn in Merge(s, scopes, canon).0
    ensures var t := Merge(s, scopes, canon).0[fqdn]; t.fqdn == fqdn && SortBy(t.routes, ByScope) == t.routes && AsDeclared(s, scopes, t, canon)
  {
    MergeHolds(s, scopes, fqdn, canon);
    RoutesSorted(s, scopes, fqdn, canon);
    var granting := RoutesEach(s, scopes, fqdn, read => Granted(s, read, fqdn, canon), canon);
    SortStays(RoutesOf(s, scopes, fqdn, canon));
  }

  /** In whatever order the scopes come, the routes of a target are those of the scopes that grant it, sorted by scope. */
  lemma {:induction false} RoutesByScope(s: Snapshot, scopes: seq<ScopeRead>, canon: string -> string, i: nat)
    requires DirectoryOf(s, scopes, canon).Ok? && i < |DirectoryOf(s, scopes, canon).value|
    ensures var t := DirectoryOf(s, scopes, canon).value[i];
      SortedBy(t.routes, ByScope) && multiset(t.routes) == multiset(RoutesOf(s, scopes, t.fqdn, canon))
  {
    var merged := Merge(s, scopes, canon).0;
    var fqdn := SortedKeys(merged.Keys)[i];
    assert fqdn in SortedKeys(merged.Keys);
    MergeHolds(s, scopes, fqdn, canon);
    ByScopeRanks();
    SortByCorrect(merged[fqdn].routes, ByScope);
  }

  lemma {:induction false} ByScopeRanks()
    ensures Ranks(ByScope)
  {
    LessEqIsTotalOrder();
  }

  /** The directory, declared: refused exactly when there are scopes and none can be read; otherwise one target per host that
      some scope grants, ordered by name, each with one route per granting scope and the facts every granting scope lists. */
  lemma {:induction false} DirectoryExact(s: Snapshot, scopes: seq<ScopeRead>, canon: string -> string)
    requires InOrder(scopes)
    ensures DirectoryOf(s, scopes, canon).Rejected? <==> scopes != [] && forall i :: 0 <= i < |scopes| ==> scopes[i].members.Rejected?
    ensures DirectoryOf(s, scopes, canon).Ok? ==> var targets := DirectoryOf(s, scopes, canon).value;
      && (forall i, j :: 0 <= i < j < |targets| ==> LessEq(targets[i].fqdn, targets[j].fqdn) && targets[i].fqdn != targets[j].fqdn)
      && (forall fqdn: string :: Lists(targets, fqdn) <==> GrantedSomewhere(s, scopes, fqdn, canon))
      && (forall i :: 0 <= i < |targets| ==> AsDeclared(s, scopes, targets[i], canon))
      && (forall i, k :: 0 <= i < |targets| && 0 <= k < |scopes| ==> Agrees(s, scopes, k, targets[i], canon))
  {
    if !AllFailed(scopes) {
      var merged := Merge(s, scopes, canon).0;
      var keys := SortedKeys(merged.Keys);
      var targets := Finished(merged, keys);
      forall i | 0 <= i < |keys| ensures targets[i] == merged[keys[i]] && targets[i].fqdn == keys[i] && AsDeclared(s, scopes, targets[i], canon) {
        assert keys[i] in keys;
        FinishedHolds(s, scopes, keys[i], canon);
      }
      forall i, k | 0 <= i < |targets| && 0 <= k < |scopes| ensures Agrees(s, scopes, k, targets[i], canon) {
        ScopeAgrees(s, scopes, k, targets[i], canon);
      }
      forall fqdn: string ensures Lists(targets, fqdn) <==> GrantedSomewhere(s, scopes, fqdn, canon) {
        TargetPresent(s, scopes, fqdn, canon);
        if fqdn in keys { var i :| 0 <= i < |keys| && keys[i] == fqdn; assert targets[i].fqdn == fqdn; }
        if i :| 0 <= i < |targets| && targets[i].fqdn == fqdn { assert keys[i] in keys; }
      }
    }
  }

  lemma {:induction false} TargetPresent(s: Snapshot, scopes: seq<ScopeRead>, fqdn: string, canon: string -> string)
    ensures fqdn in Merge(s, scopes, canon).0 <==> GrantedSomewhere(s, scopes, fqdn, canon)
  {
    MergeHolds(s, scopes, fqdn, canon);
    var routes := RoutesOf(s, scopes, fqdn, canon);
    if routes != [] { RoutesExact(s, scopes, fqdn, canon, routes[0]); }
    if i :| 0 <= i < |scopes| && Granted(s, scopes[i], fqdn, canon) {
      RoutesExact(s, scopes, fqdn, canon, RouteTo(scopes[i].route));
      assert RouteTo(scopes[i].route) in routes;
    }
  }
}
