/** The loops that build the access directory, and the scope catalog they run over. */
module DirectoryLoader {
  import opened Outcomes
  import opened Ordering
  import opened AccessPolicy
  import opened AccessDirectory
  import Meaning = AccessMeaning

  lemma {:induction false} ReachableNext(s: Snapshot, names: seq<string>, i: nat, canon: string -> string)
    requires i < |names|
    ensures Reachable(s, names[..i + 1], canon)
         == Reachable(s, names[..i], canon) + if SshOf(s, names[i], canon) != [] then [names[i]] else []
  {
    assert names[..i + 1][..i] == names[..i];
  }

  method ReachableHosts(s: Snapshot, members: seq<string>, canon: string -> string) returns (hosts: seq<string>)
    ensures hosts == HostsOf(s, members, canon)
  {
    var names := SortedKeys(Canonical(members, canon));
    hosts := [];
    for i := 0 to |names|
      invariant hosts == Reachable(s, names[..i], canon)
    {
      ReachableNext(s, names, i, canon);
      var ssh := ResolveSshAccess(s, names[i], canon);
      if ssh != [] { hosts := hosts + [names[i]]; }
    }
    assert names[..|names|] == names;
  }

  method DescribeHost(s: Snapshot, fqdn: string, meta: HostMeta, canon: string -> string) returns (h: HostAccess)
    ensures h == AccessTo(s, fqdn, meta, canon)
  {
    var ssh := ResolveSshAccess(s, fqdn, canon);
    var sudo := ResolveSudoAccess(s, fqdn, canon);
    h := HostAccess(fqdn, ssh, sudo, RecordingOf(meta));
  }

  lemma {:induction false} ListingGrows(s: Snapshot, hosts: seq<string>, i: nat, cache: Cache, answers: string -> HostMeta, canon: string -> string)
    requires i < |hosts|
    ensures Listing(s, hosts[..i + 1], cache, answers, canon)
         == Listing(s, hosts[..i], cache, answers, canon) + [AccessTo(s, hosts[i], Lookup(cache, hosts[i], answers(hosts[i])), canon)]
    ensures var before := Remember(cache, hosts[..i], answers);
      && Lookup(before, hosts[i], answers(hosts[i])) == Lookup(cache, hosts[i], answers(hosts[i]))
      && Remember(cache, hosts[..i + 1], answers) == before[hosts[i] := Lookup(cache, hosts[i], answers(hosts[i]))]
  {
    assert hosts[..i + 1][..i] == hosts[..i];
    Remembered(cache, hosts[..i], answers);
  }

  /** `ResolveScopeAccess`: the reachable hosts in order, with one cached host_show for each. */
  method ResolveScopeAccess(s: Snapshot, members: seq<string>, answers: string -> HostMeta, cache: HostMetadataCache, canon: string -> string)
    returns (listing: seq<HostAccess>)
    modifies cache
    ensures var hosts := HostsOf(s, members, canon);
      listing == Listing(s, hosts, old(cache.entries), answers, canon) && cache.entries == Remember(old(cache.entries), hosts, answers)
  {
    var hosts := ReachableHosts(s, members, canon);
    listing := [];
    for i := 0 to |hosts|
      invariant cache.entries == Remember(old(cache.entries), hosts[..i], answers)
      invariant listing == Listing(s, hosts[..i], old(cache.entries), answers, canon)
    {
      ListingGrows(s, hosts, i, old(cache.entries), answers, canon);
      var meta := cache.Get(hosts[i], answers(hosts[i]));
      var h := DescribeHost(s, hosts[i], meta, canon);
      listing := listing + [h];
    }
    assert hosts[..|hosts|] == hosts;
  }

  method AddHosts(targets: map<string, Target>, order: seq<string>, hosts: seq<HostAccess>, r: TargetRoute)
    returns (merged: map<string, Target>, seen: seq<string>)
    requires Covers(order, targets.Keys)
    ensures merged == AddListing(targets, hosts, r) && Covers(seen, merged.Keys)
  {
    merged, seen := targets, order;
    for i := 0 to |hosts|
      invariant merged == AddListing(targets, hosts[..i], r) && Covers(seen, merged.Keys)
    {
      assert hosts[..i + 1][..i] == hosts[..i];
      if hosts[i].fqdn !in merged { seen := seen + [hosts[i].fqdn]; }
      merged := AddHost(merged, hosts[i], r);
    }
    assert hosts[..|hosts|] == hosts;
  }

  /** The list holds every key once. */
  ghost predicate Covers(order: seq<string>, keys: set<string>) {
    NoDuplicates(order) && forall k :: k in order <==> k in keys
  }

  lemma {:induction false} SortOfKeys(order: seq<string>, keys: set<string>)
    requires Covers(order, keys)
    ensures Sort(order) == SortedKeys(keys)
  {
    var sorted := SortedKeys(keys);
    NoDuplicatesByCount(order);
    NoDuplicatesByCount(sorted);
    forall k ensures multiset(order)[k] == multiset(sorted)[k] {
      assert k in multiset(order) <==> k in order;
      assert k in multiset(sorted) <==> k in sorted;
    }
    assert multiset(order) == multiset(sorted);
    LessEqIsTotalOrder();
    SortByCorrect(order, LessEq);
    OneAscendingOrder(Sort(order), sorted, LessEq);
  }

  method LoadDirectoryAccess(s: Snapshot, scopes: seq<ScopeRead>, canon: string -> string) returns (r: Result<seq<Target>>)
    ensures r == DirectoryOf(s, scopes, canon)
  {
    var cache := new HostMetadataCache();
    var targets: map<string, Target> := map[];
    var order: seq<string> := [];
    var resolved := 0;
    for i := 0 to |scopes|
      invariant fresh(cache)
      invariant Merge(s, scopes[..i], canon) == (targets, cache.entries) && Covers(order, targets.Keys)
      invariant 0 <= resolved <= i
      invariant resolved == 0 <==> forall j :: 0 <= j < i ==> scopes[j].members.Rejected?
    {
      assert scopes[..i + 1][..i] == scopes[..i];
      match scopes[i].members
      case Rejected =>
      case Ok(members) =>
        var listing := ResolveScopeAccess(s, members, scopes[i].answers, cache, canon);
        targets, order := AddHosts(targets, order, listing, RouteTo(scopes[i].route));
        resolved := resolved + 1;
    }
    assert scopes[..|scopes|] == scopes;
    if |scopes| > 0 && resolved == 0 { return Rejected; }
    SortOfKeys(order, targets.Keys);
    r := Ok(Finished(targets, Sort(order)));
  }

  // The catalog.

  /** The scopes named by the groups that carry the prefix. */
  function ScopesNamed(groups: seq<string>, prefix: string): seq<string> {
    if groups == [] then []
    else var n := |groups| - 1; ScopesNamed(groups[..n], prefix) + if prefix <= groups[n] then [groups[n][|prefix|..]] else []
  }

  function GatewaysOf(group: string, found: seq<string>, shown: map<string, seq<string>>, canon: string -> string): seq<string> {
    if group in found && group in shown then SortedKeys(Canonical(shown[group], canon)) else []
  }

  function RouteFor(scope: string, gateways: seq<string>, shown: map<string, seq<string>>, targetPrefix: string, gatewayPrefix: string, canon: string -> string): Route {
    Route(scope, targetPrefix + scope, gatewayPrefix + scope, GatewaysOf(gatewayPrefix + scope, gateways, shown, canon))
  }

  /** `LoadScopeCatalog` from the names hostgroup_find returned and the groups that can be shown. */
  function LoadScopeCatalog(groups: seq<string>, gateways: seq<string>, shown: map<string, seq<string>>, targetPrefix: string, gatewayPrefix: string, canon: string -> string): seq<Route> {
    var scopes := Sort(ScopesNamed(groups, targetPrefix));
    seq(|scopes|, i requires 0 <= i < |scopes| => RouteFor(scopes[i], gateways, shown, targetPrefix, gatewayPrefix, canon))
  }

  lemma {:induction false} ScopesNamedExact(groups: seq<string>, prefix: string)
    requires NoDuplicates(groups)
    ensures NoDuplicates(ScopesNamed(groups, prefix))
    ensures forall scope :: scope in ScopesNamed(groups, prefix) <==> prefix + scope in groups
  {
    if groups != [] {
      var rest, last := groups[..|groups| - 1], groups[|groups| - 1];
      assert groups == rest + [last];
      assert last !in rest;
      ScopesNamedExact(rest, prefix);
      if prefix <= last { assert prefix + last[|prefix|..] == last; }
      forall scope ensures prefix + scope == last <==> prefix <= last && last[|prefix|..] == scope {
        if prefix + scope == last { assert last[..|prefix|] == prefix && last[|prefix|..] == scope; }
      }
    }
  }

  /** The route is named after its scope, and leads through the canonical names, in order and once, of the members of its gateway
      group when that group was found and can be shown, and through nothing otherwise. */
  ghost predicate RouteIs(r: Route, found: seq<string>, shown: map<string, seq<string>>, targetPrefix: string, gatewayPrefix: string, canon: string -> string) {
    && r.targetGroup == targetPrefix + r.scope && r.gatewayGroup == gatewayPrefix + r.scope
    && SortedBy(r.gateways, LessEq) && NoDuplicates(r.gateways)
    && forall g :: g in r.gateways <==> r.gatewayGroup in found && r.gatewayGroup in shown && exists m :: m in shown[r.gatewayGroup] && canon(m) == g
  }

  lemma {:induction false} RouteForIs(scope: string, found: seq<string>, shown: map<string, seq<string>>, targetPrefix: string, gatewayPrefix: string, canon: string -> string)
    ensures RouteIs(RouteFor(scope, found, shown, targetPrefix, gatewayPrefix, canon), found, shown, targetPrefix, gatewayPrefix, canon)
  {
  }

  /** One route per published target group, in strictly increasing scope order, whatever order the groups came in;
      a missing or unreadable gateway group only leaves its own route without gateways. */
  lemma {:induction false} CatalogExact(groups: seq<string>, gateways: seq<string>, shown: map<string, seq<string>>, targetPrefix: string, gatewayPrefix: string, canon: string -> string)
    requires NoDuplicates(groups)
    ensures var routes := LoadScopeCatalog(groups, gateways, shown, targetPrefix, gatewayPrefix, canon);
      && (forall i, j :: 0 <= i < j < |routes| ==> LessEq(routes[i].scope, routes[j].scope) && routes[i].scope != routes[j].scope)
      && (forall i :: 0 <= i < |routes| ==> RouteIs(routes[i], gateways, shown, targetPrefix, gatewayPrefix, canon))
      && (forall i :: 0 <= i < |routes| ==> routes[i].targetGroup in groups)
      && (forall g :: g in groups && targetPrefix <= g ==> exists i :: 0 <= i < |routes| && routes[i].targetGroup == g)
  {
    var named := ScopesNamed(groups, targetPrefix);
    var scopes := Sort(named);
    var routes := LoadScopeCatalog(groups, gateways, shown, targetPrefix, gatewayPrefix, canon);
    ScopesNamedExact(groups, targetPrefix);
    SortKeepsMembers(named);
    NoDuplicatesOfPermutation(named, scopes);
    forall i | 0 <= i < |routes| ensures routes[i].targetGroup in groups { assert scopes[i] in scopes; }
    forall i | 0 <= i < |routes| ensures RouteIs(routes[i], gateways, shown, targetPrefix, gatewayPrefix, canon) {
      RouteForIs(scopes[i], gateways, shown, targetPrefix, gatewayPrefix, canon);
    }
    forall g | g in groups && targetPrefix <= g ensures exists i :: 0 <= i < |routes| && routes[i].targetGroup == g {
      PrefixRest(targetPrefix, g);
      var scope := g[|targetPrefix|..];
      assert scope in scopes;
      var i :| 0 <= i < |scopes| && scopes[i] == scope;
      assert routes[i].targetGroup == g;
    }
  }

  lemma {:induction false} PrefixRest(prefix: string, s: string)
    requires prefix <= s
    ensures prefix + s[|prefix|..] == s
  {
  }

  /** The directory of a catalog lists its scopes in order, so everything declared of it holds. */
  lemma {:induction false} CatalogInOrder(groups: seq<string>, gateways: seq<string>, shown: map<string, seq<string>>, targetPrefix: string, gatewayPrefix: string, canon: string -> string, scopes: seq<ScopeRead>)
    requires NoDuplicates(groups)
    requires var routes := LoadScopeCatalog(groups, gateways, shown, targetPrefix, gatewayPrefix, canon);
      |scopes| == |routes| && forall i :: 0 <= i < |scopes| ==> scopes[i].route == routes[i]
    ensures InOrder(scopes)
  {
    CatalogExact(groups, gateways, shown, targetPrefix, gatewayPrefix, canon);
  }

  /** The user can reach the host through the scope: it is a member of the scope's target group, and some rule lets the user in. */
  ghost predicate Opens(dir: Directory, user: User, read: ScopeRead, fqdn: string, canon: string -> string) {
    && read.members.Ok? && (exists i :: 0 <= i < |read.members.value| && canon(read.members.value[i]) == fqdn)
    && exists r :: r in dir.hbac && Meaning.LetsIn(dir, r, user, fqdn, canon)
  }

  /** From the server's rules to the page: a host is listed exactly when one of the scopes opens it. */
  lemma {:induction false} DirectoryMeaning(dir: Directory, user: User, now: int, scopes: seq<ScopeRead>, fqdn: string, canon: string -> string)
    requires InOrder(scopes) && LoadPolicySnapshot(dir, user, now, canon).Ok?
    ensures var directory := DirectoryOf(LoadPolicySnapshot(dir, user, now, canon).value, scopes, canon);
      directory.Ok? ==> (Lists(directory.value, fqdn) <==> exists i :: 0 <= i < |scopes| && Opens(dir, user, scopes[i], fqdn, canon))
  {
    var s := LoadPolicySnapshot(dir, user, now, canon).value;
    DirectoryExact(s, scopes, canon);
    Meaning.SshMeaning(dir, user, now, fqdn, canon);
    assert forall i :: 0 <= i < |scopes| ==> (Opens(dir, user, scopes[i], fqdn, canon) <==> Granted(s, scopes[i], fqdn, canon));
  }
}
