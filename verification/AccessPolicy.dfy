/** FreeIPA access policy as internal/accessportal evaluates it (hbac.go, sudo.go, resolver.go, policysnapshot.go). */
module AccessPolicy {
  import opened Outcomes
  import opened Ordering

  datatype Subjects = Subjects(all: bool, users: seq<string>, groups: seq<string>)

  datatype Hosts = Hosts(all: bool, names: seq<string>, groups: seq<string>)

  datatype Services = Services(all: bool, names: seq<string>, groups: seq<string>)

  datatype HbacRule = HbacRule(name: string, enabled: bool, subjects: Subjects, hosts: Hosts, services: Services)

  datatype Commands = Commands(all: bool, allow: seq<string>, allowGroups: seq<string>, deny: seq<string>, denyGroups: seq<string>)

  datatype SudoRule = SudoRule(
    name: string, enabled: bool, subjects: Subjects, hosts: Hosts, commands: Commands,
    notBefore: Option<int>, notAfter: Option<int>)

  /** What the directory server answers; a group missing from its table is one whose show call fails.
      A host group lists its direct and indirect members. */
  datatype Directory = Directory(
    hbac: seq<HbacRule>, sudo: seq<SudoRule>,
    hostgroups: map<string, seq<string>>, serviceGroups: map<string, seq<string>>, commandGroups: map<string, seq<string>>)

  /** A user and all groups the user is in, directly or not. */
  datatype User = User(name: string, groups: set<string>)

  datatype RuleSource = RuleSource(rule: string, directUser: bool, viaGroups: seq<string>, directHost: bool, viaHostgroups: seq<string>)

  datatype SudoScope = NoSudo | Limited | All | AllWithDeny

  datatype SudoAccess = SudoAccess(scope: SudoScope, allow: seq<string>, deny: seq<string>, rules: seq<string>)

  /** Group names to their expanded members. */
  type Members = map<string, set<string>>

  datatype Snapshot = Snapshot(
    user: User, now: int, hbac: seq<HbacRule>, sudo: seq<SudoRule>,
    hostgroups: Members, serviceGroups: Members, commandGroups: Members)

  const SSHD := "sshd"

  // Matching one rule.

  /** The listed groups that are in `among`, in order. */
  function Via(groups: seq<string>, among: set<string>): seq<string> {
    if groups == [] then []
    else var n := |groups| - 1; Via(groups[..n], among) + if groups[n] in among then [groups[n]] else []
  }

  /** The listed groups whose expansion holds the member, in order. */
  function ViaMember(groups: seq<string>, members: Members, member: string): seq<string> {
    if groups == [] then []
    else
      var n := |groups| - 1;
      ViaMember(groups[..n], members, member) + if groups[n] in members && member in members[groups[n]] then [groups[n]] else []
  }

  function SubjectMatch(s: Subjects, user: User): (bool, seq<string>) {
    if s.all || user.name in s.users then (true, []) else var via := Via(s.groups, user.groups); (via != [], via)
  }

  predicate ContainsFqdn(hosts: seq<string>, fqdn: string, canon: string -> string) {
    exists i :: 0 <= i < |hosts| && canon(hosts[i]) == fqdn
  }

  function HostMatch(h: Hosts, fqdn: string, hostgroups: Members, canon: string -> string): (bool, seq<string>) {
    if h.all || ContainsFqdn(h.names, canon(fqdn), canon) then (true, [])
    else var via := ViaMember(h.groups, hostgroups, canon(fqdn)); (via != [], via)
  }

  predicate ServiceMatch(s: Services, service: string, serviceGroups: Members) {
    s.all || service in s.names || ViaMember(s.groups, serviceGroups, service) != []
  }

  function HbacGrant(r: HbacRule, user: User, fqdn: string, hostgroups: Members, serviceGroups: Members, canon: string -> string): Option<RuleSource> {
    var (userOk, viaGroups) := SubjectMatch(r.subjects, user);
    var (hostOk, viaHostgroups) := HostMatch(r.hosts, fqdn, hostgroups, canon);
    if r.enabled && userOk && hostOk && ServiceMatch(r.services, SSHD, serviceGroups) then
      Some(RuleSource(r.name, user.name in r.subjects.users, viaGroups, ContainsFqdn(r.hosts.names, canon(fqdn), canon), viaHostgroups))
    else None
  }

  predicate SudoActive(r: SudoRule, now: int) {
    && r.enabled
    && (r.notBefore.Some? ==> now >= r.notBefore.value)
    && (r.notAfter.Some? ==> now < r.notAfter.value)
  }

  predicate SudoGrants(r: SudoRule, now: int, user: User, fqdn: string, hostgroups: Members, canon: string -> string) {
    SudoActive(r, now) && SubjectMatch(r.subjects, user).0 && HostMatch(r.hosts, fqdn, hostgroups, canon).0
  }

  // All rules.

  function AsList(o: Option<RuleSource>): seq<RuleSource> {
    if o.Some? then [o.value] else []
  }

  function SshRules(rules: seq<HbacRule>, user: User, fqdn: string, hostgroups: Members, serviceGroups: Members, canon: string -> string): seq<RuleSource> {
    if rules == [] then []
    else
      var n := |rules| - 1;
      SshRules(rules[..n], user, fqdn, hostgroups, serviceGroups, canon)
      + AsList(HbacGrant(rules[n], user, fqdn, hostgroups, serviceGroups, canon))
  }

  /** What the loop of `resolveSudoAccess` has collected. */
  datatype Collected = Collected(rules: seq<string>, allow: set<string>, deny: set<string>, all: bool, denies: bool)

  function MembersOf(groups: seq<string>, members: Members): set<string> {
    set g, c | g in groups && g in members && c in members[g] :: c
  }

  function Collect(c: Collected, r: SudoRule, commandGroups: Members): Collected {
    Collected(c.rules + [r.name],
              c.allow + (set x | x in r.commands.allow) + MembersOf(r.commands.allowGroups, commandGroups),
              c.deny + (set x | x in r.commands.deny) + MembersOf(r.commands.denyGroups, commandGroups),
              c.all || r.commands.all,
              c.denies || r.commands.deny != [] || r.commands.denyGroups != [])
  }

  function CollectAll(rules: seq<SudoRule>, now: int, user: User, fqdn: string, hostgroups: Members, commandGroups: Members, canon: string -> string): Collected {
    if rules == [] then Collected([], {}, {}, false, false)
    else
      var n := |rules| - 1;
      var before := CollectAll(rules[..n], now, user, fqdn, hostgroups, commandGroups, canon);
      if SudoGrants(rules[n], now, user, fqdn, hostgroups, canon) then Collect(before, rules[n], commandGroups) else before
  }

  function DisplayScope(anyRule: bool, all: bool, denies: bool): SudoScope {
    if !anyRule then NoSudo else if all && denies then AllWithDeny else if all then All else Limited
  }

  function SudoResult(c: Collected): SudoAccess {
    SudoAccess(DisplayScope(c.rules != [], c.all, c.denies), SortedKeys(c.allow), SortedKeys(c.deny), c.rules)
  }

  function SshOf(s: Snapshot, fqdn: string, canon: string -> string): seq<RuleSource> {
    SshRules(s.hbac, s.user, fqdn, s.hostgroups, s.serviceGroups, canon)
  }

  function SudoOf(s: Snapshot, fqdn: string, canon: string -> string): SudoAccess {
    SudoResult(CollectAll(s.sudo, s.now, s.user, fqdn, s.hostgroups, s.commandGroups, canon))
  }

  // The loops.

  method ResolveSubject(s: Subjects, user: User) returns (ok: bool, via: seq<string>)
    ensures (ok, via) == SubjectMatch(s, user)
    ensures ok <==> s.all || user.name in s.users || exists i :: 0 <= i < |s.groups| && s.groups[i] in user.groups
  {
    ViaMeaning(s.groups, user.groups);
    via := [];
    if s.all || user.name in s.users { return true, []; }
    for i := 0 to |s.groups|
      invariant via == Via(s.groups[..i], user.groups)
    {
      assert s.groups[..i + 1][..i] == s.groups[..i];
      if s.groups[i] in user.groups { via := via + [s.groups[i]]; }
    }
    assert s.groups[..|s.groups|] == s.groups;
    ok := via != [];
  }

  method ResolveHost(h: Hosts, fqdn: string, hostgroups: Members, canon: string -> string) returns (ok: bool, via: seq<string>)
    ensures (ok, via) == HostMatch(h, fqdn, hostgroups, canon)
    ensures ok <==> (h.all || ContainsFqdn(h.names, canon(fqdn), canon)
      || exists i :: 0 <= i < |h.groups| && h.groups[i] in hostgroups && canon(fqdn) in hostgroups[h.groups[i]])
  {
    ViaMemberMeaning(h.groups, hostgroups, canon(fqdn));
    via := [];
    if h.all { return true, []; }
    var name := canon(fqdn);
    for i := 0 to |h.names|
      invariant forall j :: 0 <= j < i ==> canon(h.names[j]) != name
    {
      if canon(h.names[i]) == name { return true, []; }
    }
    for i := 0 to |h.groups|
      invariant via == ViaMember(h.groups[..i], hostgroups, name)
    {
      assert h.groups[..i + 1][..i] == h.groups[..i];
      if h.groups[i] in hostgroups && name in hostgroups[h.groups[i]] { via := via + [h.groups[i]]; }
    }
    assert h.groups[..|h.groups|] == h.groups;
    ok := via != [];
  }

  method ResolveSshAccess(s: Snapshot, fqdn: string, canon: string -> string) returns (rules: seq<RuleSource>)
    ensures rules == SshOf(s, fqdn, canon)
  {
    rules := [];
    for i := 0 to |s.hbac|
      invariant rules == SshRules(s.hbac[..i], s.user, fqdn, s.hostgroups, s.serviceGroups, canon)
    {
      assert s.hbac[..i + 1][..i] == s.hbac[..i] && s.hbac[..i + 1][i] == s.hbac[i];
      match HbacGrant(s.hbac[i], s.user, fqdn, s.hostgroups, s.serviceGroups, canon)
      case Some(source) => rules := rules + [source];
      case None =>
    }
    assert s.hbac[..|s.hbac|] == s.hbac;
  }

  method ResolveSudoAccess(s: Snapshot, fqdn: string, canon: string -> string) returns (access: SudoAccess)
    ensures access == SudoOf(s, fqdn, canon)
  {
    var c := Collected([], {}, {}, false, false);
    for i := 0 to |s.sudo|
      invariant c == CollectAll(s.sudo[..i], s.now, s.user, fqdn, s.hostgroups, s.commandGroups, canon)
    {
      assert s.sudo[..i + 1][..i] == s.sudo[..i] && s.sudo[..i + 1][i] == s.sudo[i];
      if SudoGrants(s.sudo[i], s.now, s.user, fqdn, s.hostgroups, canon) { c := Collect(c, s.sudo[i], s.commandGroups); }
    }
    assert s.sudo[..|s.sudo|] == s.sudo;
    access := SudoResult(c);
  }

  lemma {:induction false} ViaMeaning(groups: seq<string>, among: set<string>)
    ensures Via(groups, among) != [] <==> exists i :: 0 <= i < |groups| && groups[i] in among
  {
    if groups != [] {
      var rest := groups[..|groups| - 1];
      ViaMeaning(rest, among);
      assert forall i :: 0 <= i < |rest| ==> rest[i] == groups[i];
    }
  }

  lemma {:induction false} ViaMemberMeaning(groups: seq<string>, members: Members, member: string)
    ensures ViaMember(groups, members, member) != [] <==> exists i :: 0 <= i < |groups| && groups[i] in members && member in members[groups[i]]
  {
    if groups != [] {
      var rest := groups[..|groups| - 1];
      ViaMemberMeaning(rest, members, member);
      assert forall i :: 0 <= i < |rest| ==> rest[i] == groups[i];
    }
  }

  // Loading a snapshot.

  predicate HbacApplies(r: HbacRule, user: User) {
    r.enabled && SubjectMatch(r.subjects, user).0
  }

  predicate SudoApplies(r: SudoRule, user: User, now: int) {
    SudoActive(r, now) && SubjectMatch(r.subjects, user).0
  }

  function KeepHbac(rules: seq<HbacRule>, user: User): seq<HbacRule> {
    if rules == [] then []
    else var n := |rules| - 1; KeepHbac(rules[..n], user) + if HbacApplies(rules[n], user) then [rules[n]] else []
  }

  function KeepSudo(rules: seq<SudoRule>, user: User, now: int): seq<SudoRule> {
    if rules == [] then []
    else var n := |rules| - 1; KeepSudo(rules[..n], user, now) + if SudoApplies(rules[n], user, now) then [rules[n]] else []
  }

  /** Services and commands are compared as they are. */
  function AsIs(x: string): string {
    x
  }

  /** One show call per distinct name; one failing call fails them all. */
  function Expand(names: set<string>, table: map<string, seq<string>>, canon: string -> string): Result<Members> {
    if names <= table.Keys then Ok(map n | n in names :: set h | h in table[n] :: canon(h)) else Rejected
  }

  function HostgroupNames(hbac: seq<HbacRule>, sudo: seq<SudoRule>): set<string> {
    (set r, g | r in hbac && g in r.hosts.groups :: g) + (set r, g | r in sudo && g in r.hosts.groups :: g)
  }

  function ServiceGroupNames(hbac: seq<HbacRule>): set<string> {
    set r, g | r in hbac && g in r.services.groups :: g
  }

  function CommandGroupNames(sudo: seq<SudoRule>): set<string> {
    (set r, g | r in sudo && g in r.commands.allowGroups :: g) + (set r, g | r in sudo && g in r.commands.denyGroups :: g)
  }

  /** The snapshot that holds these rules and the expansions of the groups they refer to. */
  function SnapshotOf(dir: Directory, user: User, now: int, hbac: seq<HbacRule>, sudo: seq<SudoRule>, canon: string -> string): Result<Snapshot> {
    var hostgroups := Expand(HostgroupNames(hbac, sudo), dir.hostgroups, canon);
    var serviceGroups := Expand(ServiceGroupNames(hbac), dir.serviceGroups, AsIs);
    var commandGroups := Expand(CommandGroupNames(sudo), dir.commandGroups, AsIs);
    if hostgroups.Ok? && serviceGroups.Ok? && commandGroups.Ok? then
      Ok(Snapshot(user, now, hbac, sudo, hostgroups.value, serviceGroups.value, commandGroups.value))
    else Rejected
  }

  /** `LoadPolicySnapshot`: only the rules that can apply to this user now, and only their groups. */
  function LoadPolicySnapshot(dir: Directory, user: User, now: int, canon: string -> string): Result<Snapshot> {
    SnapshotOf(dir, user, now, KeepHbac(dir.hbac, user), KeepSudo(dir.sudo, user, now), canon)
  }

  // Filtering loses nothing.

  /** Both expansions hold these groups, with the same members. */
  ghost predicate SameFor(groups: seq<string>, a: Members, b: Members) {
    forall g :: g in groups ==> g in a && g in b && a[g] == b[g]
  }

  lemma {:induction false} ViaMemberSame(groups: seq<string>, a: Members, b: Members, member: string)
    requires SameFor(groups, a, b)
    ensures ViaMember(groups, a, member) == ViaMember(groups, b, member)
  {
    if groups != [] {
      var rest := groups[..|groups| - 1];
      assert groups == rest + [groups[|rest|]];
      ViaMemberSame(rest, a, b, member);
    }
  }

  lemma {:induction false} MembersOfSame(groups: seq<string>, a: Members, b: Members)
    requires SameFor(groups, a, b)
    ensures MembersOf(groups, a) == MembersOf(groups, b)
  {
    forall c ensures c in MembersOf(groups, a) <==> c in MembersOf(groups, b) {
      if c in MembersOf(groups, a) { var g :| g in groups && g in a && c in a[g]; assert c in b[g]; }
      if c in MembersOf(groups, b) { var g :| g in groups && g in b && c in b[g]; assert c in a[g]; }
    }
  }

  lemma {:induction false} KeptHbac(rules: seq<HbacRule>, user: User)
    ensures forall r :: r in KeepHbac(rules, user) <==> r in rules && HbacApplies(r, user)
  {
    if rules != [] {
      var n := |rules| - 1;
      KeptHbac(rules[..n], user);
      assert rules == rules[..n] + [rules[n]];
    }
  }

  lemma {:induction false} KeptSudo(rules: seq<SudoRule>, user: User, now: int)
    ensures forall r :: r in KeepSudo(rules, user, now) <==> r in rules && SudoApplies(r, user, now)
  {
    if rules != [] {
      var n := |rules| - 1;
      KeptSudo(rules[..n], user, now);
      assert rules == rules[..n] + [rules[n]];
    }
  }

  ghost predicate HbacSame(r: HbacRule, s: Snapshot, t: Snapshot) {
    SameFor(r.hosts.groups, s.hostgroups, t.hostgroups) && SameFor(r.services.groups, s.serviceGroups, t.serviceGroups)
  }

  ghost predicate SudoSame(r: SudoRule, s: Snapshot, t: Snapshot) {
    && SameFor(r.hosts.groups, s.hostgroups, t.hostgroups)
    && SameFor(r.commands.allowGroups, s.commandGroups, t.commandGroups)
    && SameFor(r.commands.denyGroups, s.commandGroups, t.commandGroups)
  }

  lemma {:induction false} HbacGrantSame(r: HbacRule, s: Snapshot, t: Snapshot, fqdn: string, canon: string -> string)
    requires s.user == t.user && HbacSame(r, s, t)
    ensures HbacGrant(r, s.user, fqdn, s.hostgroups, s.serviceGroups, canon) == HbacGrant(r, t.user, fqdn, t.hostgroups, t.serviceGroups, canon)
  {
    ViaMemberSame(r.hosts.groups, s.hostgroups, t.hostgroups, canon(fqdn));
    ViaMemberSame(r.services.groups, s.serviceGroups, t.serviceGroups, SSHD);
    assert HostMatch(r.hosts, fqdn, s.hostgroups, canon) == HostMatch(r.hosts, fqdn, t.hostgroups, canon);
  }

  lemma {:induction false} SshSnoc(rules: seq<HbacRule>, r: HbacRule, s: Snapshot, fqdn: string, canon: string -> string)
    ensures SshRules(rules + [r], s.user, fqdn, s.hostgroups, s.serviceGroups, canon)
         == SshRules(rules, s.user, fqdn, s.hostgroups, s.serviceGroups, canon) + AsList(HbacGrant(r, s.user, fqdn, s.hostgroups, s.serviceGroups, canon))
  {
    assert (rules + [r])[..|rules|] == rules;
  }

  lemma {:induction false} SshFiltered(rules: seq<HbacRule>, s: Snapshot, t: Snapshot, fqdn: string, canon: string -> string)
    requires s.user == t.user && forall r :: r in rules && HbacApplies(r, s.user) ==> HbacSame(r, s, t)
    ensures SshRules(KeepHbac(rules, s.user), s.user, fqdn, s.hostgroups, s.serviceGroups, canon)
         == SshRules(rules, t.user, fqdn, t.hostgroups, t.serviceGroups, canon)
  {
    if rules != [] {
      var rest, r := rules[..|rules| - 1], rules[|rules| - 1];
      assert rules == rest + [r];
      SshFiltered(rest, s, t, fqdn, canon);
      SshSnoc(rest, r, t, fqdn, canon);
      if HbacApplies(r, s.user) {
        SshSnoc(KeepHbac(rest, s.user), r, s, fqdn, canon);
        HbacGrantSame(r, s, t, fqdn, canon);
      } else {
        assert HbacGrant(r, t.user, fqdn, t.hostgroups, t.serviceGroups, canon) == None;
        assert KeepHbac(rules, s.user) == KeepHbac(rest, s.user);
      }
    }
  }

  function CollectIf(c: Collected, r: SudoRule, s: Snapshot, fqdn: string, canon: string -> string): Collected {
    if SudoGrants(r, s.now, s.user, fqdn, s.hostgroups, canon) then Collect(c, r, s.commandGroups) else c
  }

  lemma {:induction false} SudoSnoc(rules: seq<SudoRule>, r: SudoRule, s: Snapshot, fqdn: string, canon: string -> string)
    ensures CollectAll(rules + [r], s.now, s.user, fqdn, s.hostgroups, s.commandGroups, canon)
         == CollectIf(CollectAll(rules, s.now, s.user, fqdn, s.hostgroups, s.commandGroups, canon), r, s, fqdn, canon)
  {
    assert (rules + [r])[..|rules|] == rules;
  }

  lemma {:induction false} SudoGrantSame(c: Collected, r: SudoRule, s: Snapshot, t: Snapshot, fqdn: string, canon: string -> string)
    requires s.user == t.user && s.now == t.now && SudoSame(r, s, t)
    ensures CollectIf(c, r, s, fqdn, canon) == CollectIf(c, r, t, fqdn, canon)
  {
    ViaMemberSame(r.hosts.groups, s.hostgroups, t.hostgroups, canon(fqdn));
    MembersOfSame(r.commands.allowGroups, s.commandGroups, t.commandGroups);
    MembersOfSame(r.commands.denyGroups, s.commandGroups, t.commandGroups);
  }

  lemma {:induction false} SudoFiltered(rules: seq<SudoRule>, s: Snapshot, t: Snapshot, fqdn: string, canon: string -> string)
    requires s.user == t.user && s.now == t.now && forall r :: r in rules && SudoApplies(r, s.user, s.now) ==> SudoSame(r, s, t)
    ensures CollectAll(KeepSudo(rules, s.user, s.now), s.now, s.user, fqdn, s.hostgroups, s.commandGroups, canon)
         == CollectAll(rules, t.now, t.user, fqdn, t.hostgroups, t.commandGroups, canon)
  {
    if rules != [] {
      var rest, r := rules[..|rules| - 1], rules[|rules| - 1];
      assert rules == rest + [r];
      SudoFiltered(rest, s, t, fqdn, canon);
      SudoSnoc(rest, r, t, fqdn, canon);
      if SudoApplies(r, s.user, s.now) {
        SudoSnoc(KeepSudo(rest, s.user, s.now), r, s, fqdn, canon);
        SudoGrantSame(CollectAll(rest, t.now, t.user, fqdn, t.hostgroups, t.commandGroups, canon), r, s, t, fqdn, canon);
      } else {
        assert KeepSudo(rules, s.user, s.now) == KeepSudo(rest, s.user, s.now);
      }
    }
  }

  lemma {:induction false} ExpandSame(groups: seq<string>, few: set<string>, many: set<string>, table: map<string, seq<string>>, canon: string -> string)
    requires few <= many && Expand(many, table, canon).Ok?
    requires forall g :: g in groups ==> g in few
    ensures Expand(few, table, canon).Ok? && SameFor(groups, Expand(few, table, canon).value, Expand(many, table, canon).value)
  {
  }

  /** The snapshot of all rules, whether they can apply to the user or not. */
  function Unfiltered(dir: Directory, user: User, now: int, canon: string -> string): Result<Snapshot> {
    SnapshotOf(dir, user, now, dir.hbac, dir.sudo, canon)
  }

  lemma {:induction false} FewerNames(dir: Directory, user: User, now: int)
    ensures var hbac, sudo := KeepHbac(dir.hbac, user), KeepSudo(dir.sudo, user, now);
      && HostgroupNames(hbac, sudo) <= HostgroupNames(dir.hbac, dir.sudo)
      && ServiceGroupNames(hbac) <= ServiceGroupNames(dir.hbac)
      && CommandGroupNames(sudo) <= CommandGroupNames(dir.sudo)
  {
    KeptHbac(dir.hbac, user);
    KeptSudo(dir.sudo, user, now);
  }

  /** Where evaluating every rule succeeds, the filtered snapshot loads too and decides every host the same way:
      the same granting rules with the same provenance, the same commands, the same sudo scope. */
  lemma {:induction false} FilterLosesNothing(dir: Directory, user: User, now: int, fqdn: string, canon: string -> string)
    requires Unfiltered(dir, user, now, canon).Ok?
    ensures LoadPolicySnapshot(dir, user, now, canon).Ok?
    ensures var s, t := LoadPolicySnapshot(dir, user, now, canon).value, Unfiltered(dir, user, now, canon).value;
      SshOf(s, fqdn, canon) == SshOf(t, fqdn, canon) && SudoOf(s, fqdn, canon) == SudoOf(t, fqdn, canon)
  {
    FewerNames(dir, user, now);
    var s, t := LoadPolicySnapshot(dir, user, now, canon).value, Unfiltered(dir, user, now, canon).value;
    KeptHbac(dir.hbac, user);
    KeptSudo(dir.sudo, user, now);
    forall r | r in dir.hbac && HbacApplies(r, user) ensures HbacSame(r, s, t) { HbacExpanded(dir, user, now, r, canon); }
    forall r | r in dir.sudo && SudoApplies(r, user, now) ensures SudoSame(r, s, t) { SudoExpanded(dir, user, now, r, canon); }
    SshFiltered(dir.hbac, s, t, fqdn, canon);
    SudoFiltered(dir.sudo, s, t, fqdn, canon);
  }

  lemma {:induction false} HbacExpanded(dir: Directory, user: User, now: int, r: HbacRule, canon: string -> string)
    requires Unfiltered(dir, user, now, canon).Ok? && LoadPolicySnapshot(dir, user, now, canon).Ok?
    requires r in KeepHbac(dir.hbac, user)
    ensures HbacSame(r, LoadPolicySnapshot(dir, user, now, canon).value, Unfiltered(dir, user, now, canon).value)
  {
    var hbac, sudo := KeepHbac(dir.hbac, user), KeepSudo(dir.sudo, user, now);
    FewerNames(dir, user, now);
    assert forall g :: g in r.hosts.groups ==> g in HostgroupNames(hbac, sudo);
    ExpandSame(r.hosts.groups, HostgroupNames(hbac, sudo), HostgroupNames(dir.hbac, dir.sudo), dir.hostgroups, canon);
    assert forall g :: g in r.services.groups ==> g in ServiceGroupNames(hbac);
    ExpandSame(r.services.groups, ServiceGroupNames(hbac), ServiceGroupNames(dir.hbac), dir.serviceGroups, AsIs);
  }

  lemma {:induction false} SudoExpanded(dir: Directory, user: User, now: int, r: SudoRule, canon: string -> string)
    requires Unfiltered(dir, user, now, canon).Ok? && LoadPolicySnapshot(dir, user, now, canon).Ok?
    requires r in KeepSudo(dir.sudo, user, now)
    ensures SudoSame(r, LoadPolicySnapshot(dir, user, now, canon).value, Unfiltered(dir, user, now, canon).value)
  {
    var hbac, sudo := KeepHbac(dir.hbac, user), KeepSudo(dir.sudo, user, now);
    FewerNames(dir, user, now);
    assert forall g :: g in r.hosts.groups ==> g in HostgroupNames(hbac, sudo);
    ExpandSame(r.hosts.groups, HostgroupNames(hbac, sudo), HostgroupNames(dir.hbac, dir.sudo), dir.hostgroups, canon);
    assert forall g :: g in r.commands.allowGroups ==> g in CommandGroupNames(sudo);
    ExpandSame(r.commands.allowGroups, CommandGroupNames(sudo), CommandGroupNames(dir.sudo), dir.commandGroups, AsIs);
    assert forall g :: g in r.commands.denyGroups ==> g in CommandGroupNames(sudo);
    ExpandSame(r.commands.denyGroups, CommandGroupNames(sudo), CommandGroupNames(dir.sudo), dir.commandGroups, AsIs);
  }
}
