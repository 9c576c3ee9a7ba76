/** What the resolved access means, stated on the directory itself: who, where, which service, which commands. */
module AccessMeaning {
  import opened Outcomes
  import opened Ordering
  import opened AccessPolicy

  ghost predicate UserIn(s: Subjects, user: User) {
    s.all || user.name in s.users || exists g :: g in s.groups && g in user.groups
  }

  /** A group of the list is readable and holds a member that reads as `wanted`. */
  ghost predicate InSomeGroup(groups: seq<string>, table: map<string, seq<string>>, wanted: string, canon: string -> string) {
    exists g, m :: g in groups && g in table && m in table[g] && canon(m) == wanted
  }

  ghost predicate HostIn(dir: Directory, h: Hosts, fqdn: string, canon: string -> string) {
    || h.all
    || (exists n :: n in h.names && canon(n) == canon(fqdn))
    || InSomeGroup(h.groups, dir.hostgroups, canon(fqdn), canon)
  }

  /** A group of the list is readable and holds `wanted`. */
  ghost predicate HeldBySome(groups: seq<string>, table: map<string, seq<string>>, wanted: string) {
    exists g :: g in groups && g in table && wanted in table[g]
  }

  ghost predicate SshdIn(dir: Directory, s: Services) {
    s.all || "sshd" in s.names || HeldBySome(s.groups, dir.serviceGroups, "sshd")
  }

  /** The rule lets the user log in to the host. */
  ghost predicate LetsIn(dir: Directory, r: HbacRule, user: User, fqdn: string, canon: string -> string) {
    r.enabled && UserIn(r.subjects, user) && HostIn(dir, r.hosts, fqdn, canon) && SshdIn(dir, r.services)
  }

  /** The rule is enabled, its start is past or missing, and its end is ahead or missing. */
  predicate InForce(r: SudoRule, now: int) {
    r.enabled && (r.notBefore.None? || r.notBefore.value <= now) && (r.notAfter.None? || now < r.notAfter.value)
  }

  /** The rule gives the user commands on the host now. */
  ghost predicate GivesSudo(dir: Directory, r: SudoRule, now: int, user: User, fqdn: string, canon: string -> string) {
    InForce(r, now) && UserIn(r.subjects, user) && HostIn(dir, r.hosts, fqdn, canon)
  }

  ghost predicate Names(dir: Directory, commands: seq<string>, groups: seq<string>, command: string) {
    command in commands || HeldBySome(groups, dir.commandGroups, command)
  }

  lemma {:induction false} AsIsHeld(groups: seq<string>, table: map<string, seq<string>>, wanted: string)
    ensures InSomeGroup(groups, table, wanted, AsIs) <==> HeldBySome(groups, table, wanted)
  {
    if HeldBySome(groups, table, wanted) {
      var g :| g in groups && g in table && wanted in table[g];
      assert AsIs(wanted) == wanted;
    }
  }

  // From the loops to the directory.

  lemma {:induction false} SubjectMeaning(s: Subjects, user: User)
    ensures SubjectMatch(s, user).0 <==> UserIn(s, user)
  {
    ViaMeaning(s.groups, user.groups);
    if exists g :: g in s.groups && g in user.groups {
      var g :| g in s.groups && g in user.groups;
      var i :| 0 <= i < |s.groups| && s.groups[i] == g;
    }
  }

  /** These groups are expanded in `members` as the table lists them. */
  ghost predicate Reads(groups: seq<string>, table: map<string, seq<string>>, members: Members, canon: string -> string) {
    forall g :: g in groups ==> g in table && g in members && forall x :: x in members[g] <==> exists m :: m in table[g] && canon(m) == x
  }

  lemma {:induction false} GroupMeaning(groups: seq<string>, table: map<string, seq<string>>, members: Members, wanted: string, canon: string -> string)
    requires Reads(groups, table, members, canon)
    ensures ViaMember(groups, members, wanted) != [] <==> InSomeGroup(groups, table, wanted, canon)
    ensures wanted in MembersOf(groups, members) <==> InSomeGroup(groups, table, wanted, canon)
  {
    ViaMemberMeaning(groups, members, wanted);
    if InSomeGroup(groups, table, wanted, canon) {
      var g, m :| g in groups && g in table && m in table[g] && canon(m) == wanted;
      var i :| 0 <= i < |groups| && groups[i] == g;
      assert wanted in members[groups[i]];
    }
    if i :| 0 <= i < |groups| && groups[i] in members && wanted in members[groups[i]] {
      assert groups[i] in groups;
      var m :| m in table[groups[i]] && canon(m) == wanted;
    }
  }

  lemma {:induction false} HostMeaning(dir: Directory, h: Hosts, fqdn: string, members: Members, canon: string -> string)
    requires Reads(h.groups, dir.hostgroups, members, canon)
    ensures HostMatch(h, fqdn, members, canon).0 <==> HostIn(dir, h, fqdn, canon)
  {
    GroupMeaning(h.groups, dir.hostgroups, members, canon(fqdn), canon);
    if exists n :: n in h.names && canon(n) == canon(fqdn) {
      var n :| n in h.names && canon(n) == canon(fqdn);
      var i :| 0 <= i < |h.names| && h.names[i] == n;
      assert ContainsFqdn(h.names, canon(fqdn), canon);
    }
  }

  lemma {:induction false} ExpandReads(groups: seq<string>, names: set<string>, table: map<string, seq<string>>, canon: string -> string)
    requires Expand(names, table, canon).Ok? && forall g :: g in groups ==> g in names
    ensures Reads(groups, table, Expand(names, table, canon).value, canon)
  {
    var members := Expand(names, table, canon).value;
    forall g | g in groups ensures g in table && g in members && forall x :: x in members[g] <==> exists m :: m in table[g] && canon(m) == x {
      assert members[g] == set h | h in table[g] :: canon(h);
    }
  }

  lemma {:induction false} HbacMeaning(dir: Directory, user: User, now: int, r: HbacRule, fqdn: string, canon: string -> string)
    requires LoadPolicySnapshot(dir, user, now, canon).Ok? && r in KeepHbac(dir.hbac, user)
    ensures var s := LoadPolicySnapshot(dir, user, now, canon).value;
      HbacGrant(r, user, fqdn, s.hostgroups, s.serviceGroups, canon).Some? <==> LetsIn(dir, r, user, fqdn, canon)
  {
    var hbac, sudo := KeepHbac(dir.hbac, user), KeepSudo(dir.sudo, user, now);
    var s := LoadPolicySnapshot(dir, user, now, canon).value;
    assert forall g :: g in r.hosts.groups ==> g in HostgroupNames(hbac, sudo);
    ExpandReads(r.hosts.groups, HostgroupNames(hbac, sudo), dir.hostgroups, canon);
    assert forall g :: g in r.services.groups ==> g in ServiceGroupNames(hbac);
    ExpandReads(r.services.groups, ServiceGroupNames(hbac), dir.serviceGroups, AsIs);
    SubjectMeaning(r.subjects, user);
    HostMeaning(dir, r.hosts, fqdn, s.hostgroups, canon);
    GroupMeaning(r.services.groups, dir.serviceGroups, s.serviceGroups, SSHD, AsIs);
    AsIsHeld(r.services.groups, dir.serviceGroups, SSHD);
  }

  lemma {:induction false} SshNonempty(rules: seq<HbacRule>, s: Snapshot, fqdn: string, canon: string -> string)
    ensures SshRules(rules, s.user, fqdn, s.hostgroups, s.serviceGroups, canon) != []
       <==> exists r :: r in rules && HbacGrant(r, s.user, fqdn, s.hostgroups, s.serviceGroups, canon).Some?
  {
    if rules != [] {
      var rest, r := rules[..|rules| - 1], rules[|rules| - 1];
      assert rules == rest + [r];
      SshNonempty(rest, s, fqdn, canon);
      SshSnoc(rest, r, s, fqdn, canon);
    }
  }

  /** A host is listed for SSH exactly when some rule of the whole directory lets the user in. */
  lemma {:induction false} SshMeaning(dir: Directory, user: User, now: int, fqdn: string, canon: string -> string)
    requires LoadPolicySnapshot(dir, user, now, canon).Ok?
    ensures SshOf(LoadPolicySnapshot(dir, user, now, canon).value, fqdn, canon) != []
       <==> exists r :: r in dir.hbac && LetsIn(dir, r, user, fqdn, canon)
  {
    var s := LoadPolicySnapshot(dir, user, now, canon).value;
    KeptHbac(dir.hbac, user);
    SshNonempty(s.hbac, s, fqdn, canon);
    forall r | r in s.hbac
      ensures HbacGrant(r, user, fqdn, s.hostgroups, s.serviceGroups, canon).Some? <==> LetsIn(dir, r, user, fqdn, canon)
    {
      HbacMeaning(dir, user, now, r, fqdn, canon);
    }
    forall r | r in dir.hbac && LetsIn(dir, r, user, fqdn, canon) ensures r in s.hbac { SubjectMeaning(r.subjects, user); }
  }

  /** What a listed source says of the rule it names. */
  ghost predicate Explains(dir: Directory, r: HbacRule, user: User, fqdn: string, canon: string -> string, source: RuleSource) {
    && source.rule == r.name
    && (source.directUser <==> user.name in r.subjects.users)
    && (source.directHost <==> exists n :: n in r.hosts.names && canon(n) == canon(fqdn))
    && (if r.subjects.all || source.directUser then source.viaGroups == [] else Picks(source.viaGroups, r.subjects.groups, g => g in user.groups))
    && (if r.hosts.all || source.directHost then source.viaHostgroups == []
        else Picks(source.viaHostgroups, r.hosts.groups, g => InSomeGroup([g], dir.hostgroups, canon(fqdn), canon)))
  }

  lemma {:induction false} ViaNext(rest: seq<string>, g: string, among: set<string>)
    ensures Via(rest + [g], among) == if g in among then Via(rest, among) + [g] else Via(rest, among)
  {
    assert (rest + [g])[..|rest|] == rest;
  }

  lemma {:induction false} ViaPicks(groups: seq<string>, among: set<string>)
    ensures Picks(Via(groups, among), groups, g => g in among)
  {
    var keep := g => g in among;
    if groups == [] {
      PicksNothing(keep);
    } else {
      var rest, g := groups[..|groups| - 1], groups[|groups| - 1];
      assert groups == rest + [g];
      ViaPicks(rest, among);
      ViaNext(rest, g, among);
      PicksNext(Via(rest, among), rest, keep, g);
    }
  }

  lemma {:induction false} ViaMemberNext(rest: seq<string>, g: string, members: Members, member: string)
    ensures var before := ViaMember(rest, members, member);
            ViaMember(rest + [g], members, member) == if g in members && member in members[g] then before + [g] else before
  {
    assert (rest + [g])[..|rest|] == rest;
  }

  lemma {:induction false} ViaMemberPicks(groups: seq<string>, members: Members, member: string)
    ensures Picks(ViaMember(groups, members, member), groups, g => g in members && member in members[g])
  {
    var keep := g => g in members && member in members[g];
    if groups == [] {
      PicksNothing(keep);
    } else {
      var rest, g := groups[..|groups| - 1], groups[|groups| - 1];
      assert groups == rest + [g];
      ViaMemberPicks(rest, members, member);
      ViaMemberNext(rest, g, members, member);
      PicksNext(ViaMember(rest, members, member), rest, keep, g);
    }
  }

  lemma {:induction false} ContainsMeaning(names: seq<string>, fqdn: string, canon: string -> string)
    ensures ContainsFqdn(names, fqdn, canon) <==> exists n :: n in names && canon(n) == fqdn
  {
    if exists n :: n in names && canon(n) == fqdn {
      var n :| n in names && canon(n) == fqdn;
      var i :| 0 <= i < |names| && names[i] == n;
    }
  }

  lemma {:induction false} SourceExplains(dir: Directory, user: User, now: int, r: HbacRule, fqdn: string, canon: string -> string)
    requires LoadPolicySnapshot(dir, user, now, canon).Ok? && r in KeepHbac(dir.hbac, user)
    ensures var s := LoadPolicySnapshot(dir, user, now, canon).value;
      var source := HbacGrant(r, user, fqdn, s.hostgroups, s.serviceGroups, canon);
      source.Some? ==> Explains(dir, r, user, fqdn, canon, source.value)
  {
    var hbac, sudo := KeepHbac(dir.hbac, user), KeepSudo(dir.sudo, user, now);
    var s := LoadPolicySnapshot(dir, user, now, canon).value;
    assert forall g :: g in r.hosts.groups ==> g in HostgroupNames(hbac, sudo);
    ExpandReads(r.hosts.groups, HostgroupNames(hbac, sudo), dir.hostgroups, canon);
    ContainsMeaning(r.hosts.names, canon(fqdn), canon);
    ViaPicks(r.subjects.groups, user.groups);
    ViaHostsPicked(dir, r.hosts.groups, s.hostgroups, fqdn, canon);
  }

  lemma {:induction false} ViaHostsPicked(dir: Directory, groups: seq<string>, members: Members, fqdn: string, canon: string -> string)
    requires Reads(groups, dir.hostgroups, members, canon)
    ensures Picks(ViaMember(groups, members, canon(fqdn)), groups, g => InSomeGroup([g], dir.hostgroups, canon(fqdn), canon))
  {
    var wanted := canon(fqdn);
    var keep, other := g => g in members && wanted in members[g], g => InSomeGroup([g], dir.hostgroups, wanted, canon);
    ViaMemberPicks(groups, members, wanted);
    forall i | 0 <= i < |groups| ensures keep(groups[i]) <==> other(groups[i]) {
      assert groups[i] in groups;
      GroupMeaning([groups[i]], dir.hostgroups, members, wanted, canon);
      ViaMemberMeaning([groups[i]], members, wanted);
    }
    PicksSame(ViaMember(groups, members, wanted), groups, keep, other);
  }

  lemma {:induction false} SshSources(rules: seq<HbacRule>, s: Snapshot, fqdn: string, canon: string -> string, source: RuleSource)
    ensures source in SshRules(rules, s.user, fqdn, s.hostgroups, s.serviceGroups, canon)
       <==> exists r :: r in rules && HbacGrant(r, s.user, fqdn, s.hostgroups, s.serviceGroups, canon) == Some(source)
  {
    if rules != [] {
      var rest, r := rules[..|rules| - 1], rules[|rules| - 1];
      assert rules == rest + [r];
      SshSources(rest, s, fqdn, canon, source);
      SshSnoc(rest, r, s, fqdn, canon);
    }
  }

  /** Every source shown names a rule of the directory that lets the user in, and tells truly how user and host met it. */
  lemma {:induction false} SourcesTell(dir: Directory, user: User, now: int, fqdn: string, canon: string -> string, source: RuleSource)
    requires LoadPolicySnapshot(dir, user, now, canon).Ok?
    requires source in SshOf(LoadPolicySnapshot(dir, user, now, canon).value, fqdn, canon)
    ensures exists r :: r in dir.hbac && LetsIn(dir, r, user, fqdn, canon) && Explains(dir, r, user, fqdn, canon, source)
  {
    var s := LoadPolicySnapshot(dir, user, now, canon).value;
    SshSources(s.hbac, s, fqdn, canon, source);
    var r :| r in s.hbac && HbacGrant(r, user, fqdn, s.hostgroups, s.serviceGroups, canon) == Some(source);
    KeptHbac(dir.hbac, user);
    HbacMeaning(dir, user, now, r, fqdn, canon);
    SourceExplains(dir, user, now, r, fqdn, canon);
  }

  // The whole list.

  /** The sources tell of these rules, one each. */
  ghost predicate Tell(dir: Directory, rules: seq<HbacRule>, user: User, fqdn: string, canon: string -> string, sources: seq<RuleSource>) {
    |sources| == |rules| && forall k :: 0 <= k < |rules| ==> Explains(dir, rules[k], user, fqdn, canon, sources[k])
  }

  lemma {:induction false} KeepHbacNext(rules: seq<HbacRule>, r: HbacRule, user: User)
    ensures KeepHbac(rules + [r], user) == if HbacApplies(r, user) then KeepHbac(rules, user) + [r] else KeepHbac(rules, user)
  {
    assert (rules + [r])[..|rules|] == rules;
  }

  lemma {:induction false} TellNext(dir: Directory, rules: seq<HbacRule>, user: User, fqdn: string, canon: string -> string, sources: seq<RuleSource>,
                                    r: HbacRule, source: RuleSource)
    requires Tell(dir, rules, user, fqdn, canon, sources) && Explains(dir, r, user, fqdn, canon, source)
    ensures Tell(dir, rules + [r], user, fqdn, canon, sources + [source])
  {
  }

  /** The source of a rule that lets the user in, if it does. */
  lemma {:induction false} SshStep(dir: Directory, user: User, now: int, fqdn: string, canon: string -> string, rules: seq<HbacRule>, r: HbacRule)
    requires LoadPolicySnapshot(dir, user, now, canon).Ok? && r in dir.hbac
    ensures var s := LoadPolicySnapshot(dir, user, now, canon).value;
      var before := SshRules(KeepHbac(rules, user), user, fqdn, s.hostgroups, s.serviceGroups, canon);
      var grant := HbacGrant(r, user, fqdn, s.hostgroups, s.serviceGroups, canon);
      && (LetsIn(dir, r, user, fqdn, canon) ==> grant.Some? && Explains(dir, r, user, fqdn, canon, grant.value))
      && SshRules(KeepHbac(rules + [r], user), user, fqdn, s.hostgroups, s.serviceGroups, canon)
           == if LetsIn(dir, r, user, fqdn, canon) then before + [grant.value] else before
  {
    var s := LoadPolicySnapshot(dir, user, now, canon).value;
    KeepHbacNext(rules, r, user);
    SubjectMeaning(r.subjects, user);
    if HbacApplies(r, user) {
      KeptHbac(dir.hbac, user);
      HbacMeaning(dir, user, now, r, fqdn, canon);
      SourceExplains(dir, user, now, r, fqdn, canon);
      SshSnoc(KeepHbac(rules, user), r, s, fqdn, canon);
    }
  }

  lemma {:induction false} SshNext(dir: Directory, user: User, now: int, fqdn: string, canon: string -> string, rules: seq<HbacRule>, r: HbacRule, told: seq<HbacRule>)
    returns (more: seq<HbacRule>)
    requires LoadPolicySnapshot(dir, user, now, canon).Ok? && r in dir.hbac
    requires var s := LoadPolicySnapshot(dir, user, now, canon).value;
      Tell(dir, told, user, fqdn, canon, SshRules(KeepHbac(rules, user), user, fqdn, s.hostgroups, s.serviceGroups, canon))
    ensures more == if LetsIn(dir, r, user, fqdn, canon) then told + [r] else told
    ensures var s := LoadPolicySnapshot(dir, user, now, canon).value;
      Tell(dir, more, user, fqdn, canon, SshRules(KeepHbac(rules + [r], user), user, fqdn, s.hostgroups, s.serviceGroups, canon))
  {
    var s := LoadPolicySnapshot(dir, user, now, canon).value;
    SshStep(dir, user, now, fqdn, canon, rules, r);
    more := told;
    if LetsIn(dir, r, user, fqdn, canon) {
      more := told + [r];
      TellNext(dir, told, user, fqdn, canon, SshRules(KeepHbac(rules, user), user, fqdn, s.hostgroups, s.serviceGroups, canon),
               r, HbacGrant(r, user, fqdn, s.hostgroups, s.serviceGroups, canon).value);
    }
  }

  lemma {:induction false} SshTold(dir: Directory, user: User, now: int, fqdn: string, canon: string -> string, n: nat) returns (told: seq<HbacRule>)
    requires LoadPolicySnapshot(dir, user, now, canon).Ok? && n <= |dir.hbac|
    ensures Picks(told, dir.hbac[..n], r => LetsIn(dir, r, user, fqdn, canon))
    ensures var s := LoadPolicySnapshot(dir, user, now, canon).value;
      Tell(dir, told, user, fqdn, canon, SshRules(KeepHbac(dir.hbac[..n], user), user, fqdn, s.hostgroups, s.serviceGroups, canon))
  {
    var keep := r => LetsIn(dir, r, user, fqdn, canon);
    if n == 0 {
      told := [];
      PicksNothing(keep);
    } else {
      var before := SshTold(dir, user, now, fqdn, canon, n - 1);
      assert dir.hbac[..n] == dir.hbac[..n - 1] + [dir.hbac[n - 1]];
      told := SshNext(dir, user, now, fqdn, canon, dir.hbac[..n - 1], dir.hbac[n - 1], before);
      PicksNext(before, dir.hbac[..n - 1], keep, dir.hbac[n - 1]);
    }
  }

  /** The sources shown are those of the directory's rules that let the user in: one for each, in the directory's order, and each
      tells truly how user and host met its rule. */
  lemma {:induction false} SshExact(dir: Directory, user: User, now: int, fqdn: string, canon: string -> string) returns (told: seq<HbacRule>)
    requires LoadPolicySnapshot(dir, user, now, canon).Ok?
    ensures Picks(told, dir.hbac, r => LetsIn(dir, r, user, fqdn, canon))
    ensures Tell(dir, told, user, fqdn, canon, SshOf(LoadPolicySnapshot(dir, user, now, canon).value, fqdn, canon))
  {
    assert dir.hbac[..|dir.hbac|] == dir.hbac;
    told := SshTold(dir, user, now, fqdn, canon, |dir.hbac|);
  }

  // Sudo.

  ghost predicate Granting(rules: seq<SudoRule>, s: Snapshot, fqdn: string, canon: string -> string, r: SudoRule) {
    r in rules && SudoGrants(r, s.now, s.user, fqdn, s.hostgroups, canon)
  }

  ghost predicate Listed(commands: seq<string>, groups: seq<string>, members: Members, c: string) {
    c in commands || c in MembersOf(groups, members)
  }

  function CollectedBy(rules: seq<SudoRule>, s: Snapshot, fqdn: string, canon: string -> string): Collected {
    CollectAll(rules, s.now, s.user, fqdn, s.hostgroups, s.commandGroups, canon)
  }

  lemma {:induction false} GrantingLast(rest: seq<SudoRule>, last: SudoRule, s: Snapshot, fqdn: string, canon: string -> string)
    ensures CollectedBy(rest + [last], s, fqdn, canon) == CollectIf(CollectedBy(rest, s, fqdn, canon), last, s, fqdn, canon)
    ensures forall r :: Granting(rest + [last], s, fqdn, canon, r) <==>
      (Granting(rest, s, fqdn, canon, r) || (r == last && SudoGrants(last, s.now, s.user, fqdn, s.hostgroups, canon)))
  {
    SudoSnoc(rest, last, s, fqdn, canon);
  }

  lemma {:induction false} CollectedFlags(rules: seq<SudoRule>, s: Snapshot, fqdn: string, canon: string -> string)
    ensures var all := CollectedBy(rules, s, fqdn, canon);
      && (all.rules != [] <==> exists r :: Granting(rules, s, fqdn, canon, r))
      && (all.all <==> exists r :: Granting(rules, s, fqdn, canon, r) && r.commands.all)
      && (all.denies <==> exists r :: Granting(rules, s, fqdn, canon, r) && Denies(r))
  {
    if rules != [] {
      var rest, last := rules[..|rules| - 1], rules[|rules| - 1];
      assert rules == rest + [last];
      CollectedFlags(rest, s, fqdn, canon);
      GrantingLast(rest, last, s, fqdn, canon);
      assert forall r :: Granting(rest, s, fqdn, canon, r) ==> Granting(rules, s, fqdn, canon, r);
      if SudoGrants(last, s.now, s.user, fqdn, s.hostgroups, canon) { assert Granting(rules, s, fqdn, canon, last); }
    }
  }

  lemma {:induction false} CollectedNames(rules: seq<SudoRule>, s: Snapshot, fqdn: string, canon: string -> string, name: string)
    ensures name in CollectedBy(rules, s, fqdn, canon).rules <==> exists r :: Granting(rules, s, fqdn, canon, r) && r.name == name
  {
    if rules != [] {
      var rest, last := rules[..|rules| - 1], rules[|rules| - 1];
      assert rules == rest + [last];
      CollectedNames(rest, s, fqdn, canon, name);
      GrantingLast(rest, last, s, fqdn, canon);
    }
  }

  lemma {:induction false} CollectedCommands(rules: seq<SudoRule>, s: Snapshot, fqdn: string, canon: string -> string, c: string)
    ensures var all := CollectedBy(rules, s, fqdn, canon);
      && (c in all.allow <==> exists r :: Granting(rules, s, fqdn, canon, r) && Listed(r.commands.allow, r.commands.allowGroups, s.commandGroups, c))
      && (c in all.deny <==> exists r :: Granting(rules, s, fqdn, canon, r) && Listed(r.commands.deny, r.commands.denyGroups, s.commandGroups, c))
  {
    if rules != [] {
      var rest, last := rules[..|rules| - 1], rules[|rules| - 1];
      assert rules == rest + [last];
      CollectedCommands(rest, s, fqdn, canon, c);
      GrantingLast(rest, last, s, fqdn, canon);
    }
  }

  lemma {:induction false} SudoRuleMeaning(dir: Directory, user: User, now: int, r: SudoRule, fqdn: string, canon: string -> string, c: string)
    requires LoadPolicySnapshot(dir, user, now, canon).Ok? && r in KeepSudo(dir.sudo, user, now)
    ensures var s := LoadPolicySnapshot(dir, user, now, canon).value;
      && (SudoGrants(r, now, user, fqdn, s.hostgroups, canon) <==> GivesSudo(dir, r, now, user, fqdn, canon))
      && (Listed(r.commands.allow, r.commands.allowGroups, s.commandGroups, c) <==> Names(dir, r.commands.allow, r.commands.allowGroups, c))
      && (Listed(r.commands.deny, r.commands.denyGroups, s.commandGroups, c) <==> Names(dir, r.commands.deny, r.commands.denyGroups, c))
  {
    var hbac, sudo := KeepHbac(dir.hbac, user), KeepSudo(dir.sudo, user, now);
    var s := LoadPolicySnapshot(dir, user, now, canon).value;
    assert forall g :: g in r.hosts.groups ==> g in HostgroupNames(hbac, sudo);
    ExpandReads(r.hosts.groups, HostgroupNames(hbac, sudo), dir.hostgroups, canon);
    assert forall g :: g in r.commands.allowGroups ==> g in CommandGroupNames(sudo);
    ExpandReads(r.commands.allowGroups, CommandGroupNames(sudo), dir.commandGroups, AsIs);
    assert forall g :: g in r.commands.denyGroups ==> g in CommandGroupNames(sudo);
    ExpandReads(r.commands.denyGroups, CommandGroupNames(sudo), dir.commandGroups, AsIs);
    SubjectMeaning(r.subjects, user);
    HostMeaning(dir, r.hosts, fqdn, s.hostgroups, canon);
    GroupMeaning(r.commands.allowGroups, dir.commandGroups, s.commandGroups, c, AsIs);
    GroupMeaning(r.commands.denyGroups, dir.commandGroups, s.commandGroups, c, AsIs);
    AsIsHeld(r.commands.allowGroups, dir.commandGroups, c);
    AsIsHeld(r.commands.denyGroups, dir.commandGroups, c);
  }

  ghost predicate Gives(dir: Directory, user: User, now: int, fqdn: string, canon: string -> string, r: SudoRule) {
    r in dir.sudo && GivesSudo(dir, r, now, user, fqdn, canon)
  }

  ghost predicate Denies(r: SudoRule) {
    r.commands.deny != [] || r.commands.denyGroups != []
  }

  /** The rules kept that grant are the directory's rules that give, and they list the commands the directory names. */
  lemma {:induction false} SameGivers(dir: Directory, user: User, now: int, fqdn: string, canon: string -> string, c: string)
    requires LoadPolicySnapshot(dir, user, now, canon).Ok?
    ensures var s := LoadPolicySnapshot(dir, user, now, canon).value;
      forall r :: && (Granting(s.sudo, s, fqdn, canon, r) <==> Gives(dir, user, now, fqdn, canon, r))
                  && (Granting(s.sudo, s, fqdn, canon, r) ==>
                        && (Listed(r.commands.allow, r.commands.allowGroups, s.commandGroups, c) <==> Names(dir, r.commands.allow, r.commands.allowGroups, c))
                        && (Listed(r.commands.deny, r.commands.denyGroups, s.commandGroups, c) <==> Names(dir, r.commands.deny, r.commands.denyGroups, c)))
  {
    var s := LoadPolicySnapshot(dir, user, now, canon).value;
    KeptSudo(dir.sudo, user, now);
    forall r
      ensures Granting(s.sudo, s, fqdn, canon, r) <==> Gives(dir, user, now, fqdn, canon, r)
      ensures Granting(s.sudo, s, fqdn, canon, r) ==>
        && (Listed(r.commands.allow, r.commands.allowGroups, s.commandGroups, c) <==> Names(dir, r.commands.allow, r.commands.allowGroups, c))
        && (Listed(r.commands.deny, r.commands.denyGroups, s.commandGroups, c) <==> Names(dir, r.commands.deny, r.commands.denyGroups, c))
    {
      SubjectMeaning(r.subjects, user);
      if r in s.sudo { SudoRuleMeaning(dir, user, now, r, fqdn, canon, c); }
    }
  }

  /** The commands shown are exactly those some rule in force names, and the rules shown are exactly those in force. */
  lemma {:induction false} SudoMeaning(dir: Directory, user: User, now: int, fqdn: string, canon: string -> string, c: string)
    requires LoadPolicySnapshot(dir, user, now, canon).Ok?
    ensures var access := SudoOf(LoadPolicySnapshot(dir, user, now, canon).value, fqdn, canon);
      && (c in access.allow <==> exists r :: Gives(dir, user, now, fqdn, canon, r) && Names(dir, r.commands.allow, r.commands.allowGroups, c))
      && (c in access.deny <==> exists r :: Gives(dir, user, now, fqdn, canon, r) && Names(dir, r.commands.deny, r.commands.denyGroups, c))
      && (c in access.rules <==> exists r :: Gives(dir, user, now, fqdn, canon, r) && r.name == c)
  {
    var s := LoadPolicySnapshot(dir, user, now, canon).value;
    CollectedCommands(s.sudo, s, fqdn, canon, c);
    CollectedNames(s.sudo, s, fqdn, canon, c);
    SameGivers(dir, user, now, fqdn, canon, c);
  }

  lemma {:induction false} KeepSudoNext(rules: seq<SudoRule>, r: SudoRule, user: User, now: int)
    ensures KeepSudo(rules + [r], user, now) == if SudoApplies(r, user, now) then KeepSudo(rules, user, now) + [r] else KeepSudo(rules, user, now)
  {
    assert (rules + [r])[..|rules|] == rules;
  }

  function NamesOf(rules: seq<SudoRule>): (r: seq<string>)
    ensures |r| == |rules| && forall i :: 0 <= i < |r| ==> r[i] == rules[i].name
  {
    seq(|rules|, i requires 0 <= i < |rules| => rules[i].name)
  }

  lemma {:induction false} NamesNext(rules: seq<SudoRule>, r: SudoRule)
    ensures NamesOf(rules + [r]) == NamesOf(rules) + [r.name]
  {
  }

  lemma {:induction false} SudoTold(dir: Directory, user: User, now: int, fqdn: string, canon: string -> string, n: nat) returns (told: seq<SudoRule>)
    requires LoadPolicySnapshot(dir, user, now, canon).Ok? && n <= |dir.sudo|
    ensures Picks(told, dir.sudo[..n], r => GivesSudo(dir, r, now, user, fqdn, canon))
    ensures CollectedBy(KeepSudo(dir.sudo[..n], user, now), LoadPolicySnapshot(dir, user, now, canon).value, fqdn, canon).rules == NamesOf(told)
  {
    var keep := r => GivesSudo(dir, r, now, user, fqdn, canon);
    if n == 0 {
      told := [];
      PicksNothing(keep);
    } else {
      var r, rest := dir.sudo[n - 1], dir.sudo[..n - 1];
      var before := SudoTold(dir, user, now, fqdn, canon, n - 1);
      assert dir.sudo[..n] == rest + [r];
      PicksNext(before, rest, keep, r);
      SudoNext(dir, user, now, fqdn, canon, rest, r);
      NamesNext(before, r);
      told := if GivesSudo(dir, r, now, user, fqdn, canon) then before + [r] else before;
      assert keep(r) <==> GivesSudo(dir, r, now, user, fqdn, canon);
    }
  }

  lemma {:induction false} SudoNext(dir: Directory, user: User, now: int, fqdn: string, canon: string -> string, rest: seq<SudoRule>, r: SudoRule)
    requires LoadPolicySnapshot(dir, user, now, canon).Ok? && r in dir.sudo
    ensures var s := LoadPolicySnapshot(dir, user, now, canon).value;
      var before := CollectedBy(KeepSudo(rest, user, now), s, fqdn, canon).rules;
      CollectedBy(KeepSudo(rest + [r], user, now), s, fqdn, canon).rules == if GivesSudo(dir, r, now, user, fqdn, canon) then before + [r.name] else before
  {
    var s := LoadPolicySnapshot(dir, user, now, canon).value;
    KeepSudoNext(rest, r, user, now);
    SubjectMeaning(r.subjects, user);
    if SudoApplies(r, user, now) {
      KeptSudo(dir.sudo, user, now);
      SudoRuleMeaning(dir, user, now, r, fqdn, canon, "");
      SudoSnoc(KeepSudo(rest, user, now), r, s, fqdn, canon);
    }
  }

  /** The rules shown are those in force, in the directory's order; commands are listed in order and once. */
  lemma {:induction false} SudoExact(dir: Directory, user: User, now: int, fqdn: string, canon: string -> string) returns (told: seq<SudoRule>)
    requires LoadPolicySnapshot(dir, user, now, canon).Ok?
    ensures Picks(told, dir.sudo, r => GivesSudo(dir, r, now, user, fqdn, canon))
    ensures var access := SudoOf(LoadPolicySnapshot(dir, user, now, canon).value, fqdn, canon);
      && access.rules == NamesOf(told)
      && SortedBy(access.allow, LessEq) && NoDuplicates(access.allow) && SortedBy(access.deny, LessEq) && NoDuplicates(access.deny)
  {
    assert dir.sudo[..|dir.sudo|] == dir.sudo;
    told := SudoTold(dir, user, now, fqdn, canon, |dir.sudo|);
  }

  /** The scope shown says exactly whether rules are in force, whether one gives everything, and whether one denies something. */
  lemma {:induction false} ScopeMeaning(dir: Directory, user: User, now: int, fqdn: string, canon: string -> string)
    requires LoadPolicySnapshot(dir, user, now, canon).Ok?
    ensures var scope := SudoOf(LoadPolicySnapshot(dir, user, now, canon).value, fqdn, canon).scope;
      && (scope == NoSudo <==> !exists r :: Gives(dir, user, now, fqdn, canon, r))
      && (scope == All || scope == AllWithDeny <==> exists r :: Gives(dir, user, now, fqdn, canon, r) && r.commands.all)
      && (scope == AllWithDeny <==>
            (exists r :: Gives(dir, user, now, fqdn, canon, r) && r.commands.all) && (exists r :: Gives(dir, user, now, fqdn, canon, r) && Denies(r)))
  {
    var s := LoadPolicySnapshot(dir, user, now, canon).value;
    CollectedFlags(s.sudo, s, fqdn, canon);
    SameGivers(dir, user, now, fqdn, canon, "");
  }

  // When a snapshot loads.

  ghost predicate HbacReadable(dir: Directory, r: HbacRule) {
    (forall g :: g in r.hosts.groups ==> g in dir.hostgroups) && (forall g :: g in r.services.groups ==> g in dir.serviceGroups)
  }

  ghost predicate SudoReadable(dir: Directory, r: SudoRule) {
    && (forall g :: g in r.hosts.groups ==> g in dir.hostgroups)
    && (forall g :: g in r.commands.allowGroups ==> g in dir.commandGroups)
    && (forall g :: g in r.commands.denyGroups ==> g in dir.commandGroups)
  }

  /** Loading fails closed exactly when a group referred to by a rule that applies to the user cannot be read. */
  lemma {:induction false} LoadsExactly(dir: Directory, user: User, now: int, canon: string -> string)
    ensures LoadPolicySnapshot(dir, user, now, canon).Ok?
       <==> && (forall r :: r in dir.hbac && r.enabled && UserIn(r.subjects, user) ==> HbacReadable(dir, r))
            && (forall r :: r in dir.sudo && InForce(r, now) && UserIn(r.subjects, user) ==> SudoReadable(dir, r))
  {
    forall r: HbacRule ensures HbacApplies(r, user) <==> r.enabled && UserIn(r.subjects, user) { SubjectMeaning(r.subjects, user); }
    forall r: SudoRule ensures SudoApplies(r, user, now) <==> InForce(r, now) && UserIn(r.subjects, user) { SubjectMeaning(r.subjects, user); }
    var hbac, sudo := KeepHbac(dir.hbac, user), KeepSudo(dir.sudo, user, now);
    KeptHbac(dir.hbac, user);
    KeptSudo(dir.sudo, user, now);
    if LoadPolicySnapshot(dir, user, now, canon).Ok? {
      forall r | r in hbac ensures HbacReadable(dir, r) {
        assert forall g :: g in r.hosts.groups ==> g in HostgroupNames(hbac, sudo);
        assert forall g :: g in r.services.groups ==> g in ServiceGroupNames(hbac);
      }
      forall r | r in sudo ensures SudoReadable(dir, r) {
        assert forall g :: g in r.hosts.groups ==> g in HostgroupNames(hbac, sudo);
        assert forall g :: g in r.commands.allowGroups ==> g in CommandGroupNames(sudo);
        assert forall g :: g in r.commands.denyGroups ==> g in CommandGroupNames(sudo);
      }
    }
  }
}
