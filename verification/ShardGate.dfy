/** The evidence gate of scripts/ci-go-test-shards.py (`matrix`, `discovered_names`,
    `verify_selection`, `verified_reports`, `verify_run`): what it accepts, and what acceptance means. */
module ShardGate {
  import opened Ordering
  import opened Outcomes
  import opened ShardPartition
  import Events = TestEvents

  datatype Group = SpecGroup | CmdGroup | RestGroup

  /** The shard counts of scripts/ci-go-test-shards.json; `rest` always has one. */
  datatype Config = Config(spec: nat, cmd: nat)

  datatype Entry = Entry(group: Group, index: nat, total: nat)

  predicate ValidConfig(c: Config) {
    1 <= c.spec <= 3 && 1 <= c.cmd <= 3
  }

  function Count(c: Config, g: Group): nat {
    match g
    case SpecGroup => c.spec
    case CmdGroup => c.cmd
    case RestGroup => 1
  }

  function GroupEntries(g: Group, total: nat): (r: seq<Entry>)
    ensures |r| == total && forall i :: 0 <= i < total ==> r[i] == Entry(g, i, total)
  {
    seq(total, i requires 0 <= i => Entry(g, i, total))
  }

  function Matrix(c: Config): seq<Entry> {
    GroupEntries(SpecGroup, c.spec) + GroupEntries(CmdGroup, c.cmd) + GroupEntries(RestGroup, 1)
  }

  /** Who made a report: the fields that must agree, and whether the tree was dirty. */
  datatype Identity = Identity(dirty: bool, facts: seq<string>)

  /** A manifest; `rest` has no partition. Digests stand for what they hash. */
  datatype Manifest = Manifest(
    schemaOk: bool, group: Group, packages: seq<string>,
    configHash: string, weightsHash: Option<string>, plan: Result<Plan>)

  datatype RunReport = RunReport(
    schemaOk: bool, success: bool, exitCode: int, shardMode: bool, shard: Entry, group: Group,
    manifestDigest: Manifest, identity: Identity, observed: Events.Report)

  datatype Artifact = Artifact(report: RunReport, manifest: Manifest, events: seq<Events.Line>, discovery: seq<Events.Line>)

  /** What the gate reads beside the artifacts. */
  datatype Context = Context(
    config: Config,
    configHash: string,
    weightsHash: string,
    weights: map<Group, map<string, int>>,
    inventory: map<Group, seq<string>>,
    fixedPackage: map<Group, string>,
    identity: Identity,
    isTestName: string -> bool,
    listed: string -> Result<seq<string>>)

  // Reading the evidence of one shard.

  function ListedNames(lines: seq<Events.Line>, listed: string -> Result<seq<string>>): Result<seq<string>> {
    if lines == [] then Ok([])
    else
      var n := |lines| - 1;
      var front := ListedNames(lines[..n], listed);
      if front.Rejected? || !lines[n].Object? then Rejected
      else if !lines[n].event.action.Output? then front
      else
        var here := listed(Events.OutputText(lines[n].event));
        if here.Ok? then Ok(front.value + here.value) else Rejected
  }

  function DiscoveredNames(lines: seq<Events.Line>, package: string, listed: string -> Result<seq<string>>): Result<seq<string>> {
    var parsed := Events.ReportOf(lines);
    var names := ListedNames(lines, listed);
    if parsed.Ok? && parsed.value.packages.Keys == {package} && parsed.value.tests == []
       && names.Ok? && names.value != [] && NoDuplicates(names.value)
    then Ok(Sort(names.value))
    else Rejected
  }

  /** The names that the output of line `i` lists. */
  ghost predicate ListsAt(lines: seq<Events.Line>, listed: string -> Result<seq<string>>, i: nat, names: seq<string>) {
    && i < |lines| && lines[i].Object? && lines[i].event.action == Events.Output
    && listed(if lines[i].event.output.Text? then lines[i].event.output.text else "") == Ok(names)
  }

  /** Some output of the stream lists the name. */
  ghost predicate ListedSomewhere(lines: seq<Events.Line>, listed: string -> Result<seq<string>>, name: string) {
    exists i: nat, names :: ListsAt(lines, listed, i, names) && name in names
  }

  lemma {:induction false} ListedExact(lines: seq<Events.Line>, listed: string -> Result<seq<string>>, name: string)
    requires ListedNames(lines, listed).Ok?
    ensures name in ListedNames(lines, listed).value <==> ListedSomewhere(lines, listed, name)
  {
    if lines != [] {
      var n := |lines| - 1;
      var front := lines[..n];
      ListedExact(front, listed, name);
      assert forall i :: 0 <= i < n ==> front[i] == lines[i];
      if i: nat, names :| ListsAt(front, listed, i, names) && name in names { assert ListsAt(lines, listed, i, names); }
      if i: nat, names :| ListsAt(lines, listed, i, names) && name in names { if i < n { assert ListsAt(front, listed, i, names); } }
      if lines[n].event.action.Output? {
        var here := listed(Events.OutputText(lines[n].event)).value;
        assert ListsAt(lines, listed, n, here);
      }
    }
  }

  /** Discovery succeeds only on a complete stream of just the package, in which no test ran; then it gives the names its output
      lists, each once and in order, and there is at least one. */
  lemma {:induction false} DiscoveryExact(lines: seq<Events.Line>, package: string, listed: string -> Result<seq<string>>, name: string)
    requires DiscoveredNames(lines, package, listed).Ok?
    ensures Events.WellFormedStream(lines)
    ensures forall p: string :: Events.EventsAbout(lines, Events.OfPackage(p)) != [] <==> p == package
    ensures forall k: Events.Key :: Events.EventsAbout(lines, Events.OfTest(k)) == []
    ensures var names := DiscoveredNames(lines, package, listed).value;
      names != [] && SortedBy(names, LessEq) && NoDuplicates(names) && (name in names <==> ListedSomewhere(lines, listed, name))
  {
    var report, all := Events.ReportOf(lines).value, ListedNames(lines, listed).value;
    Events.AcceptsExactly(lines);
    Events.RowPresence(lines);
    forall p: string ensures Events.EventsAbout(lines, Events.OfPackage(p)) != [] <==> p == package { assert p in report.packages.Keys <==> p == package; }
    forall k: Events.Key ensures Events.EventsAbout(lines, Events.OfTest(k)) == [] { Events.ReportLists(lines, report, k); }
    ListedExact(lines, listed, name);
    SortKeepsMembers(all);
    NoDuplicatesOfPermutation(all, Sort(all));
    assert all[0] in Sort(all);
  }

  function TopLevelNames(tests: seq<Events.TestResult>): seq<string> {
    if tests == [] then []
    else
      var n := |tests| - 1;
      TopLevelNames(tests[..n]) + if '/' in tests[n].name then [] else [tests[n].name]
  }

  predicate SelectionMatches(parsed: Events.Report, manifest: Manifest, index: nat) {
    && parsed.packages.Keys == (set p | p in manifest.packages)
    && (manifest.group != RestGroup ==>
          && manifest.plan.Ok?
          && index < |manifest.plan.value.shards|
          && Sort(TopLevelNames(parsed.tests)) == manifest.plan.value.shards[index])
  }

  /** One pass of the loop in `verified_reports`. */
  predicate ReportVerified(x: Context, a: Artifact) {
    && a.report.schemaOk && a.report.success && a.report.exitCode == 0
    && Events.ReportOf(a.events) == Ok(a.report.observed)
    && (a.report.shardMode ==>
          && a.manifest.schemaOk
          && a.report.manifestDigest == a.manifest
          && SelectionMatches(a.report.observed, a.manifest, a.report.shard.index)
          && (a.manifest.group != RestGroup ==>
                && a.manifest.packages != []
                && a.manifest.plan.Ok?
                && DiscoveredNames(a.discovery, a.manifest.packages[0], x.listed) == Ok(a.manifest.plan.value.discovered)))
  }

  predicate EntryMatches(x: Context, e: Entry, a: Artifact) {
    && a.report.shardMode && a.report.group == e.group && a.report.shard == e
    && a.manifest.group == e.group && a.manifest.configHash == x.configHash
    && a.manifest.weightsHash == (if e.total > 1 then Some(x.weightsHash) else None)
  }

  function Measured(x: Context, g: Group): map<string, int> {
    if Count(x.config, g) > 1 && g in x.weights then x.weights[g] else map[]
  }

  /** The last loop of `verify_run`: a group's manifest against the module and a rebuilt partition. */
  predicate ManifestSound(x: Context, g: Group, m: Manifest) {
    && g in x.inventory && m.packages == x.inventory[g]
    && (if g == RestGroup then m.plan.Rejected? && m.packages != []
        else
          && g in x.fixedPackage && m.packages == [x.fixedPackage[g]]
          && m.plan.Ok?
          && Acceptable(m.plan.value.discovered, Count(x.config, g), Measured(x, g), x.isTestName)
          && m.plan.value == PlanOf(m.plan.value.discovered, Count(x.config, g), Measured(x, g)))
  }

  ghost predicate Accepts(x: Context, artifacts: map<Entry, Artifact>) {
    var entries := Matrix(x.config);
    && ValidConfig(x.config)
    && artifacts.Keys == (set e | e in entries)
    && !x.identity.dirty
    && AllVerified(x, entries, artifacts)
    && (forall j :: 0 <= j < |entries| ==> artifacts[entries[j]].report.identity == x.identity)
    && AllMatch(x, entries, artifacts)
    && Agree(entries, artifacts)
    && AllSound(x, entries, artifacts)
    && DisjointPackages(x, artifacts)
  }

  ghost predicate AllVerified(x: Context, entries: seq<Entry>, artifacts: map<Entry, Artifact>)
    requires forall e :: e in entries ==> e in artifacts
  {
    forall j :: 0 <= j < |entries| ==> ReportVerified(x, artifacts[entries[j]])
  }

  ghost predicate AllMatch(x: Context, entries: seq<Entry>, artifacts: map<Entry, Artifact>)
    requires forall e :: e in entries ==> e in artifacts
  {
    forall j :: 0 <= j < |entries| ==> EntryMatches(x, entries[j], artifacts[entries[j]])
  }

  ghost predicate AllSound(x: Context, entries: seq<Entry>, artifacts: map<Entry, Artifact>)
    requires forall e :: e in entries ==> e in artifacts
  {
    forall j :: 0 <= j < |entries| ==> ManifestSound(x, entries[j].group, artifacts[entries[j]].manifest)
  }

  ghost predicate Collected(entries: seq<Entry>, artifacts: map<Entry, Artifact>, perGroup: map<Group, Manifest>)
    requires forall e :: e in entries ==> e in artifacts
  {
    && (forall j :: 0 <= j < |entries| ==>
          entries[j].group in perGroup && perGroup[entries[j].group] == artifacts[entries[j]].manifest)
    && (forall g :: g in perGroup ==> exists j :: 0 <= j < |entries| && entries[j].group == g)
  }

  ghost predicate Agree(entries: seq<Entry>, artifacts: map<Entry, Artifact>)
    requires forall e :: e in entries ==> e in artifacts
  {
    forall i, j :: 0 <= i < |entries| && 0 <= j < |entries| && entries[i].group == entries[j].group ==>
      artifacts[entries[i]].manifest == artifacts[entries[j]].manifest
  }

  /** No package belongs to two groups. */
  ghost predicate DisjointPackages(x: Context, artifacts: map<Entry, Artifact>)
  {
    var spec, cmd, rest := Entry(SpecGroup, 0, x.config.spec), Entry(CmdGroup, 0, x.config.cmd), Entry(RestGroup, 0, 1);
    && spec in artifacts && cmd in artifacts && rest in artifacts
    && NoDuplicates(artifacts[spec].manifest.packages + artifacts[cmd].manifest.packages + artifacts[rest].manifest.packages)
  }

  // The same, shard by shard.

  /** The shards of a group. */
  predicate HasShards(c: Config, g: Group, total: nat) {
    (g == SpecGroup && total == c.spec) || (g == CmdGroup && total == c.cmd) || (g == RestGroup && total == 1)
  }

  predicate Expected(c: Config, e: Entry) {
    HasShards(c, e.group, e.total) && e.index < e.total
  }

  /** A successful shard report of this very run, backed by its events and by a manifest made with this configuration, and with
      these weights when the group is split. */
  predicate Reported(x: Context, e: Entry, a: Artifact) {
    && a.report.schemaOk && a.report.success && a.report.exitCode == 0 && a.report.identity == x.identity
    && a.report.shardMode && a.report.group == e.group && a.report.shard == e
    && Events.ReportOf(a.events) == Ok(a.report.observed)
    && a.manifest.schemaOk && a.report.manifestDigest == a.manifest && a.manifest.group == e.group
    && a.manifest.configHash == x.configHash
    && (e.total > 1 ==> a.manifest.weightsHash == Some(x.weightsHash)) && (e.total <= 1 ==> a.manifest.weightsHash == None)
  }

  /** The manifest names the packages of its group, and those are the ones that ran; a split group also has the partition that
      these weights give for the tests discovered, and its top-level tests that ran are those of its shard. */
  ghost predicate Covered(x: Context, e: Entry, a: Artifact) {
    && e.group in x.inventory && a.manifest.packages == x.inventory[e.group]
    && (forall p :: p in a.report.observed.packages <==> p in a.manifest.packages)
    && (if e.group == RestGroup then a.manifest.plan.Rejected? && a.manifest.packages != []
        else && e.group in x.fixedPackage && a.manifest.packages == [x.fixedPackage[e.group]] && a.manifest.plan.Ok?
             && var plan, measured := a.manifest.plan.value, if e.total > 1 && e.group in x.weights then x.weights[e.group] else map[];
                && Acceptable(plan.discovered, e.total, measured, x.isTestName) && plan == PlanOf(plan.discovered, e.total, measured)
                && DiscoveredNames(a.discovery, x.fixedPackage[e.group], x.listed) == Ok(plan.discovered)
                && e.index < |plan.shards| && Sort(TopLevelNames(a.report.observed.tests)) == plan.shards[e.index])
  }

  /** What the gate demands: one to three shards for `spec` and for `cmd`, a clean tree, exactly the artifacts of all shards, each in
      order, the shards of a group with one manifest, and no package in two groups. */
  ghost predicate Demanded(x: Context, artifacts: map<Entry, Artifact>) {
    && 1 <= x.config.spec <= 3 && 1 <= x.config.cmd <= 3 && !x.identity.dirty
    && (forall e :: e in artifacts <==> Expected(x.config, e))
    && AllInOrder(x, artifacts) && OneManifest(artifacts) && DisjointPackages(x, artifacts)
  }

  lemma {:induction false} MatrixExact(c: Config, e: Entry)
    ensures e in Matrix(c) <==> Expected(c, e)
  {
    var spec, cmd, rest := GroupEntries(SpecGroup, c.spec), GroupEntries(CmdGroup, c.cmd), GroupEntries(RestGroup, 1);
    assert e in Matrix(c) <==> e in spec || e in cmd || e in rest;
    if Expected(c, e) {
      match e.group
      case SpecGroup => assert spec[e.index] == e;
      case CmdGroup => assert cmd[e.index] == e;
      case RestGroup => assert rest[e.index] == e;
    }
  }

  /** Everything the script checks of one artifact. */
  predicate Checked(x: Context, e: Entry, a: Artifact) {
    ReportVerified(x, a) && EntryMatches(x, e, a) && ManifestSound(x, e.group, a.manifest) && a.report.identity == x.identity
  }

  lemma {:induction false} SamePackages(observed: map<string, Events.PackageRow>, packages: seq<string>)
    ensures observed.Keys == (set p | p in packages) <==> forall p :: p in observed <==> p in packages
  {
  }

  lemma {:induction false} ReportedExact(x: Context, e: Entry, a: Artifact)
    ensures Checked(x, e, a) ==> Reported(x, e, a)
    ensures Reported(x, e, a) ==> EntryMatches(x, e, a) && a.report.identity == x.identity
  {
  }

  lemma {:induction false} RestExact(x: Context, e: Entry, a: Artifact)
    requires Expected(x.config, e) && Reported(x, e, a) && e.group == RestGroup
    ensures ReportVerified(x, a) && ManifestSound(x, e.group, a.manifest) <==> Covered(x, e, a)
  {
    SamePackages(a.report.observed.packages, a.manifest.packages);
  }

  lemma {:induction false} SplitCovered(x: Context, e: Entry, a: Artifact)
    requires Expected(x.config, e) && Reported(x, e, a) && e.group != RestGroup && ReportVerified(x, a) && ManifestSound(x, e.group, a.manifest)
    ensures Covered(x, e, a)
  {
    assert e.total == Count(x.config, e.group);
    SamePackages(a.report.observed.packages, a.manifest.packages);
  }

  lemma {:induction false} CoveredSound(x: Context, e: Entry, a: Artifact)
    requires Expected(x.config, e) && e.group != RestGroup && Covered(x, e, a)
    ensures ManifestSound(x, e.group, a.manifest)
  {
    assert e.total == Count(x.config, e.group);
  }

  lemma {:induction false} CoveredVerified(x: Context, e: Entry, a: Artifact)
    requires Reported(x, e, a) && e.group != RestGroup && Covered(x, e, a)
    ensures ReportVerified(x, a)
  {
    SamePackages(a.report.observed.packages, a.manifest.packages);
  }

  lemma {:induction false} ShardExact(x: Context, e: Entry, a: Artifact)
    requires Expected(x.config, e)
    ensures Checked(x, e, a) <==> Reported(x, e, a) && Covered(x, e, a)
  {
    ReportedExact(x, e, a);
    if Reported(x, e, a) {
      if e.group == RestGroup {
        RestExact(x, e, a);
      } else {
        if ReportVerified(x, a) && ManifestSound(x, e.group, a.manifest) { SplitCovered(x, e, a); }
        if Covered(x, e, a) {
          CoveredSound(x, e, a);
          CoveredVerified(x, e, a);
        }
      }
    }
  }

  ghost predicate OneManifest(artifacts: map<Entry, Artifact>) {
    forall e, f :: e in artifacts && f in artifacts && e.group == f.group ==> artifacts[e].manifest == artifacts[f].manifest
  }

  ghost predicate AllChecked(x: Context, artifacts: map<Entry, Artifact>) {
    forall e :: e in artifacts ==> Checked(x, e, artifacts[e])
  }

  /** Going through the entries is going through the artifacts. */
  lemma {:induction false} ByEntry(x: Context, entries: seq<Entry>, artifacts: map<Entry, Artifact>)
    requires forall e :: e in entries <==> e in artifacts
    ensures (AllVerified(x, entries, artifacts) && (forall j :: 0 <= j < |entries| ==> artifacts[entries[j]].report.identity == x.identity)
             && AllMatch(x, entries, artifacts) && AllSound(x, entries, artifacts))
       <==> AllChecked(x, artifacts)
  {
    if AllVerified(x, entries, artifacts) && (forall j :: 0 <= j < |entries| ==> artifacts[entries[j]].report.identity == x.identity)
       && AllMatch(x, entries, artifacts) && AllSound(x, entries, artifacts) {
      forall e | e in artifacts ensures Checked(x, e, artifacts[e]) { var j :| 0 <= j < |entries| && entries[j] == e; }
    }
    if AllChecked(x, artifacts) {
      forall j | 0 <= j < |entries| ensures Checked(x, entries[j], artifacts[entries[j]]) { assert entries[j] in entries; }
    }
  }

  lemma {:induction false} AgreeExact(entries: seq<Entry>, artifacts: map<Entry, Artifact>)
    requires forall e :: e in entries <==> e in artifacts
    ensures Agree(entries, artifacts) <==> OneManifest(artifacts)
  {
    if Agree(entries, artifacts) {
      forall e, f | e in artifacts && f in artifacts && e.group == f.group ensures artifacts[e].manifest == artifacts[f].manifest {
        var i :| 0 <= i < |entries| && entries[i] == e;
        var j :| 0 <= j < |entries| && entries[j] == f;
      }
    }
  }

  ghost predicate AllInOrder(x: Context, artifacts: map<Entry, Artifact>) {
    forall e :: e in artifacts ==> Reported(x, e, artifacts[e]) && Covered(x, e, artifacts[e])
  }

  lemma {:induction false} CheckedInOrder(x: Context, artifacts: map<Entry, Artifact>)
    requires forall e :: e in artifacts <==> Expected(x.config, e)
    ensures AllChecked(x, artifacts) <==> AllInOrder(x, artifacts)
  {
    forall e | e in artifacts ensures Checked(x, e, artifacts[e]) <==> Reported(x, e, artifacts[e]) && Covered(x, e, artifacts[e]) {
      ShardExact(x, e, artifacts[e]);
    }
  }

  lemma {:induction false} KeysExact(x: Context, artifacts: map<Entry, Artifact>)
    ensures artifacts.Keys == (set e | e in Matrix(x.config)) <==> forall e :: e in artifacts <==> Expected(x.config, e)
  {
    forall e ensures e in Matrix(x.config) <==> Expected(x.config, e) { MatrixExact(x.config, e); }
    if forall e :: e in artifacts <==> Expected(x.config, e) {
      assert forall e :: e in artifacts.Keys <==> e in (set e | e in Matrix(x.config));
    }
  }

  lemma {:induction false} EntriesExact(x: Context, entries: seq<Entry>, artifacts: map<Entry, Artifact>)
    requires artifacts.Keys == (set e | e in entries) && forall e :: e in artifacts <==> Expected(x.config, e)
    ensures (AllVerified(x, entries, artifacts) && (forall j :: 0 <= j < |entries| ==> artifacts[entries[j]].report.identity == x.identity)
             && AllMatch(x, entries, artifacts) && AllSound(x, entries, artifacts))
       <==> AllInOrder(x, artifacts)
    ensures Agree(entries, artifacts) <==> OneManifest(artifacts)
  {
    assert forall e :: e in entries <==> e in artifacts.Keys;
    ByEntry(x, entries, artifacts);
    AgreeExact(entries, artifacts);
    CheckedInOrder(x, artifacts);
  }

  lemma {:induction false} CompleteExact(x: Context, artifacts: map<Entry, Artifact>)
    requires artifacts.Keys == (set e | e in Matrix(x.config)) && forall e :: e in artifacts <==> Expected(x.config, e)
    ensures Accepts(x, artifacts) <==> Demanded(x, artifacts)
  {
    EntriesExact(x, Matrix(x.config), artifacts);
  }

  /** The checks the script makes, in its order and over its matrix, come to what is demanded of every shard. */
  lemma {:induction false} AcceptsExactly(x: Context, artifacts: map<Entry, Artifact>)
    ensures Accepts(x, artifacts) <==> Demanded(x, artifacts)
  {
    KeysExact(x, artifacts);
    if artifacts.Keys == (set e | e in Matrix(x.config)) {
      CompleteExact(x, artifacts);
    }
  }

  method VerifiedReports(x: Context, entries: seq<Entry>, artifacts: map<Entry, Artifact>) returns (ok: bool)
    requires forall e :: e in entries ==> e in artifacts
    ensures ok <==> AllVerified(x, entries, artifacts)
  {
    var i := 0;
    while i < |entries|
      invariant 0 <= i <= |entries|
      invariant forall j :: 0 <= j < i ==> ReportVerified(x, artifacts[entries[j]])
    {
      if !ReportVerified(x, artifacts[entries[i]]) {
        return false;
      }
      i := i + 1;
    }
    return true;
  }

  /** The `per_group` dictionary: one manifest for each group, shared by its shards. */
  method CollectManifests(x: Context, entries: seq<Entry>, artifacts: map<Entry, Artifact>)
    returns (ok: bool, perGroup: map<Group, Manifest>)
    requires forall e :: e in entries ==> e in artifacts
    ensures ok <==> AllMatch(x, entries, artifacts) && Agree(entries, artifacts)
    ensures ok ==> Collected(entries, artifacts, perGroup)
  {
    perGroup := map[];
    var i := 0;
    while i < |entries|
      invariant 0 <= i <= |entries|
      invariant forall j :: 0 <= j < i ==> EntryMatches(x, entries[j], artifacts[entries[j]])
      invariant forall j :: 0 <= j < i ==>
        entries[j].group in perGroup && perGroup[entries[j].group] == artifacts[entries[j]].manifest
      invariant forall g :: g in perGroup ==> exists j :: 0 <= j < i && entries[j].group == g
    {
      var e := entries[i];
      var manifest := artifacts[e].manifest;
      if !EntryMatches(x, e, artifacts[e]) {
        return false, perGroup;
      }
      if e.group in perGroup && manifest != perGroup[e.group] {
        return false, perGroup;
      }
      perGroup := perGroup[e.group := manifest];
      i := i + 1;
    }
    ok := true;
  }

  method ManifestsSound(x: Context, perGroup: map<Group, Manifest>) returns (ok: bool)
    ensures ok <==> forall g :: g in perGroup ==> ManifestSound(x, g, perGroup[g])
  {
    var pending := perGroup.Keys;
    while pending != {}
      invariant pending <= perGroup.Keys
      invariant forall g :: g in perGroup && g !in pending ==> ManifestSound(x, g, perGroup[g])
    {
      var g :| g in pending;
      if !ManifestSound(x, g, perGroup[g]) {
        return false;
      }
      pending := pending - {g};
    }
    return true;
  }

  /** `verify_run`: every report first, then identities, then the manifests group by group. */
  method VerifyRun(x: Context, artifacts: map<Entry, Artifact>) returns (ok: bool)
    ensures ok <==> Accepts(x, artifacts)
    ensures ok <==> Demanded(x, artifacts)
  {
    AcceptsExactly(x, artifacts);
    var entries := Matrix(x.config);
    if !ValidConfig(x.config) || artifacts.Keys != (set e | e in entries) || x.identity.dirty {
      return false;
    }
    var verified := VerifiedReports(x, entries, artifacts);
    if !verified || exists j :: 0 <= j < |entries| && artifacts[entries[j]].report.identity != x.identity {
      return false;
    }
    var same, perGroup := CollectManifests(x, entries, artifacts);
    if !same {
      return false;
    }
    CollectedManifests(x, artifacts, perGroup);
    var sound := ManifestsSound(x, perGroup);
    ok := sound && NoDuplicates(perGroup[SpecGroup].packages + perGroup[CmdGroup].packages + perGroup[RestGroup].packages);
  }

  /** Looking a group up in the dictionary is looking at any of its shards. */
  lemma {:induction false} CollectedManifests(x: Context, artifacts: map<Entry, Artifact>, perGroup: map<Group, Manifest>)
    requires ValidConfig(x.config)
    requires artifacts.Keys == (set e | e in Matrix(x.config))
    requires Collected(Matrix(x.config), artifacts, perGroup)
    ensures (forall g :: g in perGroup ==> ManifestSound(x, g, perGroup[g])) <==> AllSound(x, Matrix(x.config), artifacts)
    ensures SpecGroup in perGroup && CmdGroup in perGroup && RestGroup in perGroup
    ensures DisjointPackages(x, artifacts)
       <==> NoDuplicates(perGroup[SpecGroup].packages + perGroup[CmdGroup].packages + perGroup[RestGroup].packages)
  {
    var entries := Matrix(x.config);
    EveryGroupSeen(x);
    var i :| 0 <= i < |entries| && entries[i] == Entry(SpecGroup, 0, x.config.spec);
    var j :| 0 <= j < |entries| && entries[j] == Entry(CmdGroup, 0, x.config.cmd);
    var k :| 0 <= k < |entries| && entries[k] == Entry(RestGroup, 0, 1);
    if AllSound(x, entries, artifacts) {
      forall g | g in perGroup ensures ManifestSound(x, g, perGroup[g]) {
        var n :| 0 <= n < |entries| && entries[n].group == g;
      }
    }
  }

  ghost predicate GroupsSeen(x: Context, entries: seq<Entry>) {
    && Entry(SpecGroup, 0, x.config.spec) in entries
    && Entry(CmdGroup, 0, x.config.cmd) in entries
    && Entry(RestGroup, 0, 1) in entries
  }

  lemma {:induction false} EveryGroupSeen(x: Context)
    requires ValidConfig(x.config)
    ensures GroupsSeen(x, Matrix(x.config))
    ensures forall g, i :: 0 <= i < Count(x.config, g) ==> Entry(g, i, Count(x.config, g)) in Matrix(x.config)
  {
    var spec, cmd, rest := GroupEntries(SpecGroup, x.config.spec), GroupEntries(CmdGroup, x.config.cmd), GroupEntries(RestGroup, 1);
    assert spec[0] in Matrix(x.config) && cmd[0] in Matrix(x.config) && rest[0] in Matrix(x.config);
    forall g, i | 0 <= i < Count(x.config, g) ensures Entry(g, i, Count(x.config, g)) in Matrix(x.config) {
      match g
      case SpecGroup => assert spec[i] in spec;
      case CmdGroup => assert cmd[i] in cmd;
      case RestGroup => assert rest[i] in rest;
    }
  }

  // What acceptance means for one shard.

  lemma {:induction false} TopLevelMembers(tests: seq<Events.TestResult>, name: string)
    ensures name in TopLevelNames(tests) <==> '/' !in name && Named(tests, name)
  {
    if tests != [] {
      var n := |tests| - 1;
      TopLevelMembers(tests[..n], name);
      if i :| 0 <= i < |tests| && tests[i].name == name {
        assert i < n ==> tests[..n][i].name == name;
      }
      if i :| 0 <= i < n && tests[..n][i].name == name {
        assert tests[i].name == name;
      }
    }
  }

  ghost predicate Named(tests: seq<Events.TestResult>, name: string) {
    exists i :: 0 <= i < |tests| && tests[i].name == name
  }

  lemma {:induction false} OnePackage(tests: seq<Events.TestResult>, package: string, key: Events.Key)
    requires forall i :: 0 <= i < |tests| ==> tests[i].package == package
    ensures Events.Lists(tests, key) <==> key.0 == package && Named(tests, key.1)
  {
    if i :| 0 <= i < |tests| && tests[i].name == key.1 {
      assert tests[i].package == package;
    }
  }

  /** When the report covers one package, its top-level tests are exactly those with events. */
  lemma {:induction false} SelectionExact(lines: seq<Events.Line>, r: Events.Report, package: string, key: Events.Key)
    requires Events.ReportOf(lines) == Ok(r) && r.packages.Keys == {package} && '/' !in key.1
    ensures Events.EventsAbout(lines, Events.OfTest(key)) != []
            <==> key.0 == package && key.1 in Sort(TopLevelNames(r.tests))
  {
    AllOfPackage(lines, r, package);
    OnePackage(r.tests, package, key);
    Events.ReportLists(lines, r, key);
    SelectedNames(r.tests, key.1);
  }

  lemma {:induction false} SelectedNames(tests: seq<Events.TestResult>, name: string)
    requires '/' !in name
    ensures name in Sort(TopLevelNames(tests)) <==> Named(tests, name)
  {
    TopLevelMembers(tests, name);
    SortKeepsMembers(TopLevelNames(tests));
  }

  lemma {:induction false} AllOfPackage(lines: seq<Events.Line>, r: Events.Report, package: string)
    requires Events.ReportOf(lines) == Ok(r) && r.packages.Keys == {package}
    ensures forall i :: 0 <= i < |r.tests| ==> r.tests[i].package == package
  {
    forall i | 0 <= i < |r.tests| ensures r.tests[i].package == package {
      Events.ReportLists(lines, r, (r.tests[i].package, r.tests[i].name));
      assert r.tests[i].package in r.packages.Keys;
    }
  }

  /** What acceptance says of one shard of a partitioned group. */
  ghost predicate ShardSound(x: Context, g: Group, i: nat, plan: Plan, a: Artifact) {
    && a.manifest.plan == Ok(plan)
    && g in x.fixedPackage
    && |plan.shards| == Count(x.config, g)
    && Events.ReportOf(a.events) == Ok(a.report.observed)
    && a.report.observed.packages.Keys == {x.fixedPackage[g]}
    && i < |plan.shards|
    && Sort(TopLevelNames(a.report.observed.tests)) == plan.shards[i]
    && DiscoveredNames(a.discovery, x.fixedPackage[g], x.listed) == Ok(plan.discovered)
  }

  lemma {:induction false} SoundShard(x: Context, g: Group, i: nat, a: Artifact)
    requires g != RestGroup && i < Count(x.config, g)
    requires ReportVerified(x, a) && EntryMatches(x, Entry(g, i, Count(x.config, g)), a) && ManifestSound(x, g, a.manifest)
    ensures ShardSound(x, g, i, a.manifest.plan.value, a)
  {
    var plan := a.manifest.plan.value;
    PlanSize(plan.discovered, Count(x.config, g), Measured(x, g), x.isTestName);
    assert a.manifest.packages == [x.fixedPackage[g]];
    assert (set p | p in a.manifest.packages) == {x.fixedPackage[g]};
    assert SelectionMatches(a.report.observed, a.manifest, i);
  }

  lemma {:induction false} AcceptedEntry(x: Context, artifacts: map<Entry, Artifact>, g: Group, i: nat)
    requires Accepts(x, artifacts) && i < Count(x.config, g)
    ensures var e := Entry(g, i, Count(x.config, g));
            && e in artifacts && ReportVerified(x, artifacts[e]) && EntryMatches(x, e, artifacts[e])
            && ManifestSound(x, g, artifacts[e].manifest)
    ensures Entry(g, 0, Count(x.config, g)) in artifacts
    ensures artifacts[Entry(g, i, Count(x.config, g))].manifest == artifacts[Entry(g, 0, Count(x.config, g))].manifest
  {
    EveryGroupSeen(x);
    var e, first := Entry(g, i, Count(x.config, g)), Entry(g, 0, Count(x.config, g));
    var entries := Matrix(x.config);
    assert e in artifacts.Keys && first in artifacts.Keys;
    var j :| 0 <= j < |entries| && entries[j] == e;
    var k :| 0 <= k < |entries| && entries[k] == first;
    assert entries[j].group == entries[k].group;
  }

  /** Every shard of an accepted group recorded the same sound partition of the tests it discovered. */
  lemma {:induction false} AcceptedShard(x: Context, artifacts: map<Entry, Artifact>, g: Group) returns (plan: Plan)
    requires Accepts(x, artifacts) && g != RestGroup
    ensures Acceptable(plan.discovered, Count(x.config, g), Measured(x, g), x.isTestName)
    ensures plan == PlanOf(plan.discovered, Count(x.config, g), Measured(x, g))
    ensures forall i :: 0 <= i < Count(x.config, g) ==>
      Entry(g, i, Count(x.config, g)) in artifacts && ShardSound(x, g, i, plan, artifacts[Entry(g, i, Count(x.config, g))])
  {
    var total := Count(x.config, g);
    AcceptedEntry(x, artifacts, g, 0);
    plan := artifacts[Entry(g, 0, total)].manifest.plan.value;
    forall i | 0 <= i < total ensures Entry(g, i, total) in artifacts && ShardSound(x, g, i, plan, artifacts[Entry(g, i, total)]) {
      AcceptedEntry(x, artifacts, g, i);
      SoundShard(x, g, i, artifacts[Entry(g, i, total)]);
    }
  }

  function RunCount(evs: seq<Events.Event>): nat {
    if evs == [] then 0
    else RunCount(evs[..|evs| - 1]) + if evs[|evs| - 1].action.Run? then 1 else 0
  }

  lemma {:induction false} OpenTestRunsOnce(evs: seq<Events.Event>)
    requires Events.OpenTest(evs)
    ensures RunCount(evs) == 1
  {
    if |evs| > 1 {
      OpenTestRunsOnce(evs[..|evs| - 1]);
    }
  }

  lemma {:induction false} LifecycleRunsOnce(evs: seq<Events.Event>)
    requires Events.TestLifecycle(evs)
    ensures RunCount(evs) == 1
  {
    OpenTestRunsOnce(evs[..|evs| - 1]);
  }

  /** How often a test started across the first `shards` shards of its group. */
  function Executions(x: Context, artifacts: map<Entry, Artifact>, g: Group, shards: nat, key: Events.Key): nat
    requires forall i :: 0 <= i < shards ==> Entry(g, i, Count(x.config, g)) in artifacts
  {
    if shards == 0 then 0
    else
      Executions(x, artifacts, g, shards - 1, key)
      + RunCount(Events.EventsAbout(artifacts[Entry(g, shards - 1, Count(x.config, g))].events, Events.OfTest(key)))
  }

  lemma {:induction false} ExecutionsOfOwner(x: Context, artifacts: map<Entry, Artifact>, g: Group, shards: nat, key: Events.Key, owner: nat)
    requires forall i :: 0 <= i < shards ==> Entry(g, i, Count(x.config, g)) in artifacts
    requires forall i :: 0 <= i < shards ==>
      RunCount(Events.EventsAbout(artifacts[Entry(g, i, Count(x.config, g))].events, Events.OfTest(key))) == if i == owner then 1 else 0
    ensures Executions(x, artifacts, g, shards, key) == if owner < shards then 1 else 0
  {
    if shards > 0 {
      ExecutionsOfOwner(x, artifacts, g, shards - 1, key, owner);
    }
  }

  /** Exactly one shard of a partition holds a given test. */
  lemma {:induction false} OwningShard(discovered: seq<string>, total: nat, measured: map<string, int>, isTestName: string -> bool, name: string)
    returns (owner: nat)
    requires Acceptable(discovered, total, measured, isTestName) && name in discovered
    ensures owner < total
    ensures forall i :: 0 <= i < total ==> (name in PlanOf(discovered, total, measured).shards[i] <==> i == owner)
  {
    PlanCovers(discovered, total, measured, isTestName);
    var shards := PlanOf(discovered, total, measured).shards;
    assert name in multiset(discovered);
    FlattenContains(shards, name);
    owner :| 0 <= owner < total && name in shards[owner];
    NoDuplicatesByCount(Flatten(shards));
    forall i | 0 <= i < total && i != owner ensures name !in shards[i] {
      if name in shards[i] {
        if i < owner { SharedTwice(shards, i, owner, name); } else { SharedTwice(shards, owner, i, name); }
      }
    }
  }

  ghost function ShardEvents(x: Context, artifacts: map<Entry, Artifact>, g: Group, i: nat, key: Events.Key): seq<Events.Event>
    requires Entry(g, i, Count(x.config, g)) in artifacts
  {
    Events.EventsAbout(artifacts[Entry(g, i, Count(x.config, g))].events, Events.OfTest(key))
  }

  lemma {:induction false} ShardRuns(x: Context, artifacts: map<Entry, Artifact>, g: Group, i: nat, plan: Plan, name: string)
    requires Entry(g, i, Count(x.config, g)) in artifacts && '/' !in name
    requires ShardSound(x, g, i, plan, artifacts[Entry(g, i, Count(x.config, g))])
    ensures var evs := ShardEvents(x, artifacts, g, i, (x.fixedPackage[g], name));
            if name in plan.shards[i] then Events.TestLifecycle(evs) && RunCount(evs) == 1 else evs == []
  {
    var a := artifacts[Entry(g, i, Count(x.config, g))];
    var key := (x.fixedPackage[g], name);
    SelectionExact(a.events, a.report.observed, x.fixedPackage[g], key);
    Events.AcceptsExactly(a.events);
    if name in plan.shards[i] {
      LifecycleRunsOnce(Events.EventsAbout(a.events, Events.OfTest(key)));
    }
  }

  /** If the gate accepts, every discovered test of a sharded group started exactly once over all
      the group's shards, in one of them, and lived its whole lifecycle there. */
  lemma {:induction false} AcceptedRanExactlyOnce(x: Context, artifacts: map<Entry, Artifact>, g: Group, shard: nat, name: string)
    returns (owner: nat)
    requires Accepts(x, artifacts) && g != RestGroup && shard < Count(x.config, g)
    requires forall n :: x.isTestName(n) ==> '/' !in n
    requires Entry(g, shard, Count(x.config, g)) in artifacts && g in x.fixedPackage
    requires var found := DiscoveredNames(artifacts[Entry(g, shard, Count(x.config, g))].discovery, x.fixedPackage[g], x.listed);
             found.Ok? && name in found.value
    ensures forall i :: 0 <= i < Count(x.config, g) ==> Entry(g, i, Count(x.config, g)) in artifacts
    ensures owner < Count(x.config, g)
    ensures Executions(x, artifacts, g, Count(x.config, g), (x.fixedPackage[g], name)) == 1
    ensures Events.TestLifecycle(ShardEvents(x, artifacts, g, owner, (x.fixedPackage[g], name)))
  {
    var total := Count(x.config, g);
    var plan := AcceptedShard(x, artifacts, g);
    assert ShardSound(x, g, shard, plan, artifacts[Entry(g, shard, total)]);
    assert x.isTestName(name);
    owner := OwningShard(plan.discovered, total, Measured(x, g), x.isTestName, name);
    forall i | 0 <= i < total
      ensures RunCount(Events.EventsAbout(artifacts[Entry(g, i, total)].events, Events.OfTest((x.fixedPackage[g], name))))
           == if i == owner then 1 else 0
      ensures i == owner ==> Events.TestLifecycle(ShardEvents(x, artifacts, g, i, (x.fixedPackage[g], name)))
    {
      ShardRuns(x, artifacts, g, i, plan, name);
    }
    ExecutionsOfOwner(x, artifacts, g, total, (x.fixedPackage[g], name), owner);
  }

  /** Nothing else ran: a top-level test with events in a shard is a discovered one of the group's package. */
  lemma {:induction false} AcceptedRanOnlyDiscovered(x: Context, artifacts: map<Entry, Artifact>, g: Group, i: nat, key: Events.Key)
    requires Accepts(x, artifacts) && g != RestGroup && i < Count(x.config, g) && '/' !in key.1
    requires Entry(g, i, Count(x.config, g)) in artifacts && ShardEvents(x, artifacts, g, i, key) != []
    ensures g in x.fixedPackage && key.0 == x.fixedPackage[g]
    ensures var found := DiscoveredNames(artifacts[Entry(g, i, Count(x.config, g))].discovery, x.fixedPackage[g], x.listed);
            found.Ok? && key.1 in found.value
  {
    var plan := AcceptedShard(x, artifacts, g);
    var a := artifacts[Entry(g, i, Count(x.config, g))];
    assert ShardSound(x, g, i, plan, a);
    SelectionExact(a.events, a.report.observed, x.fixedPackage[g], key);
    PlanCovers(plan.discovered, Count(x.config, g), Measured(x, g), x.isTestName);
    FlattenMembers(plan.shards, i);
    assert key.1 in multiset(plan.shards[i]);
    assert key.1 in multiset(plan.discovered);
  }
}
