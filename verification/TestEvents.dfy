/** `_events_report` of scripts/ci-go-test-shards.py: a fold over the lines of a `go test -json`
    stream that follows every test and every package through its lifecycle. */
module TestEvents {
  import opened Ordering
  import opened Outcomes

  /** A JSON value where the reader expects text: absent, text, or anything else. A null Package, Test or ImportPath
      reads as absent; a null Output is `Other`. */
  datatype Field = Missing | Text(text: string) | Other

  /** The `Elapsed` field: absent counts as zero; null, booleans, text, NaN and infinities are bad. */
  datatype Elapsed = Absent | Number(value: real) | BadNumber

  /** The `Action` field: the actions of `go test -json`, other text, or no text at all. */
  datatype Action =
    | Start | Run | Pause | Cont | Pass | Skip | Fail | Output
    | BuildOutput | BuildFail | UnknownAction | NoAction

  datatype Event = Event(action: Action, package: Field, test: Field, importPath: Field, elapsed: Elapsed, output: Field)

  datatype Line = Truncated | Malformed | NotObject | Object(event: Event)

  datatype Verdict = Pending | Passed | Skipped | Failed

  datatype TestRow = TestRow(runs: nat, verdict: Verdict, elapsed: real, skipReason: string)

  datatype PackageRow = PackageRow(started: bool, verdict: Verdict, elapsed: real)

  type Key = (string, string)

  /** The two dictionaries the loop fills. */
  datatype Tables = Tables(packages: map<string, PackageRow>, tests: map<Key, TestRow>)

  datatype TestResult = TestResult(package: string, name: string, row: TestRow)

  datatype Report = Report(packages: map<string, PackageRow>, tests: seq<TestResult>)

  /** What a line is about. */
  datatype Subject = Bad | Ignored | OfTest(key: Key) | OfPackage(package: string)

  predicate NonEmptyText(f: Field) {
    f.Text? && f.text != ""
  }

  function Classify(line: Line): Subject {
    if !line.Object? then Bad
    else
      var e := line.event;
      if e.action.BuildOutput? then
        if NonEmptyText(e.importPath) then Ignored else Bad
      else if e.action.BuildFail? || e.action.NoAction? || e.action.UnknownAction? then Bad
      else if !NonEmptyText(e.package) then Bad
      else if e.test == Missing then OfPackage(e.package.text)
      else if NonEmptyText(e.test) then OfTest((e.package.text, e.test.text))
      else Bad
  }

  predicate ValidElapsed(e: Event) {
    e.elapsed.Absent? || (e.elapsed.Number? && e.elapsed.value >= 0.0)
  }

  function Seconds(e: Event): real {
    if e.elapsed.Number? then e.elapsed.value else 0.0
  }

  predicate ValidOutput(e: Event) {
    !e.output.Other?
  }

  function OutputText(e: Event): string {
    if e.output.Text? then e.output.text else ""
  }

  predicate IsSpace(c: char) {
    c in " \t\n\r" || '\U{b}' <= c <= '\U{c}' || '\U{1c}' <= c <= '\U{1f}' || c in {'\U{85}', '\U{a0}', '\U{1680}'}
    || '\U{2000}' <= c <= '\U{200a}' || c in {'\U{2028}', '\U{2029}', '\U{202f}', '\U{205f}', '\U{3000}'}
  }

  function StripLeft(s: string): string {
    if s != [] && IsSpace(s[0]) then StripLeft(s[1..]) else s
  }

  function StripRight(s: string): string {
    if s != [] && IsSpace(s[|s| - 1]) then StripRight(s[..|s| - 1]) else s
  }

  /** The reason kept for a skip: the last output that is not one of Go's own markers. */
  function NextReason(reason: string, output: string): string {
    var text := StripRight(StripLeft(output));
    if text == "" || "===" <= text || "---" <= text then reason
    else if |text| > 1000 then text[..1000] else text
  }

  function VerdictOf(action: Action): Verdict {
    if action.Pass? then Passed else if action.Skip? then Skipped else Failed
  }

  predicate Terminal(action: Action) {
    action.Pass? || action.Skip? || action.Fail?
  }

  // One event against one row.

  function TestStep(row: Result<TestRow>, e: Event): Result<TestRow> {
    if row.Rejected? then
      if e.action.Run? then Ok(TestRow(1, Pending, 0.0, "")) else Rejected
    else if row.value.verdict != Pending then Rejected
    else if e.action.Run? then Rejected
    else if e.action.Output? then
      if ValidOutput(e) then Ok(row.value.(skipReason := NextReason(row.value.skipReason, OutputText(e)))) else Rejected
    else if Terminal(e.action) then
      if ValidElapsed(e) then
        Ok(row.value.(verdict := VerdictOf(e.action), elapsed := Seconds(e),
                      skipReason := if e.action.Skip? then row.value.skipReason else ""))
      else Rejected
    else if e.action.Pause? || e.action.Cont? then row
    else Rejected
  }

  function PackageStep(row: Result<PackageRow>, e: Event): Result<PackageRow> {
    var had := if row.Ok? then row.value else PackageRow(false, Pending, 0.0);
    if had.verdict != Pending then Rejected
    else if e.action.Start? then
      if had.started then Rejected else Ok(had.(started := true))
    else if Terminal(e.action) then
      if had.started && ValidElapsed(e) then Ok(had.(verdict := VerdictOf(e.action), elapsed := Seconds(e))) else Rejected
    else if e.action.Output? then Ok(had)
    else Rejected
  }

  /** The row of a dictionary, refused when there is none. */
  function RowOf<K, V>(m: map<K, V>, k: K): Result<V> {
    match Find(m, k) case Some(row) => Ok(row) case None => Rejected
  }

  function Step(t: Tables, line: Line): Result<Tables> {
    match Classify(line)
    case Bad => Rejected
    case Ignored => Ok(t)
    case OfTest(key) =>
      var row := TestStep(RowOf(t.tests, key), line.event);
      if row.Ok? then Ok(t.(tests := t.tests[key := row.value])) else Rejected
    case OfPackage(p) =>
      var row := PackageStep(RowOf(t.packages, p), line.event);
      if row.Ok? then Ok(t.(packages := t.packages[p := row.value])) else Rejected
  }

  function Fold(lines: seq<Line>): Result<Tables> {
    if lines == [] then Ok(Tables(map[], map[]))
    else
      var front := Fold(lines[..|lines| - 1]);
      if front.Ok? then Step(front.value, lines[|lines| - 1]) else Rejected
  }

  predicate Succeeded(v: Verdict) {
    v == Passed || v == Skipped
  }

  predicate Complete(t: Tables) {
    && t.packages != map[]
    && (forall p :: p in t.packages ==> Succeeded(t.packages[p].verdict))
    && (forall k :: k in t.tests ==> k.0 in t.packages && Succeeded(t.tests[k].verdict))
  }

  function Rows(keys: seq<Key>, tests: map<Key, TestRow>): (r: seq<TestResult>)
    requires forall i :: 0 <= i < |keys| ==> keys[i] in tests
    ensures |r| == |keys| && forall i :: 0 <= i < |r| ==> r[i] == TestResult(keys[i].0, keys[i].1, tests[keys[i]])
  {
    seq(|keys|, i requires 0 <= i < |keys| => TestResult(keys[i].0, keys[i].1, tests[keys[i]]))
  }

  lemma {:induction false} RowsHoldAll(keys: seq<Key>, tests: map<Key, TestRow>, k: Key)
    requires k in tests && (forall i :: 0 <= i < |keys| ==> keys[i] in tests) && k in keys
    ensures TestResult(k.0, k.1, tests[k]) in Rows(keys, tests)
  {
    var i :| 0 <= i < |keys| && keys[i] == k;
    assert Rows(keys, tests)[i] == TestResult(k.0, k.1, tests[k]);
  }

  function Listing(tests: map<Key, TestRow>): (r: seq<TestResult>)
    ensures forall i :: 0 <= i < |r| ==> (r[i].package, r[i].name) in tests && r[i].row == tests[(r[i].package, r[i].name)]
    ensures forall i, j :: 0 <= i < j < |r| ==> (r[i].package, r[i].name) != (r[j].package, r[j].name)
    ensures forall k :: k in tests ==> TestResult(k.0, k.1, tests[k]) in r
  {
    PairLessEqIsTotalOrder();
    var keys := SortedSet(tests.Keys, PairLessEq);
    assert forall i :: 0 <= i < |keys| ==> keys[i] in keys;
    assert forall k :: k in tests ==> TestResult(k.0, k.1, tests[k]) in Rows(keys, tests) by {
      forall k | k in tests ensures TestResult(k.0, k.1, tests[k]) in Rows(keys, tests) { RowsHoldAll(keys, tests, k); }
    }
    Rows(keys, tests)
  }

  /** The result of the whole stream. */
  function ReportOf(lines: seq<Line>): Result<Report> {
    var t := Fold(lines);
    if t.Ok? && Complete(t.value) then Ok(Report(t.value.packages, Listing(t.value.tests))) else Rejected
  }

  /** The streaming loop with its two dictionaries. */
  method EventsReport(lines: seq<Line>) returns (r: Result<Report>)
    ensures r == ReportOf(lines)
  {
    var packages: map<string, PackageRow> := map[];
    var tests: map<Key, TestRow> := map[];
    var number := 0;
    while number < |lines|
      invariant 0 <= number <= |lines|
      invariant Fold(lines[..number]) == Ok(Tables(packages, tests))
    {
      var line := lines[number];
      assert lines[..number + 1][..number] == lines[..number];
      match Classify(line) {
        case Bad =>
          FoldRejectsExtension(lines, number + 1);
          return Rejected;
        case Ignored =>
        case OfTest(key) =>
          var row := TestStep(RowOf(tests, key), line.event);
          if row.Rejected? {
            FoldRejectsExtension(lines, number + 1);
            return Rejected;
          }
          tests := tests[key := row.value];
        case OfPackage(p) =>
          var row := PackageStep(RowOf(packages, p), line.event);
          if row.Rejected? {
            FoldRejectsExtension(lines, number + 1);
            return Rejected;
          }
          packages := packages[p := row.value];
      }
      number := number + 1;
    }
    assert lines[..number] == lines;
    r := if Complete(Tables(packages, tests)) then Ok(Report(packages, Listing(tests))) else Rejected;
  }

  lemma {:induction false} FoldRejectsExtension(lines: seq<Line>, n: nat)
    requires n <= |lines| && Fold(lines[..n]).Rejected?
    ensures Fold(lines).Rejected?
  {
    if n < |lines| {
      var front := lines[..|lines| - 1];
      assert front[..n] == lines[..n];
      FoldRejectsExtension(front, n);
    } else {
      assert lines[..n] == lines;
    }
  }

  // The stream as each test and each package sees it.

  function EventsAbout(lines: seq<Line>, s: Subject): (r: seq<Event>)
    requires s.OfTest? || s.OfPackage?
  {
    if lines == [] then []
    else
      var n := |lines| - 1;
      EventsAbout(lines[..n], s) + if Classify(lines[n]) == s then [lines[n].event] else []
  }

  function RunTest(evs: seq<Event>): Result<TestRow>
  {
    if evs == [] then Rejected
    else
      var n := |evs| - 1;
      if n > 0 && RunTest(evs[..n]).Rejected? then Rejected else TestStep(RunTest(evs[..n]), evs[n])
  }

  function RunPackage(evs: seq<Event>): Result<PackageRow>
  {
    if evs == [] then Rejected
    else
      var n := |evs| - 1;
      if n > 0 && RunPackage(evs[..n]).Rejected? then Rejected else PackageStep(RunPackage(evs[..n]), evs[n])
  }

  ghost predicate TestsFollow(lines: seq<Line>) {
    forall k: Key :: EventsAbout(lines, OfTest(k)) != [] ==> RunTest(EventsAbout(lines, OfTest(k))).Ok?
  }

  ghost predicate PackagesFollow(lines: seq<Line>) {
    forall p: string :: EventsAbout(lines, OfPackage(p)) != [] ==> RunPackage(EventsAbout(lines, OfPackage(p))).Ok?
  }

  predicate NoBadLine(lines: seq<Line>) {
    forall i :: 0 <= i < |lines| ==> Classify(lines[i]) != Bad
  }

  ghost predicate TablesMatch(lines: seq<Line>, t: Tables) {
    && (forall k: Key :: RowOf(t.tests, k) == RunTest(EventsAbout(lines, OfTest(k))))
    && (forall p: string :: RowOf(t.packages, p) == RunPackage(EventsAbout(lines, OfPackage(p))))
  }

  lemma {:induction false} FollowsFront(lines: seq<Line>)
    requires lines != [] && NoBadLine(lines) && TestsFollow(lines) && PackagesFollow(lines)
    ensures var front := lines[..|lines| - 1]; NoBadLine(front) && TestsFollow(front) && PackagesFollow(front)
  {
    var n := |lines| - 1;
    var front := lines[..n];
    forall k: Key | EventsAbout(front, OfTest(k)) != [] ensures RunTest(EventsAbout(front, OfTest(k))).Ok? {
      var all := EventsAbout(lines, OfTest(k));
      if Classify(lines[n]) == OfTest(k) {
        assert all[..|all| - 1] == EventsAbout(front, OfTest(k));
      } else {
        assert all == EventsAbout(front, OfTest(k));
      }
    }
    forall p: string | EventsAbout(front, OfPackage(p)) != [] ensures RunPackage(EventsAbout(front, OfPackage(p))).Ok? {
      var all := EventsAbout(lines, OfPackage(p));
      if Classify(lines[n]) == OfPackage(p) {
        assert all[..|all| - 1] == EventsAbout(front, OfPackage(p));
      } else {
        assert all == EventsAbout(front, OfPackage(p));
      }
    }
  }

  lemma {:induction false} AboutLast(lines: seq<Line>, s: Subject)
    requires lines != [] && (s.OfTest? || s.OfPackage?)
    ensures var n := |lines| - 1;
            var had, all := EventsAbout(lines[..n], s), EventsAbout(lines, s);
            && (Classify(lines[n]) != s ==> all == had)
            && (Classify(lines[n]) == s ==> all == had + [lines[n].event] && all[..|all| - 1] == had)
  {
  }

  lemma {:induction false} FoldFollows(lines: seq<Line>)
    requires Fold(lines).Ok?
    ensures NoBadLine(lines) && TestsFollow(lines) && PackagesFollow(lines) && TablesMatch(lines, Fold(lines).value)
  {
    if lines != [] {
      var front := lines[..|lines| - 1];
      FoldFollows(front);
      StepFollows(lines, Fold(front).value);
    }
  }

  lemma {:induction false} StepFollowsTests(lines: seq<Line>, t: Tables)
    requires lines != [] && Step(t, lines[|lines| - 1]).Ok? && TestsFollow(lines[..|lines| - 1])
    requires forall k: Key :: RowOf(t.tests, k) == RunTest(EventsAbout(lines[..|lines| - 1], OfTest(k)))
    ensures TestsFollow(lines)
    ensures forall k: Key :: RowOf(Step(t, lines[|lines| - 1]).value.tests, k) == RunTest(EventsAbout(lines, OfTest(k)))
  {
    forall k: Key
      ensures EventsAbout(lines, OfTest(k)) != [] ==> RunTest(EventsAbout(lines, OfTest(k))).Ok?
      ensures RowOf(Step(t, lines[|lines| - 1]).value.tests, k) == RunTest(EventsAbout(lines, OfTest(k)))
    {
      StepFollowsTest(lines, t, k);
    }
  }

  lemma {:induction false} StepFollowsPackages(lines: seq<Line>, t: Tables)
    requires lines != [] && Step(t, lines[|lines| - 1]).Ok? && PackagesFollow(lines[..|lines| - 1])
    requires forall p: string :: RowOf(t.packages, p) == RunPackage(EventsAbout(lines[..|lines| - 1], OfPackage(p)))
    ensures PackagesFollow(lines)
    ensures forall p: string :: RowOf(Step(t, lines[|lines| - 1]).value.packages, p) == RunPackage(EventsAbout(lines, OfPackage(p)))
  {
    forall p: string
      ensures EventsAbout(lines, OfPackage(p)) != [] ==> RunPackage(EventsAbout(lines, OfPackage(p))).Ok?
      ensures RowOf(Step(t, lines[|lines| - 1]).value.packages, p) == RunPackage(EventsAbout(lines, OfPackage(p)))
    {
      StepFollowsPackage(lines, t, p);
    }
  }

  lemma {:induction false} StepGood(lines: seq<Line>, t: Tables)
    requires lines != [] && NoBadLine(lines[..|lines| - 1]) && Step(t, lines[|lines| - 1]).Ok?
    ensures NoBadLine(lines)
  {
    var n := |lines| - 1;
    assert forall i :: 0 <= i < n ==> lines[..n][i] == lines[i];
  }

  lemma {:induction false} StepFollows(lines: seq<Line>, t: Tables)
    requires lines != [] && NoBadLine(lines[..|lines| - 1]) && Step(t, lines[|lines| - 1]).Ok?
    requires TestsFollow(lines[..|lines| - 1]) && PackagesFollow(lines[..|lines| - 1]) && TablesMatch(lines[..|lines| - 1], t)
    ensures NoBadLine(lines) && TestsFollow(lines) && PackagesFollow(lines) && TablesMatch(lines, Step(t, lines[|lines| - 1]).value)
  {
    StepGood(lines, t);
    StepFollowsTests(lines, t);
    StepFollowsPackages(lines, t);
  }

  lemma {:induction false} StepTest(t: Tables, line: Line, k: Key)
    requires Step(t, line).Ok?
    ensures RowOf(Step(t, line).value.tests, k) == if Classify(line) == OfTest(k) then TestStep(RowOf(t.tests, k), line.event) else RowOf(t.tests, k)
    ensures Classify(line) == OfTest(k) ==> TestStep(RowOf(t.tests, k), line.event).Ok?
  {
  }

  lemma {:induction false} RunTestNext(had: seq<Event>, e: Event)
    requires had == [] || RunTest(had).Ok?
    ensures RunTest(had + [e]) == TestStep(RunTest(had), e)
  {
    assert (had + [e])[..|had|] == had;
  }

  lemma {:induction false} StepFollowsTest(lines: seq<Line>, t: Tables, k: Key)
    requires lines != [] && RowOf(t.tests, k) == RunTest(EventsAbout(lines[..|lines| - 1], OfTest(k)))
    requires EventsAbout(lines[..|lines| - 1], OfTest(k)) != [] ==> RowOf(t.tests, k).Ok?
    requires Step(t, lines[|lines| - 1]).Ok?
    ensures EventsAbout(lines, OfTest(k)) != [] ==> RunTest(EventsAbout(lines, OfTest(k))).Ok?
    ensures RowOf(Step(t, lines[|lines| - 1]).value.tests, k) == RunTest(EventsAbout(lines, OfTest(k)))
  {
    var n := |lines| - 1;
    AboutLast(lines, OfTest(k));
    StepTest(t, lines[n], k);
    if Classify(lines[n]) == OfTest(k) { RunTestNext(EventsAbout(lines[..n], OfTest(k)), lines[n].event); }
  }

  lemma {:induction false} StepPackage(t: Tables, line: Line, p: string)
    requires Step(t, line).Ok?
    ensures RowOf(Step(t, line).value.packages, p) == if Classify(line) == OfPackage(p) then PackageStep(RowOf(t.packages, p), line.event) else RowOf(t.packages, p)
    ensures Classify(line) == OfPackage(p) ==> PackageStep(RowOf(t.packages, p), line.event).Ok?
  {
  }

  lemma {:induction false} RunPackageNext(had: seq<Event>, e: Event)
    requires had == [] || RunPackage(had).Ok?
    ensures RunPackage(had + [e]) == PackageStep(RunPackage(had), e)
  {
    assert (had + [e])[..|had|] == had;
  }

  lemma {:induction false} StepFollowsPackage(lines: seq<Line>, t: Tables, p: string)
    requires lines != [] && RowOf(t.packages, p) == RunPackage(EventsAbout(lines[..|lines| - 1], OfPackage(p)))
    requires EventsAbout(lines[..|lines| - 1], OfPackage(p)) != [] ==> RowOf(t.packages, p).Ok?
    requires Step(t, lines[|lines| - 1]).Ok?
    ensures EventsAbout(lines, OfPackage(p)) != [] ==> RunPackage(EventsAbout(lines, OfPackage(p))).Ok?
    ensures RowOf(Step(t, lines[|lines| - 1]).value.packages, p) == RunPackage(EventsAbout(lines, OfPackage(p)))
  {
    var n := |lines| - 1;
    AboutLast(lines, OfPackage(p));
    StepPackage(t, lines[n], p);
    if Classify(lines[n]) == OfPackage(p) { RunPackageNext(EventsAbout(lines[..n], OfPackage(p)), lines[n].event); }
  }

  lemma {:induction false} FollowsFold(lines: seq<Line>)
    requires NoBadLine(lines) && TestsFollow(lines) && PackagesFollow(lines)
    ensures Fold(lines).Ok?
  {
    if lines != [] {
      var n := |lines| - 1;
      var front := lines[..n];
      FollowsFront(lines);
      FollowsFold(front);
      FoldFollows(front);
      var t, s := Fold(front).value, Classify(lines[n]);
      if s.OfTest? {
        AboutLast(lines, s);
        assert RowOf(t.tests, s.key) == RunTest(EventsAbout(front, s));
        assert RunTest(EventsAbout(lines, OfTest(s.key))).Ok?;
      } else if s.OfPackage? {
        AboutLast(lines, s);
        assert RowOf(t.packages, s.package) == RunPackage(EventsAbout(front, s));
        assert RunPackage(EventsAbout(lines, OfPackage(s.package))).Ok?;
      }
    }
  }

  // What a line is about.

  /** The line names a non-empty package, and its action is one of a test or a package. */
  predicate InPackage(line: Line, package: string) {
    && line.Object? && package != "" && line.event.package == Text(package)
    && line.event.action in {Start, Run, Pause, Cont, Pass, Skip, Fail, Output}
  }

  predicate AboutTest(line: Line, k: Key) {
    InPackage(line, k.0) && k.1 != "" && line.event.test == Text(k.1)
  }

  predicate AboutPackage(line: Line, package: string) {
    InPackage(line, package) && line.event.test == Missing
  }

  /** The output of a build, which is passed over. */
  predicate BuildNote(line: Line) {
    line.Object? && line.event.action == BuildOutput && line.event.importPath.Text? && line.event.importPath.text != ""
  }

  /** Every line is about one test, or about one package, or a note of the build; anything else is bad. */
  lemma {:induction false} ClassifyExact(line: Line)
    ensures forall k: Key :: Classify(line) == OfTest(k) <==> AboutTest(line, k)
    ensures forall p: string :: Classify(line) == OfPackage(p) <==> AboutPackage(line, p)
    ensures Classify(line) == Ignored <==> BuildNote(line)
    ensures Classify(line) == Bad <==>
      !BuildNote(line) && (forall k: Key :: !AboutTest(line, k)) && (forall p: string :: !AboutPackage(line, p))
  {
    match Classify(line) {
      case OfTest(k) => assert AboutTest(line, k);
      case OfPackage(p) => assert AboutPackage(line, p);
      case _ =>
    }
  }

  // The lifecycles the rows accept.

  /** A pass or skip whose time is missing or a number that is not negative. */
  predicate EndsWell(e: Event) {
    (e.action == Pass || e.action == Skip) && (e.elapsed == Absent || (e.elapsed.Number? && e.elapsed.value >= 0.0))
  }

  predicate Between(e: Event) {
    e.action == Pause || e.action == Cont || (e.action == Output && e.output != Other)
  }

  /** run, then pause/cont/output, then one pass or skip. */
  predicate TestLifecycle(evs: seq<Event>) {
    && |evs| >= 2
    && evs[0].action.Run?
    && (forall i :: 0 < i < |evs| - 1 ==> Between(evs[i]))
    && EndsWell(evs[|evs| - 1])
  }

  /** Exactly one start before one pass or skip, with only output around it. */
  ghost predicate PackageLifecycle(evs: seq<Event>) {
    && evs != []
    && EndsWell(evs[|evs| - 1])
    && StartedOnce(evs[..|evs| - 1])
  }

  ghost predicate StartedOnce(evs: seq<Event>) {
    exists s :: 0 <= s < |evs| && StartsAt(evs, s)
  }

  ghost predicate StartsAt(evs: seq<Event>, s: nat) {
    && s < |evs|
    && evs[s].action.Start?
    && forall i :: 0 <= i < |evs| && i != s ==> evs[i].action.Output?
  }

  predicate OpenTest(evs: seq<Event>) {
    evs != [] && evs[0].action.Run? && forall i :: 0 < i < |evs| ==> Between(evs[i])
  }

  lemma {:induction false} OpenTestExact(evs: seq<Event>)
    ensures (RunTest(evs).Ok? && RunTest(evs).value.verdict == Pending) <==> OpenTest(evs)
  {
    if |evs| > 1 {
      var n := |evs| - 1;
      OpenTestExact(evs[..n]);
      assert OpenTest(evs) <==> OpenTest(evs[..n]) && Between(evs[n]);
    }
  }

  lemma {:induction false} TestLifecycleExact(evs: seq<Event>)
    ensures (RunTest(evs).Ok? && Succeeded(RunTest(evs).value.verdict)) <==> TestLifecycle(evs)
  {
    if |evs| > 1 {
      var n := |evs| - 1;
      OpenTestExact(evs[..n]);
      assert TestLifecycle(evs) <==> OpenTest(evs[..n]) && EndsWell(evs[n]);
    }
  }

  lemma {:induction false} OpenPackageExact(evs: seq<Event>)
    ensures evs != [] ==>
      ((RunPackage(evs).Ok? && RunPackage(evs).value.verdict == Pending && !RunPackage(evs).value.started)
       <==> forall i :: 0 <= i < |evs| ==> evs[i].action.Output?)
    ensures (RunPackage(evs).Ok? && RunPackage(evs).value.verdict == Pending && RunPackage(evs).value.started)
       <==> StartedOnce(evs)
  {
    if evs != [] {
      var n := |evs| - 1;
      var front := evs[..n];
      OpenPackageExact(front);
      if s :| 0 <= s < |evs| && StartsAt(evs, s) {
        assert s < n ==> StartsAt(front, s);
      }
      if s :| 0 <= s < |front| && StartsAt(front, s) {
        assert evs[n].action.Output? ==> StartsAt(evs, s);
      }
      if forall i :: 0 <= i < |front| ==> front[i].action.Output? {
        assert evs[n].action.Start? ==> StartsAt(evs, n);
      }
    }
  }

  lemma {:induction false} PackageLifecycleExact(evs: seq<Event>)
    ensures (RunPackage(evs).Ok? && Succeeded(RunPackage(evs).value.verdict)) <==> PackageLifecycle(evs)
  {
    if evs != [] {
      OpenPackageExact(evs[..|evs| - 1]);
    }
  }

  // What the report says of a stream.

  ghost predicate Understood(line: Line) {
    BuildNote(line) || (exists k: Key :: AboutTest(line, k)) || (exists p: string :: AboutPackage(line, p))
  }

  lemma {:induction false} UnderstoodLines(lines: seq<Line>)
    ensures NoBadLine(lines) <==> forall i :: 0 <= i < |lines| ==> Understood(lines[i])
  {
    forall i | 0 <= i < |lines| ensures Classify(lines[i]) != Bad <==> Understood(lines[i]) { ClassifyExact(lines[i]); }
  }

  /** Every test and every package lived its whole lifecycle. */
  ghost predicate WellFormedStream(lines: seq<Line>) {
    && (forall i :: 0 <= i < |lines| ==> Understood(lines[i]))
    && (exists p: string :: EventsAbout(lines, OfPackage(p)) != [])
    && (forall p: string :: EventsAbout(lines, OfPackage(p)) != [] ==> PackageLifecycle(EventsAbout(lines, OfPackage(p))))
    && (forall k: Key :: EventsAbout(lines, OfTest(k)) != [] ==>
          TestLifecycle(EventsAbout(lines, OfTest(k))) && EventsAbout(lines, OfPackage(k.0)) != [])
  }

  lemma {:induction false} RowPresence(lines: seq<Line>)
    requires Fold(lines).Ok?
    ensures forall k: Key :: k in Fold(lines).value.tests <==> EventsAbout(lines, OfTest(k)) != []
    ensures forall p: string :: p in Fold(lines).value.packages <==> EventsAbout(lines, OfPackage(p)) != []
  {
    FoldFollows(lines);
    var t := Fold(lines).value;
    forall k: Key ensures k in t.tests <==> EventsAbout(lines, OfTest(k)) != [] {
      assert RowOf(t.tests, k) == RunTest(EventsAbout(lines, OfTest(k)));
    }
    forall p: string ensures p in t.packages <==> EventsAbout(lines, OfPackage(p)) != [] {
      assert RowOf(t.packages, p) == RunPackage(EventsAbout(lines, OfPackage(p)));
    }
  }

  predicate Lists(tests: seq<TestResult>, k: Key) {
    exists i :: 0 <= i < |tests| && tests[i].name == k.1 && tests[i].package == k.0
  }

  /** The report lists exactly the tests with events, each in a package of the report. */
  lemma {:induction false} ReportLists(lines: seq<Line>, r: Report, k: Key)
    requires ReportOf(lines) == Ok(r)
    ensures EventsAbout(lines, OfTest(k)) != [] <==> Lists(r.tests, k)
    ensures forall i :: 0 <= i < |r.tests| ==> r.tests[i].package in r.packages
  {
    RowPresence(lines);
    ListingLists(Fold(lines).value.tests, k);
    forall i | 0 <= i < |r.tests| ensures r.tests[i].package in r.packages {
      assert (r.tests[i].package, r.tests[i].name) in Fold(lines).value.tests;
    }
  }

  lemma {:induction false} ListingLists(tests: map<Key, TestRow>, k: Key)
    ensures k in tests <==> Lists(Listing(tests), k)
  {
    var listed := Listing(tests);
    if k in tests {
      assert TestResult(k.0, k.1, tests[k]) in listed;
    }
    if i :| 0 <= i < |listed| && listed[i].name == k.1 && listed[i].package == k.0 {
      assert (listed[i].package, listed[i].name) == k;
    }
  }

  lemma {:induction false} AcceptedIsWellFormed(lines: seq<Line>)
    requires ReportOf(lines).Ok?
    ensures WellFormedStream(lines)
  {
    FoldFollows(lines);
    UnderstoodLines(lines);
    RowPresence(lines);
    var t := Fold(lines).value;
    var p :| p in t.packages;
    assert EventsAbout(lines, OfPackage(p)) != [];
    forall p: string | EventsAbout(lines, OfPackage(p)) != [] ensures PackageLifecycle(EventsAbout(lines, OfPackage(p))) {
      assert RowOf(t.packages, p) == RunPackage(EventsAbout(lines, OfPackage(p)));
      PackageLifecycleExact(EventsAbout(lines, OfPackage(p)));
    }
    forall k: Key | EventsAbout(lines, OfTest(k)) != []
      ensures TestLifecycle(EventsAbout(lines, OfTest(k))) && EventsAbout(lines, OfPackage(k.0)) != []
    {
      assert RowOf(t.tests, k) == RunTest(EventsAbout(lines, OfTest(k)));
      TestLifecycleExact(EventsAbout(lines, OfTest(k)));
    }
  }

  lemma {:induction false} WellFormedFolds(lines: seq<Line>)
    requires WellFormedStream(lines)
    ensures Fold(lines).Ok?
  {
    UnderstoodLines(lines);
    forall k: Key | EventsAbout(lines, OfTest(k)) != [] ensures RunTest(EventsAbout(lines, OfTest(k))).Ok? {
      TestLifecycleExact(EventsAbout(lines, OfTest(k)));
    }
    forall p: string | EventsAbout(lines, OfPackage(p)) != [] ensures RunPackage(EventsAbout(lines, OfPackage(p))).Ok? {
      PackageLifecycleExact(EventsAbout(lines, OfPackage(p)));
    }
    FollowsFold(lines);
  }

  lemma {:induction false} PackageSucceeds(lines: seq<Line>, p: string)
    requires WellFormedStream(lines) && Fold(lines).Ok? && p in Fold(lines).value.packages
    ensures Succeeded(Fold(lines).value.packages[p].verdict)
  {
    FoldFollows(lines);
    RowPresence(lines);
    assert RowOf(Fold(lines).value.packages, p) == RunPackage(EventsAbout(lines, OfPackage(p)));
    PackageLifecycleExact(EventsAbout(lines, OfPackage(p)));
  }

  lemma {:induction false} TestSucceeds(lines: seq<Line>, k: Key)
    requires WellFormedStream(lines) && Fold(lines).Ok? && k in Fold(lines).value.tests
    ensures k.0 in Fold(lines).value.packages && Succeeded(Fold(lines).value.tests[k].verdict)
  {
    FoldFollows(lines);
    RowPresence(lines);
    assert RowOf(Fold(lines).value.tests, k) == RunTest(EventsAbout(lines, OfTest(k)));
    TestLifecycleExact(EventsAbout(lines, OfTest(k)));
  }

  lemma {:induction false} WellFormedIsAccepted(lines: seq<Line>)
    requires WellFormedStream(lines)
    ensures ReportOf(lines).Ok?
  {
    WellFormedFolds(lines);
    RowPresence(lines);
    var t := Fold(lines).value;
    var some: string :| EventsAbout(lines, OfPackage(some)) != [];
    assert some in t.packages;
    forall p | p in t.packages ensures Succeeded(t.packages[p].verdict) { PackageSucceeds(lines, p); }
    forall k | k in t.tests ensures k.0 in t.packages && Succeeded(t.tests[k].verdict) { TestSucceeds(lines, k); }
  }

  /** The streaming fold accepts exactly the streams in which every lifecycle is complete. */
  lemma {:induction false} AcceptsExactly(lines: seq<Line>)
    ensures ReportOf(lines).Ok? <==> WellFormedStream(lines)
  {
    if ReportOf(lines).Ok? { AcceptedIsWellFormed(lines); }
    if WellFormedStream(lines) { WellFormedIsAccepted(lines); }
  }

  /** Two streams that differ only in how the lines of different tests and packages interleave. */
  ghost predicate SameLocalOrder(a: seq<Line>, b: seq<Line>) {
    && (NoBadLine(a) <==> NoBadLine(b))
    && (forall k: Key :: EventsAbout(a, OfTest(k)) == EventsAbout(b, OfTest(k)))
    && (forall p: string :: EventsAbout(a, OfPackage(p)) == EventsAbout(b, OfPackage(p)))
  }

  /** Interleaving does not show in the report. */
  lemma {:induction false} InterleavingIrrelevant(a: seq<Line>, b: seq<Line>)
    requires SameLocalOrder(a, b)
    ensures ReportOf(a) == ReportOf(b)
  {
    if Fold(a).Ok? {
      FoldFollows(a);
      SameFollows(a, b);
      FollowsFold(b);
      SameTables(a, b);
    } else if Fold(b).Ok? {
      FoldFollows(b);
      SameFollows(b, a);
      FollowsFold(a);
      assert false;
    }
  }

  lemma {:induction false} SameFollows(a: seq<Line>, b: seq<Line>)
    requires SameLocalOrder(a, b) && NoBadLine(a) && TestsFollow(a) && PackagesFollow(a)
    ensures NoBadLine(b) && TestsFollow(b) && PackagesFollow(b)
  {
    forall k: Key | EventsAbout(b, OfTest(k)) != [] ensures RunTest(EventsAbout(b, OfTest(k))).Ok? {
      assert EventsAbout(a, OfTest(k)) != [];
    }
    forall p: string | EventsAbout(b, OfPackage(p)) != [] ensures RunPackage(EventsAbout(b, OfPackage(p))).Ok? {
      assert EventsAbout(a, OfPackage(p)) != [];
    }
  }

  lemma {:induction false} SameTables(a: seq<Line>, b: seq<Line>)
    requires SameLocalOrder(a, b) && Fold(a).Ok? && Fold(b).Ok?
    ensures Fold(a).value == Fold(b).value
  {
    FoldFollows(a);
    FoldFollows(b);
    var t, u := Fold(a).value, Fold(b).value;
    forall k: Key ensures RowOf(t.tests, k) == RowOf(u.tests, k) {
      assert RowOf(t.tests, k) == RunTest(EventsAbout(a, OfTest(k)));
      assert EventsAbout(a, OfTest(k)) == EventsAbout(b, OfTest(k));
    }
    forall p: string ensures RowOf(t.packages, p) == RowOf(u.packages, p) {
      assert RowOf(t.packages, p) == RunPackage(EventsAbout(a, OfPackage(p)));
      assert EventsAbout(a, OfPackage(p)) == EventsAbout(b, OfPackage(p));
    }
    SameMaps(t.tests, u.tests);
    SameMaps(t.packages, u.packages);
  }

  lemma {:induction false} SameMaps<K(!new), V(!new)>(m: map<K, V>, n: map<K, V>)
    requires forall k :: RowOf(m, k) == RowOf(n, k)
    ensures m == n
  {
    forall k ensures k in m <==> k in n {
      assert RowOf(m, k) == RowOf(n, k);
    }
    forall k | k in m ensures m[k] == n[k] {
      assert RowOf(m, k) == RowOf(n, k);
    }
  }
}
