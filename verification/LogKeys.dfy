/** Private keys that the boundary between two maintenances cuts (internal/ansible/log_policy.go): what the log shows for
    lines that reached it in batches, whatever key was open when a batch ended. */
module LogKeys {
  import opened Redaction
  import opened LogScan
  import opened LogHistory
  import opened LogAppend
  import opened LogPass

  // Lines judged one by one.

  /** What lines are written as, and the redactor after them. */
  datatype LinesRun = LinesRun(redactor: Redactor, texts: seq<string>)

  /** The redactor of a new scan, made from the key state a record saved. */
  function Resumed(r: Redactor): Redactor {
    Redactor(Carry(r.state), "")
  }

  /** Lines judged one after the other, a new scan starting before each line in `cuts`. */
  function RunLines(rules: Rules, r: Redactor, lines: seq<string>, cuts: set<nat>): (run: LinesRun)
    ensures |run.texts| == |lines|
  {
    if lines == [] then LinesRun(r, [])
    else
      var n := |lines| - 1;
      var before := RunLines(rules, r, lines[..n], cuts);
      var j := Redact(rules, if n in cuts then Resumed(before.redactor) else before.redactor, lines[n]);
      LinesRun(j.after, before.texts + [j.text])
  }

  function Text(lines: seq<string>): string {
    if lines == [] then "" else Text(lines[..|lines| - 1]) + lines[|lines| - 1]
  }

  predicate AreLines(lines: seq<string>) {
    forall i :: 0 <= i < |lines| ==> IsLine(lines[i]) && Complete(lines[i])
  }

  /** The cuts of the lines after the first `n`. */
  function After(cuts: set<nat>, n: nat): set<nat> {
    set c: nat | c in cuts && c >= n :: c - n
  }

  lemma {:induction false} CutAfter(cuts: set<nat>, n: nat, i: nat)
    ensures i in After(cuts, n) <==> n + i in cuts
  {
    if n + i in cuts { assert (n + i) - n == i; }
  }

  lemma {:induction false} RunLinesSplit(rules: Rules, r: Redactor, a: seq<string>, b: seq<string>, cuts: set<nat>)
    ensures var x := RunLines(rules, r, a, cuts);
            var y := RunLines(rules, x.redactor, b, After(cuts, |a|));
            RunLines(rules, r, a + b, cuts) == LinesRun(y.redactor, x.texts + y.texts)
    decreases |b|
  {
    var x := RunLines(rules, r, a, cuts);
    if b == [] {
      assert a + b == a && x.texts + [] == x.texts;
    } else {
      var n := |b| - 1;
      assert (a + b)[..|a + b| - 1] == a + b[..n];
      RunLinesSplit(rules, r, a, b[..n], cuts);
      CutAfter(cuts, |a|, n);
      var y := RunLines(rules, x.redactor, b[..n], After(cuts, |a|));
      var j := Redact(rules, if n in After(cuts, |a|) then Resumed(y.redactor) else y.redactor, b[n]);
      assert (x.texts + y.texts) + [j.text] == x.texts + (y.texts + [j.text]);
    }
  }

  lemma {:induction false} RunLinesSame(rules: Rules, r: Redactor, lines: seq<string>, a: set<nat>, b: set<nat>)
    requires forall i :: 0 <= i < |lines| ==> (i in a <==> i in b)
    ensures RunLines(rules, r, lines, a) == RunLines(rules, r, lines, b)
  {
    if lines != [] { RunLinesSame(rules, r, lines[..|lines| - 1], a, b); }
  }

  /** Starting a new scan before the first line is starting from the resumed redactor. */
  lemma {:induction false} RunLinesFirst(rules: Rules, r: Redactor, lines: seq<string>)
    requires lines != []
    ensures RunLines(rules, r, lines, {0}) == RunLines(rules, Resumed(r), lines, {})
  {
    if |lines| > 1 {
      RunLinesFirst(rules, r, lines[..|lines| - 1]);
    } else {
      assert lines[..0] == [];
    }
  }

  // One scan over whole lines.

  lemma {:induction false} LineOfLine(line: string)
    requires IsLine(line) && Complete(line)
    ensures line != "" && LineLength(line) == |line|
  {
    var n := LineLength(line);
    assert line[..n][n - 1] == line[n - 1];
  }

  lemma {:induction false} TextWhole(lines: seq<string>)
    requires AreLines(lines)
    ensures WholeLines(Text(lines)) && (lines != [] ==> Text(lines) != "")
  {
    if lines != [] {
      var n := |lines| - 1;
      assert forall i :: 0 <= i < n ==> lines[..n][i] == lines[i];
      TextWhole(lines[..n]);
      LineOfLine(lines[n]);
      EndsAs(Text(lines[..n]), lines[n]);
    }
  }

  lemma {:induction false} EndsAs(a: string, line: string)
    requires line != "" && Complete(line)
    ensures Complete(a + line) && a + line != ""
  {
    assert (a + line)[|a + line| - 1] == line[|line| - 1];
  }

  lemma {:induction false} PassOfLine(rules: Rules, r: Redactor, line: string)
    requires IsLine(line) && Complete(line)
    ensures var j := Redact(rules, r, line); Pass(rules, r, line) == Replayed(j.after, j.text)
  {
    LineOfLine(line);
    var n := |line|;
    assert line[..n] == line && line[n..] == "";
    var j := Redact(rules, r, line);
    assert Pass(rules, j.after, "") == Replayed(j.after, "");
    assert j.text + "" == j.text;
  }

  /** A pass over the text of lines judges the lines. */
  lemma {:induction false} PassOfLines(rules: Rules, r: Redactor, lines: seq<string>)
    requires AreLines(lines)
    ensures var run := RunLines(rules, r, lines, {}); Pass(rules, r, Text(lines)) == Replayed(run.redactor, Text(run.texts))
  {
    if lines != [] {
      var n := |lines| - 1;
      assert forall i :: 0 <= i < n ==> lines[..n][i] == lines[i];
      PassOfLines(rules, r, lines[..n]);
      TextWhole(lines[..n]);
      var before := RunLines(rules, r, lines[..n], {});
      PassSplit(rules, r, Text(lines[..n]), lines[n]);
      PassOfLine(rules, before.redactor, lines[n]);
      TextSnoc(before.texts, Redact(rules, before.redactor, lines[n]).text);
    }
  }

  lemma {:induction false} TextSnoc(lines: seq<string>, line: string)
    ensures Text(lines + [line]) == Text(lines) + line
  {
    assert (lines + [line])[..|lines|] == lines;
  }

  lemma {:induction false} TextSplit(a: seq<string>, b: seq<string>)
    ensures Text(a + b) == Text(a) + Text(b)
    decreases |b|
  {
    if b == [] {
      assert a + b == a && Text(a) + "" == Text(a);
    } else {
      var n := |b| - 1;
      assert (a + b)[..|a + b| - 1] == a + b[..n];
      TextSplit(a, b[..n]);
      Associates(Text(a), Text(b[..n]), b[n]);
    }
  }

  // Whole lines that reach the log in batches, with a maintenance after each.

  /** The lines appended between two maintenances, and the identity a rewritten log gets at the second. */
  datatype Batch = Batch(lines: seq<string>, device: int, inode: int)

  function AppendOf(b: Batch): Append {
    Append(Text(b.lines), b.device, b.inode)
  }

  function Appends(batches: seq<Batch>): seq<Append> {
    if batches == [] then [] else Appends(batches[..|batches| - 1]) + [AppendOf(batches[|batches| - 1])]
  }

  function Lines(batches: seq<Batch>): seq<string> {
    if batches == [] then [] else Lines(batches[..|batches| - 1]) + batches[|batches| - 1].lines
  }

  /** The lines before which a maintenance took place. */
  function Cuts(batches: seq<Batch>): set<nat> {
    if batches == [] then {} else Cuts(batches[..|batches| - 1]) + {|Lines(batches[..|batches| - 1])|}
  }

  predicate AreBatches(batches: seq<Batch>) {
    forall i :: 0 <= i < |batches| ==> AreLines(batches[i].lines)
  }

  /** The log after the last batch and its maintenance. */
  function LogOf(rules: Rules, device: int, inode: int, batches: seq<Batch>): (d: LogDir)
    ensures d.active.Some?
  {
    Grown(rules, EmptyLog(device, inode), Appends(batches))
  }

  /** The text of the log. */
  function Content(rules: Rules, device: int, inode: int, batches: seq<Batch>): string {
    LogOf(rules, device, inode, batches).active.value.content
  }

  function RunOf(rules: Rules, batches: seq<Batch>): LinesRun {
    RunLines(rules, Idle, Lines(batches), Cuts(batches))
  }

  /** The record covers the whole log and saved the key state of the last line. */
  ghost predicate SavedUp(rules: Rules, d: LogDir, run: LinesRun) {
    && d.active.Some?
    && d.active.value.content == Text(run.texts)
    && (if d.record.prefix.None? then run == LinesRun(Idle, [])
        else Trusted(rules, d.record, d.active.value)
             && d.record.offset == |d.active.value.content| && d.record.tailLength == 0
             && Carry(d.record.keyState) == Carry(run.redactor.state))
  }

  lemma {:induction false} SavedStart(rules: Rules, d: LogDir, run: LinesRun)
    requires SavedUp(rules, d, run)
    ensures var start := StartRecord(rules, d.record, d.active.value);
            && start.offset == |d.active.value.content| && start.tailLength == 0
            && Carry(start.keyState) == Carry(run.redactor.state)
  {
  }

  lemma {:induction false} ScanSaves(rules: Rules, content: string, raw: string, start: Record, r: Redactor, lines: seq<string>)
    requires AreLines(lines) && lines != [] && raw == Text(lines)
    requires start.offset == |content| && start.tailLength == 0 && Carry(start.keyState) == Carry(r.state)
    ensures var s, run := ScanOf(rules, content + raw, start), RunLines(rules, Resumed(r), lines, {});
            && (content + raw)[..start.offset] + s.whole + s.last == content + Text(run.texts)
            && s.tail == NoTail && s.last == "" && s.keyState == run.redactor.state
  {
    SlicesOfAppended(content, raw, |content|);
    Whole(content);
    NothingYet(raw);
    TextWhole(lines);
    PassOfLines(rules, Resumed(r), lines);
    ScanIsPass(rules, Resumed(r), Carry(start.keyState), raw, TailOf(start));
    var s := ScanOf(rules, content + raw, start);
    Associates(content, s.whole, s.last);
  }

  lemma {:induction false} Whole(s: string)
    ensures s[..|s|] == s && s[|s|..] == ""
  {
  }

  lemma {:induction false} BatchSaves(rules: Rules, d: LogDir, run: LinesRun, b: Batch)
    requires SavedUp(rules, d, run) && AreLines(b.lines) && b.lines != []
    ensures var more := RunLines(rules, Resumed(run.redactor), b.lines, {});
            SavedUp(rules, Grow(rules, d, AppendOf(b)), LinesRun(more.redactor, run.texts + more.texts))
  {
    var f, a := d.active.value, AppendOf(b);
    var file := f.(content := f.content + a.raw);
    SameStart(rules, d.record, f, a.raw);
    SavedStart(rules, d, run);
    var start := StartRecord(rules, d.record, file);
    TextWhole(b.lines);
    ScanSaves(rules, f.content, a.raw, start, run.redactor, b.lines);
    var device, inode := GrowScans(rules, d, a);
    NextTrusted(rules, file.content, start, ScanOf(rules, file.content, start), device, inode);
    TextSplit(run.texts, RunLines(rules, Resumed(run.redactor), b.lines, {}).texts);
  }

  lemma {:induction false} EmptyBatchSaves(rules: Rules, d: LogDir, run: LinesRun, a: Append)
    requires SavedUp(rules, d, run) && a.raw == ""
    ensures SavedUp(rules, Grow(rules, d, a), run)
  {
    var f := d.active.value;
    assert f.content + a.raw == f.content;
    if d.record.prefix.None? {
      var start := FreshRecord(rules, f);
      assert f.content[start.offset..] == "";
      assert Covered(f.content, start, ScanOf(rules, f.content, start)) == "";
    }
  }

  lemma {:induction false} RunOfMore(rules: Rules, batches: seq<Batch>)
    requires batches != [] && batches[|batches| - 1].lines != []
    ensures var n := |batches| - 1;
            var before := RunOf(rules, batches[..n]);
            var more := RunLines(rules, Resumed(before.redactor), batches[n].lines, {});
            RunOf(rules, batches) == LinesRun(more.redactor, before.texts + more.texts)
  {
    var n := |batches| - 1;
    var front, lines := batches[..n], batches[n].lines;
    var k := |Lines(front)|;
    CutsBelow(front);
    RunLinesSplit(rules, Idle, Lines(front), lines, Cuts(batches));
    RunLinesSame(rules, Idle, Lines(front), Cuts(batches), Cuts(front));
    var before := RunOf(rules, front);
    forall i: nat | i < |lines| ensures i in After(Cuts(batches), k) <==> i in {0} { CutAfter(Cuts(batches), k, i); }
    RunLinesSame(rules, before.redactor, lines, After(Cuts(batches), k), {0});
    RunLinesFirst(rules, before.redactor, lines);
  }

  lemma {:induction false} CutsBelow(batches: seq<Batch>)
    ensures forall c :: c in Cuts(batches) ==> c <= |Lines(batches)|
  {
    if batches != [] { CutsBelow(batches[..|batches| - 1]); }
  }

  lemma {:induction false} LogSaves(rules: Rules, device: int, inode: int, batches: seq<Batch>)
    requires AreBatches(batches)
    ensures SavedUp(rules, LogOf(rules, device, inode, batches), RunOf(rules, batches))
  {
    if batches != [] {
      var n := |batches| - 1;
      var front, last := batches[..n], batches[n];
      assert forall i :: 0 <= i < n ==> front[i] == batches[i];
      LogSaves(rules, device, inode, front);
      GrownSnoc(rules, EmptyLog(device, inode), Appends(front), AppendOf(last));
      NextSaves(rules, LogOf(rules, device, inode, front), batches);
    }
  }

  lemma {:induction false} NextSaves(rules: Rules, d: LogDir, batches: seq<Batch>)
    requires batches != [] && AreLines(batches[|batches| - 1].lines) && SavedUp(rules, d, RunOf(rules, batches[..|batches| - 1]))
    ensures SavedUp(rules, Grow(rules, d, AppendOf(batches[|batches| - 1])), RunOf(rules, batches))
  {
    var front, last := batches[..|batches| - 1], batches[|batches| - 1];
    if last.lines == [] {
      EmptyBatchSaves(rules, d, RunOf(rules, front), AppendOf(last));
      assert Lines(batches) == Lines(front);
      RunLinesSame(rules, Idle, Lines(front), Cuts(batches), Cuts(front));
    } else {
      BatchSaves(rules, d, RunOf(rules, front), last);
      RunOfMore(rules, batches);
    }
  }

  lemma {:induction false} GrownSnoc(rules: Rules, d: LogDir, appends: seq<Append>, a: Append)
    requires d.active.Some?
    ensures Grown(rules, d, appends + [a]) == Grow(rules, Grown(rules, d, appends), a)
  {
    assert (appends + [a])[..|appends|] == appends;
  }

  /** However whole lines reach the log between maintenances, also in the middle of a key, the log is the lines judged one
      by one, each maintenance resuming from the key state its record saved. */
  lemma {:induction false} LogIsRun(rules: Rules, device: int, inode: int, batches: seq<Batch>)
    requires AreBatches(batches)
    ensures Content(rules, device, inode, batches) == Text(RunOf(rules, batches).texts)
  {
    LogSaves(rules, device, inode, batches);
  }

  // A key block.

  function MaskedAll(rules: Rules, lines: seq<string>): (r: seq<string>)
    ensures |r| == |lines| && forall i :: 0 <= i < |r| ==> r[i] == Masked(rules, lines[i])
  {
    seq(|lines|, i requires 0 <= i < |lines| => Masked(rules, lines[i]))
  }

  lemma {:induction false} MaskedSnoc(rules: Rules, lines: seq<string>)
    requires lines != []
    ensures MaskedAll(rules, lines) == MaskedAll(rules, lines[..|lines| - 1]) + [Masked(rules, lines[|lines| - 1])]
  {
  }

  /** Any record on `line` is one of `process`, and not its PLAY RECAP. */
  predicate Belongs(rules: Rules, process: string, line: string) {
    rules.record(line).Some? ==> rules.record(line).value == process && !rules.recap(line)
  }

  /** Lines of an open key up to and including its END, or to where the lines stop. */
  predicate IsBlock(rules: Rules, key: KeyState, lines: seq<string>) {
    && key.inKey
    && (forall i :: 0 <= i < |lines| ==> Belongs(rules, key.process, lines[i]))
    && (forall i :: 0 <= i < |lines| - 1 ==> !rules.ends(lines[i]))
  }

  /** The key is over after its END and otherwise still open for the same process. */
  predicate AfterBlock(rules: Rules, key: KeyState, lines: seq<string>, after: KeyState) {
    if lines != [] && rules.ends(lines[|lines| - 1]) then after == NoKey else after.inKey && after.process == key.process
  }

  lemma {:induction false} BlockMasked(rules: Rules, r: Redactor, lines: seq<string>, cuts: set<nat>)
    requires IsBlock(rules, r.state, lines)
    ensures RunLines(rules, r, lines, cuts).texts == MaskedAll(rules, lines)
    ensures AfterBlock(rules, r.state, lines, RunLines(rules, r, lines, cuts).redactor.state)
  {
    if lines != [] {
      var n := |lines| - 1;
      assert forall i :: 0 <= i < n ==> lines[..n][i] == lines[i];
      BlockMasked(rules, r, lines[..n], cuts);
      MaskedSnoc(rules, lines);
      assert Belongs(rules, r.state.process, lines[n]);
      assert n > 0 ==> !rules.ends(lines[n - 1]);
    }
  }

  /** The redactor, and what was written, before line `n`. */
  function Until(rules: Rules, batches: seq<Batch>, n: nat): LinesRun
    requires n <= |Lines(batches)|
  {
    RunLines(rules, Idle, Lines(batches)[..n], Cuts(batches))
  }

  /** What was written from line `n` on. */
  function From(rules: Rules, batches: seq<Batch>, n: nat): seq<string>
    requires n <= |Lines(batches)|
  {
    RunLines(rules, Until(rules, batches, n).redactor, Lines(batches)[n..], After(Cuts(batches), n)).texts
  }

  lemma {:induction false} LogParts(rules: Rules, device: int, inode: int, batches: seq<Batch>, n: nat)
    requires AreBatches(batches) && n <= |Lines(batches)|
    ensures Content(rules, device, inode, batches) == Text(Until(rules, batches, n).texts) + Text(From(rules, batches, n))
  {
    var lines := Lines(batches);
    LogIsRun(rules, device, inode, batches);
    assert lines == lines[..n] + lines[n..];
    RunLinesSplit(rules, Idle, lines[..n], lines[n..], Cuts(batches));
    TextSplit(Until(rules, batches, n).texts, From(rules, batches, n));
  }

  lemma {:induction false} UntilMore(rules: Rules, batches: seq<Batch>, b: nat, e: nat)
    requires b <= e <= |Lines(batches)|
    ensures var more := RunLines(rules, Until(rules, batches, b).redactor, Lines(batches)[b..e], After(Cuts(batches), b));
            Until(rules, batches, e) == LinesRun(more.redactor, Until(rules, batches, b).texts + more.texts)
  {
    var lines := Lines(batches);
    assert lines[..e] == lines[..b] + lines[b..e];
    RunLinesSplit(rules, Idle, lines[..b], lines[b..e], Cuts(batches));
  }

  /** On the log: the lines of a key block are masked one and all, whatever maintenances fell between them, and the key
      is over exactly when its END was among them. */
  lemma {:induction false} KeyBlockAnyCuts(rules: Rules, device: int, inode: int, batches: seq<Batch>, b: nat, e: nat)
    requires AreBatches(batches) && b <= e <= |Lines(batches)|
    requires IsBlock(rules, Until(rules, batches, b).redactor.state, Lines(batches)[b..e])
    ensures Content(rules, device, inode, batches)
         == Text(Until(rules, batches, b).texts) + Text(MaskedAll(rules, Lines(batches)[b..e])) + Text(From(rules, batches, e))
    ensures AfterBlock(rules, Until(rules, batches, b).redactor.state, Lines(batches)[b..e], Until(rules, batches, e).redactor.state)
  {
    LogParts(rules, device, inode, batches, e);
    UntilMore(rules, batches, b, e);
    BlockMasked(rules, Until(rules, batches, b).redactor, Lines(batches)[b..e], After(Cuts(batches), b));
    TextSplit(Until(rules, batches, b).texts, MaskedAll(rules, Lines(batches)[b..e]));
  }

  /** On two logs that got the same lines in batches that differ only inside a key block, the lines up to the end of the
      block read the same; a log that ends there is the same. */
  lemma {:induction false} CutsDoNotShow(rules: Rules, device: int, inode: int, x: seq<Batch>, y: seq<Batch>, b: nat, e: nat)
    requires AreBatches(x) && AreBatches(y) && Lines(x) == Lines(y) && b <= e <= |Lines(x)|
    requires forall i :: 0 <= i < b ==> (i in Cuts(x) <==> i in Cuts(y))
    requires IsBlock(rules, Until(rules, x, b).redactor.state, Lines(x)[b..e])
    ensures Until(rules, x, e).texts == Until(rules, y, e).texts
    ensures var p, q := Content(rules, device, inode, x), Content(rules, device, inode, y);
            && p == Text(Until(rules, x, e).texts) + Text(From(rules, x, e))
            && q == Text(Until(rules, x, e).texts) + Text(From(rules, y, e))
            && (e == |Lines(x)| ==> p == q)
  {
    RunLinesSame(rules, Idle, Lines(x)[..b], Cuts(x), Cuts(y));
    UntilMore(rules, x, b, e);
    UntilMore(rules, y, b, e);
    BlockMasked(rules, Until(rules, x, b).redactor, Lines(x)[b..e], After(Cuts(x), b));
    BlockMasked(rules, Until(rules, y, b).redactor, Lines(y)[b..e], After(Cuts(y), b));
    LogParts(rules, device, inode, x, e);
    LogParts(rules, device, inode, y, e);
    if e == |Lines(x)| { assert From(rules, x, e) == [] && From(rules, y, e) == []; }
  }

  // A key that was open when a maintenance saved its record, and has no END.

  /** `line` is a record at which a carried key stops. */
  predicate Stops(rules: Rules, state: KeyState, line: string) {
    rules.record(line).Some? && EndsCarriedKey(rules, state, line, rules.record(line).value)
  }

  lemma {:induction false} CarriedRuns(rules: Rules, r: Redactor, lines: seq<string>, cuts: set<nat>)
    requires r.state.inKey && r.state.carried
    requires forall i :: 0 <= i < |lines| ==> !rules.ends(lines[i]) && !Stops(rules, r.state, lines[i])
    ensures RunLines(rules, r, lines, cuts).texts == MaskedAll(rules, lines)
    ensures RunLines(rules, r, lines, cuts).redactor.state == r.state
  {
    if lines != [] {
      var n := |lines| - 1;
      assert forall i :: 0 <= i < n ==> lines[..n][i] == lines[i];
      CarriedRuns(rules, r, lines[..n], cuts);
      var before := RunLines(rules, r, lines[..n], cuts).redactor;
      var at := if n in cuts then Resumed(before) else before;
      assert at.state == r.state && !rules.ends(lines[n]) && !Stops(rules, at.state, lines[n]);
      assert Redact(rules, at, lines[n]).text == Masked(rules, lines[n]);
      MaskedSnoc(rules, lines);
    }
  }

  /** At a stopping record the state of the carried key is gone before the line is judged. */
  lemma {:induction false} StopForgetsKey(rules: Rules, r: Redactor, line: string)
    requires Stops(rules, r.state, line)
    ensures Redact(rules, r, line) == Redact(rules, Idle, line)
  {
  }

  lemma {:induction false} OneLine(rules: Rules, r: Redactor, line: string, cuts: set<nat>)
    ensures var j := Redact(rules, if 0 in cuts then Resumed(r) else r, line); RunLines(rules, r, [line], cuts) == LinesRun(j.after, [j.text])
  {
    assert [line][..0] == [];
  }

  lemma {:induction false} StopStarts(rules: Rules, r: Redactor, stop: string, rest: seq<string>, cuts: set<nat>)
    requires r.state.inKey && r.state.carried && Stops(rules, r.state, stop)
    ensures RunLines(rules, r, [stop] + rest, cuts).texts == RunLines(rules, Idle, [stop] + rest, cuts).texts
  {
    StopForgetsKey(rules, r, stop);
    StopForgetsKey(rules, Resumed(r), stop);
    OneLine(rules, r, stop, cuts);
    OneLine(rules, Idle, stop, cuts);
    RunLinesSplit(rules, r, [stop], rest, cuts);
    RunLinesSplit(rules, Idle, [stop], rest, cuts);
  }

  /** Resuming twice is resuming once. */
  lemma {:induction false} ResumedFirst(rules: Rules, r: Redactor, lines: seq<string>, cuts: set<nat>)
    requires 0 in cuts && lines != []
    ensures RunLines(rules, r, lines, cuts) == RunLines(rules, Resumed(r), lines, cuts)
  {
    if |lines| > 1 {
      ResumedFirst(rules, r, lines[..|lines| - 1], cuts);
    } else {
      assert lines[..0] == [];
    }
  }

  /** The lines after an open key was carried over. */
  lemma {:induction false} CarriedStops(rules: Rules, r: Redactor, before: seq<string>, stop: string, rest: seq<string>, cuts: set<nat>)
    requires r.state.inKey && 0 in cuts
    requires forall i :: 0 <= i < |before| ==> !rules.ends(before[i]) && !Stops(rules, Carry(r.state), before[i])
    requires Stops(rules, Carry(r.state), stop)
    ensures RunLines(rules, r, before + ([stop] + rest), cuts).texts
         == MaskedAll(rules, before) + RunLines(rules, Idle, [stop] + rest, After(cuts, |before|)).texts
  {
    var all := before + ([stop] + rest);
    ResumedFirst(rules, r, all, cuts);
    RunLinesSplit(rules, Resumed(r), before, [stop] + rest, cuts);
    CarriedRuns(rules, Resumed(r), before, cuts);
    StopStarts(rules, RunLines(rules, Resumed(r), before, cuts).redactor, stop, rest, After(cuts, |before|));
  }

  /** The cuts among the lines after those of the first `m` batches. */
  function LaterCuts(batches: seq<Batch>, m: nat): set<nat>
    requires m <= |batches|
  {
    After(Cuts(batches), |Lines(batches[..m])|)
  }

  lemma {:induction false} LinesSplit(batches: seq<Batch>, m: nat)
    requires m <= |batches|
    ensures Lines(batches) == Lines(batches[..m]) + Lines(batches[m..])
    decreases |batches|
  {
    if m == |batches| {
      assert batches[..m] == batches && batches[m..] == [];
      assert Lines(batches) + [] == Lines(batches);
    } else {
      var n := |batches| - 1;
      LinesSplit(batches[..n], m);
      assert batches[..n][..m] == batches[..m] && batches[..n][m..] == batches[m..][..n - m];
      assert batches[m..][n - m] == batches[n];
    }
  }

  /** Judging the lines of the first `m` batches does not depend on the later ones. */
  lemma {:induction false} UntilFront(rules: Rules, batches: seq<Batch>, m: nat)
    requires m < |batches|
    ensures |Lines(batches[..m])| <= |Lines(batches)|
    ensures Lines(batches)[|Lines(batches[..m])|..] == Lines(batches[m..])
    ensures Until(rules, batches, |Lines(batches[..m])|) == RunOf(rules, batches[..m])
    ensures 0 in LaterCuts(batches, m)
  {
    var front := batches[..m];
    LinesSplit(batches, m);
    assert Lines(batches)[..|Lines(front)|] == Lines(front);
    CutsOfFront(batches, m);
    RunLinesSame(rules, Idle, Lines(front), Cuts(batches), Cuts(front));
    CutAfter(Cuts(batches), |Lines(front)|, 0);
  }

  /** The log after more batches is the log before them and their lines, resumed from the saved key. */
  lemma {:induction false} LogExtends(rules: Rules, device: int, inode: int, batches: seq<Batch>, m: nat)
    requires AreBatches(batches) && m < |batches|
    ensures 0 in LaterCuts(batches, m)
    ensures Content(rules, device, inode, batches)
         == Content(rules, device, inode, batches[..m])
            + Text(RunLines(rules, RunOf(rules, batches[..m]).redactor, Lines(batches[m..]), LaterCuts(batches, m)).texts)
  {
    UntilFront(rules, batches, m);
    assert forall i :: 0 <= i < m ==> batches[..m][i] == batches[i];
    LogIsRun(rules, device, inode, batches[..m]);
    LogParts(rules, device, inode, batches, |Lines(batches[..m])|);
  }

  /** The key a record carries over is the one open in the redactor. */
  lemma {:induction false} SavedKey(rules: Rules, device: int, inode: int, batches: seq<Batch>)
    requires AreBatches(batches) && LogOf(rules, device, inode, batches).record.keyState.inKey
    ensures RunOf(rules, batches).redactor.state.inKey
    ensures Carry(RunOf(rules, batches).redactor.state) == Carry(LogOf(rules, device, inode, batches).record.keyState)
  {
    LogSaves(rules, device, inode, batches);
    UnsavedKey(rules, device, inode, batches);
  }

  /** A log without a saved prefix has no record yet. */
  lemma {:induction false} UnsavedKey(rules: Rules, device: int, inode: int, batches: seq<Batch>)
    ensures LogOf(rules, device, inode, batches).record.prefix.None? ==> !LogOf(rules, device, inode, batches).record.keyState.inKey
  {
    if batches != [] {
      var front, last := batches[..|batches| - 1], batches[|batches| - 1];
      UnsavedKey(rules, device, inode, front);
      GrownSnoc(rules, EmptyLog(device, inode), Appends(front), AppendOf(last));
    }
  }

  /** The key, once carried over, has no END in `before` and ends at the record on `stop`. */
  predicate EndsAt(rules: Rules, key: KeyState, before: seq<string>, stop: string) {
    && key.inKey && Stops(rules, Carry(key), stop)
    && forall i :: 0 <= i < |before| ==> !rules.ends(before[i]) && !Stops(rules, Carry(key), before[i])
  }

  lemma {:induction false} CarriedFrom(rules: Rules, r: Redactor, key: KeyState, lines: seq<string>, k: nat, cuts: set<nat>)
    requires k < |lines| && r.state.inKey && Carry(r.state) == Carry(key) && EndsAt(rules, key, lines[..k], lines[k]) && 0 in cuts
    ensures RunLines(rules, r, lines, cuts).texts == MaskedAll(rules, lines[..k]) + RunLines(rules, Idle, lines[k..], After(cuts, k)).texts
  {
    assert lines[k..] == [lines[k]] + lines[k + 1..];
    assert lines == lines[..k] + ([lines[k]] + lines[k + 1..]);
    CarriedStops(rules, r, lines[..k], lines[k], lines[k + 1..], cuts);
  }

  lemma {:induction false} CarriedText(rules: Rules, all: string, a: string, r: Redactor, key: KeyState, lines: seq<string>, k: nat, cuts: set<nat>)
    requires k < |lines| && r.state.inKey && Carry(r.state) == Carry(key) && EndsAt(rules, key, lines[..k], lines[k]) && 0 in cuts
    requires all == a + Text(RunLines(rules, r, lines, cuts).texts)
    ensures all == a + Text(MaskedAll(rules, lines[..k])) + Text(RunLines(rules, Idle, lines[k..], After(cuts, k)).texts)
  {
    CarriedFrom(rules, r, key, lines, k, cuts);
    TextSplit(MaskedAll(rules, lines[..k]), RunLines(rules, Idle, lines[k..], After(cuts, k)).texts);
    Associates(a, Text(MaskedAll(rules, lines[..k])), Text(RunLines(rules, Idle, lines[k..], After(cuts, k)).texts));
  }

  /** On the log: when the record of the `m`th maintenance carries an open key over and no END follows, the lines before the
      first RECAP or record of another process, the `k`th later line, are masked, and from that record on the log reads as if
      no key had been open. */
  lemma {:induction false} CarriedKeyStops(rules: Rules, device: int, inode: int, batches: seq<Batch>, m: nat, k: nat)
    requires AreBatches(batches) && m < |batches| && k < |Lines(batches[m..])|
    requires EndsAt(rules, LogOf(rules, device, inode, batches[..m]).record.keyState, Lines(batches[m..])[..k], Lines(batches[m..])[k])
    ensures Content(rules, device, inode, batches)
         == Content(rules, device, inode, batches[..m]) + Text(MaskedAll(rules, Lines(batches[m..])[..k]))
            + Text(RunLines(rules, Idle, Lines(batches[m..])[k..], After(LaterCuts(batches, m), k)).texts)
  {
    var front, later := batches[..m], Lines(batches[m..]);
    LogExtends(rules, device, inode, batches, m);
    SavedKey(rules, device, inode, front);
    CarriedText(rules, Content(rules, device, inode, batches), Content(rules, device, inode, front),
                RunOf(rules, front).redactor, LogOf(rules, device, inode, front).record.keyState,
                later, k, LaterCuts(batches, m));
  }

  /** The first `m` batches have their cuts, and a cut follows them. */
  lemma {:induction false} CutsOfFront(batches: seq<Batch>, m: nat)
    requires m < |batches|
    ensures |Lines(batches[..m])| in Cuts(batches) && |Lines(batches[..m])| <= |Lines(batches)|
    ensures forall i :: 0 <= i < |Lines(batches[..m])| ==> (i in Cuts(batches) <==> i in Cuts(batches[..m]))
  {
    var n := |batches| - 1;
    assert batches[..n][..m] == batches[..m];
    if m < n { CutsOfFront(batches[..n], m); }
  }
}
