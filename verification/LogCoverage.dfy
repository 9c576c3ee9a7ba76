/** What the log shows for each line, told from the lines alone: where keys begin and end, which process wrote what, and
    where maintenances fell (`keyState`, `redact` and `redactRange` in internal/ansible/log_policy.go). */
module LogCoverage {
  import opened Outcomes
  import opened Redaction
  import opened LogKeys

  /** A maintenance fell after line `b` and no later than right before line `k`. */
  ghost predicate CutSince(cuts: set<nat>, b: nat, k: nat) {
    exists c :: c in cuts && b < c <= k
  }

  /** The process of the latest record since the last maintenance, up to line `i`. */
  function ProcessAt(rules: Rules, lines: seq<string>, cuts: set<nat>, i: nat): string
    requires i < |lines|
  {
    match rules.record(lines[i])
    case Some(process) => process
    case None => if i == 0 || i in cuts then "" else ProcessAt(rules, lines, cuts, i - 1)
  }

  /** A key begun at line `b` and carried over a maintenance stops at line `k`: a record of another process, its process's PLAY
      RECAP, or any record when its process is unknown. */
  ghost predicate StopsKey(rules: Rules, lines: seq<string>, cuts: set<nat>, b: nat, k: nat)
    requires b < |lines| && k < |lines|
  {
    && CutSince(cuts, b, k) && rules.record(lines[k]).Some?
    && (ProcessAt(rules, lines, cuts, b) == "" || rules.record(lines[k]).value != ProcessAt(rules, lines, cuts, b) || rules.recap(lines[k]))
  }

  /** A key begins at line `b`. */
  ghost predicate Opens(rules: Rules, lines: seq<string>, cuts: set<nat>, b: nat)
    requires b < |lines|
    decreases b, 1
  {
    rules.begins(lines[b]) && !rules.ends(lines[b]) && !Covered(rules, lines, cuts, b)
  }

  /** The key begun at line `b` has not ended before line `i`, and not stopped up to line `to`. */
  ghost predicate Lasts(rules: Rules, lines: seq<string>, cuts: set<nat>, b: nat, i: nat, to: nat)
    requires b < i <= |lines| && to < |lines|
  {
    && (forall k :: b < k < i ==> !rules.ends(lines[k]))
    && (forall k :: b < k <= to ==> !StopsKey(rules, lines, cuts, b, k))
  }

  /** A key begun at an earlier line covers line `i`. */
  ghost predicate Covered(rules: Rules, lines: seq<string>, cuts: set<nat>, i: nat)
    requires i < |lines|
    decreases i, 0
  {
    exists b: nat :: b < i && Opens(rules, lines, cuts, b) && Lasts(rules, lines, cuts, b, i, i)
  }

  /** The line ending that is kept. */
  function Ending(line: string): string {
    var n := |line|;
    if n >= 2 && line[n - 2..] == "\r\n" then "\r\n" else if n >= 1 && line[n - 1..] == "\n" then "\n" else ""
  }

  /** What stands in the log for line `i`: the placeholder for the lines of keys, the masked line for all others. */
  ghost function Shown(rules: Rules, lines: seq<string>, cuts: set<nat>, i: nat): string
    requires i < |lines|
  {
    if Covered(rules, lines, cuts, i) || rules.begins(lines[i]) then rules.placeholder + Ending(lines[i]) else rules.mask(lines[i])
  }

  // The redactor knows which key is open.

  lemma {:induction false} LastOne(line: string)
    requires |line| >= 1
    ensures line[|line| - 1..] == "\n" <==> line[|line| - 1] == '\n'
  {
    assert line[|line| - 1..] == [line[|line| - 1]];
  }

  lemma {:induction false} LastTwo(line: string)
    requires |line| >= 2
    ensures line[|line| - 2..] == "\r\n" <==> line[|line| - 2] == '\r' && line[|line| - 1] == '\n'
  {
    assert line[|line| - 2..] == [line[|line| - 2], line[|line| - 1]];
  }

  lemma {:induction false} MaskedShows(rules: Rules, line: string)
    ensures Masked(rules, line) == rules.placeholder + Ending(line)
  {
    if |line| >= 1 { LastOne(line); }
    if |line| >= 2 { LastTwo(line); }
    assert rules.placeholder + "" == rules.placeholder;
  }

  /** The key begun at line `b` is open before line `i`. */
  ghost predicate OpenSince(rules: Rules, lines: seq<string>, cuts: set<nat>, b: nat, i: nat)
    requires i <= |lines|
  {
    b < i && Opens(rules, lines, cuts, b) && Lasts(rules, lines, cuts, b, i, i - 1)
  }

  /** The redactor after the lines before line `i`. */
  ghost predicate Knows(rules: Rules, lines: seq<string>, cuts: set<nat>, i: nat, r: Redactor)
    requires i <= |lines|
  {
    && r.process == (if i == 0 then "" else ProcessAt(rules, lines, cuts, i - 1))
    && (if r.state.inKey then exists b: nat :: OpenSince(rules, lines, cuts, b, i) && KeyOf(rules, lines, cuts, b, i, r.state)
        else r.state == NoKey && NoneOpen(rules, lines, cuts, i))
  }

  ghost predicate NoneOpen(rules: Rules, lines: seq<string>, cuts: set<nat>, i: nat)
    requires i <= |lines|
  {
    forall b: nat :: !OpenSince(rules, lines, cuts, b, i)
  }

  ghost predicate KeyOf(rules: Rules, lines: seq<string>, cuts: set<nat>, b: nat, i: nat, key: KeyState)
    requires b < i <= |lines|
  {
    key.inKey && key.process == ProcessAt(rules, lines, cuts, b) && (key.carried <==> CutSince(cuts, b, i - 1))
  }

  lemma {:induction false} KeyCovers(rules: Rules, lines: seq<string>, cuts: set<nat>, a: nat, b: nat, i: nat)
    requires a < b < i <= |lines| && OpenSince(rules, lines, cuts, a, i)
    ensures Covered(rules, lines, cuts, b)
  {
    assert Lasts(rules, lines, cuts, a, b, b);
  }

  /** Two keys are never open at once. */
  lemma {:induction false} OneOpen(rules: Rules, lines: seq<string>, cuts: set<nat>, a: nat, b: nat, i: nat)
    requires i <= |lines| && OpenSince(rules, lines, cuts, a, i) && OpenSince(rules, lines, cuts, b, i)
    ensures a == b
  {
    if a < b { KeyCovers(rules, lines, cuts, a, b, i); }
    if b < a { KeyCovers(rules, lines, cuts, b, a, i); }
  }

  lemma {:induction false} CutsGrow(cuts: set<nat>, b: nat, i: nat)
    requires b < i
    ensures CutSince(cuts, b, i) <==> CutSince(cuts, b, i - 1) || i in cuts
  {
    if c :| c in cuts && b < c <= i { assert c == i || c <= i - 1; }
  }

  /** Before the line is judged: the key still open after a look at whether the line is a record covers the line. */
  lemma {:induction false} AtLine(rules: Rules, lines: seq<string>, cuts: set<nat>, i: nat, r: Redactor)
    requires i < |lines| && Knows(rules, lines, cuts, i, r)
    ensures var at := AtRecord(rules, if i in cuts then Resumed(r) else r, lines[i]);
            && at.process == ProcessAt(rules, lines, cuts, i)
            && (at.state.inKey <==> Covered(rules, lines, cuts, i)) && (!at.state.inKey ==> at.state == NoKey)
            && (at.state.inKey ==> exists b: nat :: b < i && OpenSince(rules, lines, cuts, b, i) && Lasts(rules, lines, cuts, b, i, i)
                                              && KeyOf(rules, lines, cuts, b, i + 1, at.state))
  {
    var before := if i in cuts then Resumed(r) else r;
    var at := AtRecord(rules, before, lines[i]);
    if r.state.inKey {
      var b: nat :| OpenSince(rules, lines, cuts, b, i) && KeyOf(rules, lines, cuts, b, i, r.state);
      CutsGrow(cuts, b, i);
      assert KeyOf(rules, lines, cuts, b, i + 1, before.state);
      assert at.state.inKey <==> !StopsKey(rules, lines, cuts, b, i);
      StopsOnlyKey(rules, lines, cuts, b, i);
    } else {
      NoneCovers(rules, lines, cuts, i);
    }
  }

  lemma {:induction false} LastsOn(rules: Rules, lines: seq<string>, cuts: set<nat>, b: nat, i: nat)
    requires b < i < |lines|
    ensures Lasts(rules, lines, cuts, b, i, i) <==> Lasts(rules, lines, cuts, b, i, i - 1) && !StopsKey(rules, lines, cuts, b, i)
  {
  }

  lemma {:induction false} StopsOnlyKey(rules: Rules, lines: seq<string>, cuts: set<nat>, b: nat, i: nat)
    requires i < |lines| && OpenSince(rules, lines, cuts, b, i)
    ensures Covered(rules, lines, cuts, i) <==> !StopsKey(rules, lines, cuts, b, i)
    ensures Lasts(rules, lines, cuts, b, i, i) <==> !StopsKey(rules, lines, cuts, b, i)
  {
    LastsOn(rules, lines, cuts, b, i);
    if a: nat :| a < i && Opens(rules, lines, cuts, a) && Lasts(rules, lines, cuts, a, i, i) {
      LastsOn(rules, lines, cuts, a, i);
      OneOpen(rules, lines, cuts, a, b, i);
    }
  }

  lemma {:induction false} NoneCovers(rules: Rules, lines: seq<string>, cuts: set<nat>, i: nat)
    requires i < |lines| && NoneOpen(rules, lines, cuts, i)
    ensures !Covered(rules, lines, cuts, i)
  {
    if b: nat :| b < i && Opens(rules, lines, cuts, b) && Lasts(rules, lines, cuts, b, i, i) {
      LastsOn(rules, lines, cuts, b, i);
      assert OpenSince(rules, lines, cuts, b, i);
    }
  }

  /** A key open after line `i` was open before it and covers it, or begins at it. */
  lemma {:induction false} OpenNext(rules: Rules, lines: seq<string>, cuts: set<nat>, b: nat, i: nat)
    requires i < |lines|
    ensures OpenSince(rules, lines, cuts, b, i + 1) <==>
      if b == i then Opens(rules, lines, cuts, i)
      else OpenSince(rules, lines, cuts, b, i) && Lasts(rules, lines, cuts, b, i, i) && !rules.ends(lines[i])
  {
  }

  lemma {:induction false} NextKnows(rules: Rules, lines: seq<string>, cuts: set<nat>, i: nat, r: Redactor)
    requires i < |lines| && Knows(rules, lines, cuts, i, r)
    ensures var j := Redact(rules, if i in cuts then Resumed(r) else r, lines[i]);
            Knows(rules, lines, cuts, i + 1, j.after) && j.text == Shown(rules, lines, cuts, i)
  {
    var at := AtRecord(rules, if i in cuts then Resumed(r) else r, lines[i]);
    AtLine(rules, lines, cuts, i, r);
    MaskedShows(rules, lines[i]);
    if at.state.inKey {
      var b: nat :| b < i && OpenSince(rules, lines, cuts, b, i) && Lasts(rules, lines, cuts, b, i, i) && KeyOf(rules, lines, cuts, b, i + 1, at.state);
      CoveredNext(rules, lines, cuts, b, i);
    } else {
      UncoveredNext(rules, lines, cuts, i);
    }
  }

  lemma {:induction false} CoveredNext(rules: Rules, lines: seq<string>, cuts: set<nat>, b: nat, i: nat)
    requires b < i < |lines| && OpenSince(rules, lines, cuts, b, i) && Lasts(rules, lines, cuts, b, i, i) && Covered(rules, lines, cuts, i)
    ensures if rules.ends(lines[i]) then NoneOpen(rules, lines, cuts, i + 1) else OpenSince(rules, lines, cuts, b, i + 1)
  {
    OpenNext(rules, lines, cuts, b, i);
    var next := i + 1;
    forall a: nat | rules.ends(lines[i]) ensures !OpenSince(rules, lines, cuts, a, next) { OpenNext(rules, lines, cuts, a, i); }
  }

  lemma {:induction false} UncoveredNext(rules: Rules, lines: seq<string>, cuts: set<nat>, i: nat)
    requires i < |lines| && !Covered(rules, lines, cuts, i)
    ensures if rules.begins(lines[i]) && !rules.ends(lines[i])
            then OpenSince(rules, lines, cuts, i, i + 1) && !CutSince(cuts, i, i)
            else NoneOpen(rules, lines, cuts, i + 1)
  {
    var next := i + 1;
    forall a: nat ensures OpenSince(rules, lines, cuts, a, next) ==> a == i && Opens(rules, lines, cuts, i) {
      OpenNext(rules, lines, cuts, a, i);
      if a < i && OpenSince(rules, lines, cuts, a, next) { KeyCovers(rules, lines, cuts, a, i, next); }
    }
    OpenNext(rules, lines, cuts, i, i);
  }

  // All lines.

  /** What was written for the lines before line `n`, and the redactor after them. */
  ghost predicate ShownUpTo(rules: Rules, lines: seq<string>, cuts: set<nat>, n: nat, run: LinesRun)
    requires n <= |lines|
  {
    && Knows(rules, lines, cuts, n, run.redactor)
    && |run.texts| == n && forall i :: 0 <= i < n ==> run.texts[i] == Shown(rules, lines, cuts, i)
  }

  lemma {:induction false} RunNext(rules: Rules, lines: seq<string>, cuts: set<nat>, n: nat)
    requires n < |lines|
    ensures var before := RunLines(rules, Idle, lines[..n], cuts);
            var j := Redact(rules, if n in cuts then Resumed(before.redactor) else before.redactor, lines[n]);
            RunLines(rules, Idle, lines[..n + 1], cuts) == LinesRun(j.after, before.texts + [j.text])
  {
    assert lines[..n + 1][..n] == lines[..n];
  }

  lemma {:induction false} ShownNext(rules: Rules, lines: seq<string>, cuts: set<nat>, n: nat, before: LinesRun, after: Redactor, text: string)
    requires n < |lines| && ShownUpTo(rules, lines, cuts, n, before)
    requires Knows(rules, lines, cuts, n + 1, after) && text == Shown(rules, lines, cuts, n)
    ensures ShownUpTo(rules, lines, cuts, n + 1, LinesRun(after, before.texts + [text]))
  {
  }

  lemma {:induction false} LinesShown(rules: Rules, lines: seq<string>, cuts: set<nat>, n: nat)
    requires n <= |lines|
    ensures ShownUpTo(rules, lines, cuts, n, RunLines(rules, Idle, lines[..n], cuts))
  {
    if n > 0 {
      var m := n - 1;
      LinesShown(rules, lines, cuts, m);
      var before := RunLines(rules, Idle, lines[..m], cuts);
      var j := Redact(rules, if m in cuts then Resumed(before.redactor) else before.redactor, lines[m]);
      NextKnows(rules, lines, cuts, m, before.redactor);
      ShownNext(rules, lines, cuts, m, before, j.after, j.text);
      RunNext(rules, lines, cuts, m);
    }
  }

  ghost function ShownAll(rules: Rules, lines: seq<string>, cuts: set<nat>): (r: seq<string>)
    ensures |r| == |lines| && forall i :: 0 <= i < |r| ==> r[i] == Shown(rules, lines, cuts, i)
  {
    seq(|lines|, i requires 0 <= i < |lines| => Shown(rules, lines, cuts, i))
  }

  /** The log, line by line: however whole lines reach it between maintenances, a line of a key is the placeholder with the line's
      own ending, and every other line is masked. */
  lemma {:induction false} LogShows(rules: Rules, device: int, inode: int, batches: seq<Batch>)
    requires AreBatches(batches)
    ensures Content(rules, device, inode, batches) == Text(ShownAll(rules, Lines(batches), Cuts(batches)))
  {
    var lines, cuts := Lines(batches), Cuts(batches);
    LogIsRun(rules, device, inode, batches);
    assert lines[..|lines|] == lines;
    LinesShown(rules, lines, cuts, |lines|);
    assert RunOf(rules, batches).texts == ShownAll(rules, lines, cuts);
  }

  ghost function MaskEach(rules: Rules, lines: seq<string>): (r: seq<string>)
    ensures |r| == |lines| && forall i :: 0 <= i < |r| ==> r[i] == rules.mask(lines[i])
  {
    seq(|lines|, i requires 0 <= i < |lines| => rules.mask(lines[i]))
  }

  /** A log without private keys is its lines, each one masked. */
  lemma {:induction false} PlainLogMasked(rules: Rules, device: int, inode: int, batches: seq<Batch>)
    requires AreBatches(batches) && forall i :: 0 <= i < |Lines(batches)| ==> !rules.begins(Lines(batches)[i])
    ensures Content(rules, device, inode, batches) == Text(MaskEach(rules, Lines(batches)))
  {
    LogShows(rules, device, inode, batches);
    PlainShown(rules, Lines(batches), Cuts(batches));
  }

  lemma {:induction false} PlainShown(rules: Rules, lines: seq<string>, cuts: set<nat>)
    requires forall i :: 0 <= i < |lines| ==> !rules.begins(lines[i])
    ensures ShownAll(rules, lines, cuts) == MaskEach(rules, lines)
  {
    forall i: nat | i < |lines| ensures Shown(rules, lines, cuts, i) == rules.mask(lines[i]) {
      NeverCovered(rules, lines, cuts, i);
    }
  }

  lemma {:induction false} NeverCovered(rules: Rules, lines: seq<string>, cuts: set<nat>, i: nat)
    requires i < |lines| && forall k :: 0 <= k < |lines| ==> !rules.begins(lines[k])
    ensures !Covered(rules, lines, cuts, i)
  {
  }
}
