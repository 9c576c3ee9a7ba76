/** Incremental scans against one full pass, `redactFile` (internal/ansible/log_policy.go). */
module LogPass {
  import opened Redaction
  import opened LogScan
  import opened LogHistory
  import opened LogAppend

  /** One scan over all of `text`. */
  function Pass(rules: Rules, r: Redactor, text: string): Replayed
    decreases |text|
  {
    if text == "" then Replayed(r, "")
    else
      var n := LineLength(text);
      var j := Redact(rules, r, text[..n]);
      var rest := Pass(rules, j.after, text[n..]);
      Replayed(rest.redactor, j.text + rest.text)
  }

  /** `redactFile`: the full pass. */
  method RedactFile(rules: Rules, text: string) returns (written: string)
    ensures written == Pass(rules, Idle, text).text
  {
    var redactor := new StreamRedactor(NoKey);
    written := "";
    var rest := text;
    NothingYet(PassText(rules, Idle, text));
    while rest != ""
      invariant fresh(redactor)
      invariant PassText(rules, Idle, text) == written + PassText(rules, redactor.Now(), rest)
      decreases |rest|
    {
      var redacted, left := RedactNext(rules, redactor, rest);
      Associates(written, redacted, PassText(rules, redactor.Now(), left));
      written, rest := written + redacted, left;
    }
    EmptyPass(rules, redactor.Now(), written);
  }

  /** One line of the pass. */
  method RedactNext(rules: Rules, redactor: StreamRedactor, text: string) returns (redacted: string, left: string)
    requires text != ""
    modifies redactor
    ensures PassText(rules, old(redactor.Now()), text) == redacted + PassText(rules, redactor.Now(), left)
    ensures |left| < |text|
  {
    var n := LineLength(text);
    PassStep(rules, redactor.Now(), text);
    redacted := redactor.RedactOne(rules, text[..n]);
    left := text[n..];
  }

  function PassText(rules: Rules, r: Redactor, text: string): string {
    Pass(rules, r, text).text
  }

  lemma {:induction false} NothingYet(s: string)
    ensures "" + s == s
  {
  }

  lemma {:induction false} EmptyPass(rules: Rules, r: Redactor, written: string)
    ensures written + PassText(rules, r, "") == written
  {
  }

  lemma {:induction false} PassStep(rules: Rules, r: Redactor, text: string)
    requires text != ""
    ensures var n := LineLength(text);
            var j := Redact(rules, r, text[..n]);
            PassText(rules, r, text) == j.text + PassText(rules, j.after, text[n..])
  {
  }

  // A pass over lines is a pass over their parts.

  predicate WholeLines(text: string) {
    text == "" || Complete(text)
  }

  lemma {:induction false} FirstLineOf(a: string, b: string)
    requires a != "" && Complete(a)
    ensures LineLength(a + b) == LineLength(a)
    ensures Complete(a[..LineLength(a)])
  {
    var n, m := LineLength(a), LineLength(a + b);
    assert (a + b)[..n] == a[..n];
    if n == |a| { assert a[..n] == a; }
    assert a[n - 1] == '\n' by { assert a[..n][n - 1] == '\n'; }
    assert (a + b)[n - 1] == '\n';
    assert (a + b)[..m][m - 1] == (a + b)[m - 1];
    assert forall i :: 0 <= i < n ==> a[..n][i] == (a + b)[i];
    assert forall i :: 0 <= i < m ==> (a + b)[..m][i] == (a + b)[i];
  }

  lemma {:induction false} PassSplit(rules: Rules, r: Redactor, a: string, b: string)
    requires WholeLines(a)
    ensures var x := Pass(rules, r, a);
            var y := Pass(rules, x.redactor, b);
            Pass(rules, r, a + b) == Replayed(y.redactor, x.text + y.text)
    decreases |a|
  {
    if a == "" {
      assert a + b == b;
      assert "" + Pass(rules, r, b).text == Pass(rules, r, b).text;
    } else {
      FirstLineOf(a, b);
      var n := LineLength(a);
      var j := Redact(rules, r, a[..n]);
      assert (a + b)[..n] == a[..n] && (a + b)[n..] == a[n..] + b;
      WholeLinesRest(a, n);
      PassSplit(rules, j.after, a[n..], b);
      var x := Pass(rules, j.after, a[n..]);
      Associates(j.text, x.text, Pass(rules, x.redactor, b).text);
    }
  }

  lemma {:induction false} WholeLinesRest(a: string, n: nat)
    requires WholeLines(a) && n <= |a|
    ensures WholeLines(a[n..])
  {
  }

  /** A scan without a masked tail is a pass. */
  lemma {:induction false} ScanIsPass(rules: Rules, r: Redactor, key: KeyState, text: string, tail: Tail)
    requires tail.length == 0
    ensures var s, p := ScanFrom(rules, r, key, text, tail), Pass(rules, r, text);
            && s.whole + s.last == p.text
            && (WholeLines(text) ==> s.last == "" && s.tail == NoTail && s.keyState == if text == "" then key else p.redactor.state)
    decreases |text|
  {
    if text != "" {
      var n := LineLength(text);
      var j := Redact(rules, r, text[..n]);
      if Complete(text[..n]) {
        ScanIsPass(rules, j.after, j.after.state, text[n..], NoTail);
        var s := ScanFrom(rules, j.after, j.after.state, text[n..], NoTail);
        Associates(j.text, s.whole, s.last);
        if WholeLines(text) { WholeLinesRest(text, n); }
      } else {
        assert n == |text| && text[..n] == text && text[n..] == "";
        assert j.text + "" == j.text;
      }
    }
  }

  // Without a carried key, the process of earlier records does not show in the output.

  ghost predicate Alike(a: Redactor, b: Redactor) {
    a.state.inKey == b.state.inKey && (a.state.inKey ==> !a.state.carried && !b.state.carried)
  }

  lemma {:induction false} PassAlike(rules: Rules, a: Redactor, b: Redactor, text: string)
    requires Alike(a, b)
    ensures Pass(rules, a, text).text == Pass(rules, b, text).text
    ensures Alike(Pass(rules, a, text).redactor, Pass(rules, b, text).redactor)
    decreases |text|
  {
    if text != "" {
      var n := LineLength(text);
      var j, k := Redact(rules, a, text[..n]), Redact(rules, b, text[..n]);
      assert j.text == k.text && Alike(j.after, k.after);
      PassAlike(rules, j.after, k.after, text[n..]);
    }
  }

  // Maintenances at line boundaries outside keys.

  predicate OpenKeyAfter(rules: Rules, text: string) {
    Pass(rules, Idle, text).redactor.state.inKey
  }

  /** Every line of the log is behind the record, whose key state agrees with the full pass. */
  ghost predicate CaughtUp(rules: Rules, d: LogDir, total: string) {
    && d.active.Some?
    && d.active.value.content == Pass(rules, Idle, total).text
    && (if d.record.prefix.None? then d.active.value.content == "" && total == ""
        else Trusted(rules, d.record, d.active.value)
             && d.record.offset == |d.active.value.content| && d.record.tailLength == 0
             && d.record.keyState.inKey == OpenKeyAfter(rules, total)
             && (d.record.keyState.inKey ==> !d.record.keyState.carried))
  }

  lemma {:induction false} CaughtUpStart(rules: Rules, d: LogDir, total: string)
    requires CaughtUp(rules, d, total) && !OpenKeyAfter(rules, total)
    ensures var start := StartRecord(rules, d.record, d.active.value);
            && start.offset == |d.active.value.content| && start.tailLength == 0
            && Carry(start.keyState) == start.keyState
            && Alike(Redactor(start.keyState, ""), Pass(rules, Idle, total).redactor)
  {
  }

  lemma {:induction false} ScanCatchesUp(rules: Rules, more: File, start: Record, total: string, raw: string, old': string)
    requires WholeLines(total) && WholeLines(raw) && raw != "" && old' == Pass(rules, Idle, total).text
    requires more.content == old' + raw && start.offset == |old'| && start.tailLength == 0
    requires Carry(start.keyState) == start.keyState && Alike(Redactor(start.keyState, ""), Pass(rules, Idle, total).redactor)
    ensures var s, p := ScanOf(rules, more.content, start), Pass(rules, Idle, total + raw);
            && more.content[..start.offset] + s.whole + s.last == p.text
            && s.tail == NoTail && s.last == ""
            && Alike(Redactor(s.keyState, ""), p.redactor)
  {
    var r := Redactor(start.keyState, "");
    assert more.content[start.offset..] == raw && more.content[..start.offset] == old';
    ScanIsPass(rules, r, start.keyState, raw, TailOf(start));
    PassAlike(rules, r, Pass(rules, Idle, total).redactor, raw);
    PassSplit(rules, Idle, total, raw);
    var s := ScanOf(rules, more.content, start);
    Associates(old', s.whole, s.last);
  }

  lemma {:induction false} GrowCatchesUp(rules: Rules, d: LogDir, total: string, a: Append)
    requires CaughtUp(rules, d, total) && !OpenKeyAfter(rules, total) && WholeLines(total) && WholeLines(a.raw)
    ensures CaughtUp(rules, Grow(rules, d, a), total + a.raw)
  {
    var f, rec := d.active.value, d.record;
    var more := f.(content := f.content + a.raw);
    SameStart(rules, rec, f, a.raw);
    CaughtUpStart(rules, d, total);
    var start := StartRecord(rules, rec, more);
    if a.raw == "" {
      assert more == f && total + a.raw == total;
      EmptyGrow(rules, d, total, a);
    } else {
      ScanCatchesUp(rules, more, start, total, a.raw, f.content);
      var device, inode := GrowScans(rules, d, a);
      NextTrusted(rules, more.content, start, ScanOf(rules, more.content, start), device, inode);
    }
  }

  lemma {:induction false} EmptyGrow(rules: Rules, d: LogDir, total: string, a: Append)
    requires CaughtUp(rules, d, total) && a.raw == ""
    ensures CaughtUp(rules, Grow(rules, d, a), total)
  {
    var f := d.active.value;
    assert f.content + a.raw == f.content;
    if d.record.prefix.None? {
      var start := FreshRecord(rules, f);
      assert f.content[start.offset..] == "";
      assert Covered(f.content, start, ScanOf(rules, f.content, start)) == "";
    }
  }

  /** Every append is whole lines and starts where no private key is open. */
  predicate CutsOutsideKeys(rules: Rules, appends: seq<Append>) {
    appends == []
    || var n := |appends| - 1;
       CutsOutsideKeys(rules, appends[..n]) && WholeLines(appends[n].raw) && !OpenKeyAfter(rules, Written(appends[..n]))
  }

  lemma {:induction false} WrittenLines(rules: Rules, appends: seq<Append>)
    requires CutsOutsideKeys(rules, appends)
    ensures WholeLines(Written(appends))
  {
    if appends != [] { WrittenLines(rules, appends[..|appends| - 1]); }
  }

  lemma {:induction false} GrownCatchesUp(rules: Rules, device: int, inode: int, appends: seq<Append>)
    requires CutsOutsideKeys(rules, appends)
    ensures CaughtUp(rules, Grown(rules, EmptyLog(device, inode), appends), Written(appends))
  {
    if appends != [] {
      var n := |appends| - 1;
      GrownCatchesUp(rules, device, inode, appends[..n]);
      WrittenLines(rules, appends[..n]);
      GrowCatchesUp(rules, Grown(rules, EmptyLog(device, inode), appends[..n]), Written(appends[..n]), appends[n]);
    }
  }

  /** When no maintenance falls inside a line or an open key, any number of incremental scans leave
      byte for byte what one full pass over everything written would. */
  lemma {:induction false} IncrementalIsFullPass(rules: Rules, device: int, inode: int, appends: seq<Append>)
    requires CutsOutsideKeys(rules, appends)
    ensures Grown(rules, EmptyLog(device, inode), appends).active.value.content == Pass(rules, Idle, Written(appends)).text
  {
    GrownCatchesUp(rules, device, inode, appends);
  }
}
