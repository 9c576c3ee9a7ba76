/** Logs that are only appended to between maintenances: incremental redaction against one pass
    over everything that was written (internal/ansible/log_policy.go). */
module LogAppend {
  import opened Outcomes
  import opened Redaction
  import opened LogScan
  import opened LogHistory

  /** Text appended between two maintenances, and the identity a rewritten log gets at the second. */
  datatype Append = Append(raw: string, device: int, inode: int)

  function Grow(rules: Rules, d: LogDir, a: Append): (r: LogDir)
    requires d.active.Some?
    ensures r.active.Some?
  {
    var f := d.active.value;
    Maintenance(rules, d.(active := Some(f.(content := f.content + a.raw))), a.device, a.inode, true)
  }

  function Grown(rules: Rules, d: LogDir, appends: seq<Append>): (r: LogDir)
    requires d.active.Some?
    ensures r.active.Some?
  {
    if appends == [] then d else Grow(rules, Grown(rules, d, appends[..|appends| - 1]), appends[|appends| - 1])
  }

  function Written(appends: seq<Append>): string {
    if appends == [] then "" else Written(appends[..|appends| - 1]) + appends[|appends| - 1].raw
  }

  function EmptyLog(device: int, inode: int): LogDir {
    LogDir(Some(File(device, inode, "")), NoRecord)
  }

  /** `text` is what the redactor wrote for exactly the text `raw`. */
  ghost predicate RedactedFrom(rules: Rules, text: string, raw: string) {
    exists items, pieces :: EmittedBy(rules, text, items, pieces) && Trail(items, pieces).Raw() == raw
  }

  /** The record, or the absence of one, accounts for the file with `total` written to it. */
  ghost predicate TracksBy(rules: Rules, f: File, start: Record, total: string, t: Trail) {
    && 0 <= start.offset && 0 <= start.tailLength && start.offset + start.tailLength <= |f.content|
    && OnTrail(rules, t, Redactor(Carry(start.keyState), ""), Carry(start.keyState), f.content[start.offset..], TailOf(start))
    && Replay(rules, t.items).text == f.content[..start.offset]
    && total == t.Raw() + f.content[start.offset + start.tailLength..]
  }

  ghost predicate Tracks(rules: Rules, d: LogDir, total: string) {
    && d.active.Some?
    && (d.record.prefix.None? || Trusted(rules, d.record, d.active.value))
    && exists t :: TracksBy(rules, d.active.value, StartRecord(rules, d.record, d.active.value), total, t)
  }

  lemma {:induction false} OnTrailMore(rules: Rules, t: Trail, r: Redactor, key: KeyState, text: string, tail: Tail, raw: string)
    requires OnTrail(rules, t, r, key, text, tail)
    ensures OnTrail(rules, t, r, key, text + raw, tail)
  {
    if tail.length > 0 {
      assert (text + raw)[..tail.length] == text[..tail.length];
    }
  }

  lemma {:induction false} AppendTracks(rules: Rules, f: File, start: Record, total: string, t: Trail, raw: string)
    requires TracksBy(rules, f, start, total, t)
    ensures TracksBy(rules, f.(content := f.content + raw), start, total + raw, t)
  {
    SlicesOfAppended(f.content, raw, start.offset);
    SlicesOfAppended(f.content, raw, start.offset + start.tailLength);
    OnTrailMore(rules, t, Redactor(Carry(start.keyState), ""), Carry(start.keyState), f.content[start.offset..], TailOf(start), raw);
    Associates(t.Raw(), f.content[start.offset + start.tailLength..], raw);
  }

  lemma {:induction false} SlicesOfAppended(content: string, raw: string, n: nat)
    requires n <= |content|
    ensures (content + raw)[..n] == content[..n] && (content + raw)[n..] == content[n..] + raw
  {
  }

  lemma {:induction false} Associates(a: string, b: string, c: string)
    ensures (a + b) + c == a + (b + c)
  {
  }

  lemma {:induction false} TwoParts(s: string, i: nat)
    requires i <= |s|
    ensures s == s[..i] + s[i..] && s + "" == s
  {
  }

  lemma {:induction false} TrailEmitted(rules: Rules, f: File, start: Record, total: string, t: Trail)
    requires TracksBy(rules, f, start, total, t) && start.offset + start.tailLength == |f.content|
    ensures RedactedFrom(rules, f.content, total)
  {
    TwoParts(f.content, start.offset);
    assert f.content[start.offset..][..start.tailLength] == f.content[start.offset..];
    assert EmittedBy(rules, f.content, t.items, t.pieces);
  }

  lemma {:induction false} LeftTrail(rules: Rules, content: string, start: Record, s: Scan, u: Trail)
    requires 0 <= start.offset <= |content| && Leaves(rules, content[..start.offset], s, u)
    ensures RedactedFrom(rules, content[..start.offset] + s.whole + s.last, u.Raw())
  {
    var text := content[..start.offset] + s.whole + s.last;
    if s.last == "" {
      assert s.tail.length == 0;
      assert Trail(u.items, []).Raw() == u.Raw();
      assert EmittedBy(rules, text, u.items, []);
    } else {
      assert EmittedBy(rules, text, u.items, u.pieces);
    }
  }

  /** The trail from which the next scan starts. */
  lemma {:induction false} NextTracks(rules: Rules, content: string, start: Record, s: Scan, u: Trail, device: int, inode: int)
    returns (t: Trail)
    requires 0 <= start.offset <= |content| && Leaves(rules, content[..start.offset], s, u)
    ensures TracksBy(rules, File(device, inode, content[..start.offset] + s.whole + s.last),
                     NextRecord(content, start, s), u.Raw(), t)
  {
    var had := content[..start.offset];
    var text, next := had + s.whole + s.last, NextRecord(content, start, s);
    assert text[..next.offset] == had + s.whole;
    assert text[next.offset..] == s.last;
    if s.tail.length == 0 {
      t := Trail(u.items + [ScanStart], []);
      ReplaySnoc(rules, u.items, ScanStart);
      RawSnoc(u.items, ScanStart);
      assert t.Raw() + s.last == u.Raw();
    } else {
      t := u;
      assert s.last[..s.tail.length] == s.last;
      assert text[next.offset + next.tailLength..] == "";
      assert u.Raw() + "" == u.Raw();
    }
  }

  lemma {:induction false} NextTrusted(rules: Rules, content: string, start: Record, s: Scan, device: int, inode: int)
    requires 0 <= start.offset <= |content| && start.rules == rules.fingerprint
    requires s.tail.length == 0 || s.tail.length == |s.last|
    ensures Trusted(rules, NextRecord(content, start, s).(device := device, inode := inode),
                    File(device, inode, content[..start.offset] + s.whole + s.last))
  {
    var text, next := content[..start.offset] + s.whole + s.last, NextRecord(content, start, s);
    assert text[..next.offset + next.tailLength] == Covered(content, start, s);
  }

  lemma {:induction false} SameStart(rules: Rules, rec: Record, f: File, raw: string)
    requires rec.prefix.None? || Trusted(rules, rec, f)
    ensures var more := f.(content := f.content + raw);
            StartRecord(rules, rec, more) == StartRecord(rules, rec, f) && (Trusted(rules, rec, f) <==> Trusted(rules, rec, more))
  {
    if rec.prefix.Some? {
      assert (f.content + raw)[..rec.offset + rec.tailLength] == f.content[..rec.offset + rec.tailLength];
    }
  }

  /** What the scanning branches of `redactLog` leave. */
  lemma {:induction false} ScanTracks(rules: Rules, f: File, rec: Record, total: string, t: Trail, device: int, inode: int)
    requires TracksBy(rules, f, StartRecord(rules, rec, f), total, t)
    ensures var start := StartRecord(rules, rec, f);
            var scan := ScanOf(rules, f.content, start);
            var text := f.content[..start.offset] + scan.whole + scan.last;
            && RedactedFrom(rules, text, total)
            && Tracks(rules, LogDir(Some(File(device, inode, text)),
                                    NextRecord(f.content, start, scan).(device := device, inode := inode)), total)
  {
    var start := StartRecord(rules, rec, f);
    var scan := ScanOf(rules, f.content, start);
    var u := ScanTrail(rules, f, start, total, t);
    LeftTrail(rules, f.content, start, scan, u);
    NextTrusted(rules, f.content, start, scan, device, inode);
    var v := NextTracks(rules, f.content, start, scan, u, device, inode);
    TracksOn(rules, File(device, inode, f.content[..start.offset] + scan.whole + scan.last), NextRecord(f.content, start, scan), total, v);
  }

  /** The trail a scan from a tracked record leaves. */
  lemma {:induction false} ScanTrail(rules: Rules, f: File, start: Record, total: string, t: Trail) returns (u: Trail)
    requires TracksBy(rules, f, start, total, t)
    ensures Leaves(rules, f.content[..start.offset], ScanOf(rules, f.content, start), u) && u.Raw() == total
  {
    SliceOfSlice(f.content, start.offset, start.tailLength);
    u := TrailFrom(rules, t, Redactor(Carry(start.keyState), ""), Carry(start.keyState), f.content[start.offset..], TailOf(start),
                   f.content[..start.offset], f.content[start.offset + start.tailLength..]);
  }

  lemma {:induction false} TrailFrom(rules: Rules, t: Trail, r: Redactor, key: KeyState, text: string, tail: Tail, had: string, more: string) returns (u: Trail)
    requires OnTrail(rules, t, r, key, text, tail) && tail.length <= |text| && text[tail.length..] == more && Replay(rules, t.items).text == had
    ensures Leaves(rules, had, ScanFrom(rules, r, key, text, tail), u) && u.Raw() == t.Raw() + more
  {
    u := ScanOnTrail(rules, t, r, key, text, tail);
  }

  lemma {:induction false} SliceOfSlice(s: string, i: nat, j: nat)
    requires i + j <= |s|
    ensures s[i..][j..] == s[i + j..]
  {
  }

  lemma {:induction false} TracksOn(rules: Rules, f: File, rec: Record, total: string, t: Trail)
    requires TracksBy(rules, f, rec, total, t) && Trusted(rules, rec.(device := f.device, inode := f.inode), f)
    ensures Tracks(rules, LogDir(Some(f), rec.(device := f.device, inode := f.inode)), total)
  {
    var next := rec.(device := f.device, inode := f.inode);
    assert TailOf(next) == TailOf(rec);
    assert StartRecord(rules, next, f) == next && TracksBy(rules, f, next, total, t);
  }

  /** A maintenance that scans leaves the scan's output, under the old identity or a new one. */
  lemma {:induction false} GrowScans(rules: Rules, d: LogDir, a: Append) returns (device: int, inode: int)
    requires d.active.Some?
    requires var more := d.active.value.(content := d.active.value.content + a.raw);
             !(Trusted(rules, d.record, more) && d.record.offset + d.record.tailLength == |more.content|)
    ensures var more := d.active.value.(content := d.active.value.content + a.raw);
            var start := StartRecord(rules, d.record, more);
            var scan := ScanOf(rules, more.content, start);
            Grow(rules, d, a) == LogDir(Some(File(device, inode, more.content[..start.offset] + scan.whole + scan.last)),
                                        NextRecord(more.content, start, scan).(device := device, inode := inode))
  {
    var more := d.active.value.(content := d.active.value.content + a.raw);
    var start := StartRecord(rules, d.record, more);
    if ScanOf(rules, more.content, start).changed {
      device, inode := a.device, a.inode;
    } else {
      device, inode := more.device, more.inode;
      ScanLeavesFile(rules, more, start);
    }
  }

  lemma {:induction false} GrowTracks(rules: Rules, d: LogDir, total: string, a: Append)
    requires Tracks(rules, d, total)
    ensures Tracks(rules, Grow(rules, d, a), total + a.raw)
    ensures RedactedFrom(rules, Grow(rules, d, a).active.value.content, total + a.raw)
  {
    var f, rec := d.active.value, d.record;
    var t :| TracksBy(rules, f, StartRecord(rules, rec, f), total, t);
    var more := f.(content := f.content + a.raw);
    SameStart(rules, rec, f, a.raw);
    var start := StartRecord(rules, rec, more);
    AppendTracks(rules, f, start, total, t, a.raw);
    if Trusted(rules, rec, more) && rec.offset + rec.tailLength == |more.content| {
      TrailEmitted(rules, more, start, total + a.raw, t);
      assert Grow(rules, d, a) == LogDir(Some(more), rec);
    } else {
      var device, inode := GrowScans(rules, d, a);
      ScanTracks(rules, more, rec, total + a.raw, t, device, inode);
    }
  }

  lemma {:induction false} GrownTracks(rules: Rules, device: int, inode: int, appends: seq<Append>)
    ensures var d := Grown(rules, EmptyLog(device, inode), appends);
            Tracks(rules, d, Written(appends)) && RedactedFrom(rules, d.active.value.content, Written(appends))
  {
    if appends == [] {
      var d := EmptyLog(device, inode);
      var f := d.active.value;
      assert TracksBy(rules, f, StartRecord(rules, NoRecord, f), "", Trail([], []));
      TrailEmitted(rules, f, StartRecord(rules, NoRecord, f), "", Trail([], []));
    } else {
      var n := |appends| - 1;
      GrownTracks(rules, device, inode, appends[..n]);
      GrowTracks(rules, Grown(rules, EmptyLog(device, inode), appends[..n]), Written(appends[..n]), appends[n]);
    }
  }

  /** However the text reached the log between maintenances, cut inside lines, values and keys, the
      log is what the redactor writes for exactly that text: nothing is lost, repeated or reordered. */
  lemma {:induction false} AppendsAccounted(rules: Rules, device: int, inode: int, appends: seq<Append>)
    ensures RedactedFrom(rules, Grown(rules, EmptyLog(device, inode), appends).active.value.content, Written(appends))
  {
    GrownTracks(rules, device, inode, appends);
  }
}
