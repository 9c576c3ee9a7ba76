/** The log of an append-only history against a reader that sees nothing but the text as it arrives: no file, no offset,
    no digest, no record (`redactRange` and `redactLog` in internal/ansible/log_policy.go). */
module LogReader {
  import opened Outcomes
  import opened Redaction
  import opened LogScan
  import opened LogHistory
  import opened LogAppend

  /** What was written for complete lines, the redactor after them, and the pieces so far of an unfinished line. */
  datatype Reader = Reader(text: string, redactor: Redactor, pieces: seq<string>)

  function FirstLine(text: string): string {
    if text == "" then "" else text[..LineLength(text)]
  }

  /** Masks a line, or the next piece of one. */
  function TakeLine(rules: Rules, r: Reader, line: string): Reader {
    var pieces := r.pieces + [line];
    var j := MaskPieces(rules, r.redactor, pieces);
    if Complete(line) then Reader(r.text + j.text, j.after, []) else r.(pieces := pieces)
  }

  function Take(rules: Rules, r: Reader, text: string): Reader
    decreases |text|
  {
    if text == "" && r.pieces == [] then r
    else
      var line := FirstLine(text);
      if Complete(line) then Take(rules, TakeLine(rules, r, line), text[|line|..]) else TakeLine(rules, r, line)
  }

  /** A reader between two maintenances; it reads `pending`, an unfinished line it had nothing to mask in, again. */
  datatype Reading = Reading(begun: bool, reader: Reader, pending: string)

  function Renewed(r: Reader): Reader {
    Reader(r.text, Redactor(Carry(r.redactor.state), ""), [])
  }

  /** The end of a maintenance. A line that was masked, or came in pieces, is taken up where it stands; otherwise
      only an open key is carried over. */
  function Pause(rules: Rules, r: Reader): Reading {
    if r.pieces == [] then Reading(true, Renewed(r), "")
    else if |r.pieces| == 1 && MaskPieces(rules, r.redactor, r.pieces).text == r.pieces[0] then Reading(true, Renewed(r), r.pieces[0])
    else Reading(true, r, "")
  }

  function Reads(rules: Rules, at: Reading, raw: string): Reading {
    if at.begun && at.pending + raw == "" then at else Pause(rules, Take(rules, at.reader, at.pending + raw))
  }

  function ReadAll(rules: Rules, appends: seq<Append>): Reading {
    if appends == [] then Reading(false, Reader("", Idle, []), "")
    else Reads(rules, ReadAll(rules, appends[..|appends| - 1]), appends[|appends| - 1].raw)
  }

  function Output(rules: Rules, at: Reading): string {
    at.reader.text + (if at.reader.pieces == [] then "" else MaskPieces(rules, at.reader.redactor, at.reader.pieces).text) + at.pending
  }

  // A scan does what the reader does.

  /** Where a scan of `text` stands: at the reader's redactor, or at the end of what it wrote for the unfinished line. */
  ghost predicate At(rules: Rules, r: Reader, redactor: Redactor, key: KeyState, text: string, tail: Tail) {
    if tail.length == 0 then r.pieces == [] && r.redactor == redactor && redactor.state == key
    else Carry(r.redactor.state) == Carry(key) && tail.length <= |text|
         && MaskedTail(rules, r.redactor, r.pieces, text[..tail.length], tail.keyState, tail.value)
  }

  /** What the scan leaves unfinished is what the reader does. */
  ghost predicate Ends(rules: Rules, s: Scan, r: Reader) {
    if r.pieces == [] then s.last == "" && s.tail.length == 0 && s.keyState == r.redactor.state
    else Unfinished(r.pieces) && EndsIn(s, r, MaskPieces(rules, r.redactor, r.pieces))
  }

  predicate EndsIn(s: Scan, r: Reader, j: Judged)
    requires r.pieces != []
  {
    && s.last == j.text
    && (if |r.pieces| == 1 && j.text == r.pieces[0] then s.tail.length == 0 && s.keyState == r.redactor.state
        else j.text != "" && s.tail == Tail(|j.text|, j.after.state, j.open) && Carry(s.keyState) == Carry(r.redactor.state))
  }

  lemma {:induction false} OneLineLength(text: string, n: nat)
    requires 1 <= n <= |text| && IsLine(text[..n]) && (n < |text| ==> Complete(text[..n]))
    ensures n == LineLength(text)
  {
    var k := LineLength(text);
    assert forall i :: 0 <= i < n ==> text[..n][i] == text[i];
    assert forall i :: 0 <= i < k ==> text[..k][i] == text[i];
    assert text[n - 1] == text[..n][n - 1] && text[k - 1] == text[..k][k - 1];
  }

  lemma {:induction false} LineAfterTail(text: string, n: nat)
    requires text != "" && n <= |text| && NoNewline(text[..n])
    ensures n <= LineLength(text) && FirstLine(text[n..]) == text[..LineLength(text)][n..]
    ensures text[n..][LineLength(text) - n..] == text[LineLength(text)..]
  {
    TailWithinLine(text, n);
    var k, more := LineLength(text), text[n..];
    assert more[..k - n] == text[..k][n..];
    assert text[..k][..n] == text[..n];
    SplitLine(text[..k], n);
    if more != "" {
      LineOfRest(text, n, k);
      OneLineLength(more, k - n);
    }
  }

  lemma {:induction false} LineOfRest(text: string, n: nat, k: nat)
    requires n <= k <= |text| && n < |text| && IsLine(text[..k]) && (k < |text| ==> Complete(text[..k])) && NoNewline(text[..k][..n])
    ensures var rest := text[..k][n..];
            1 <= |rest| && IsLine(rest) && (k < |text| ==> Complete(rest))
  {
    SplitLine(text[..k], n);
    var line, rest := text[..k], text[..k][n..];
    if !Complete(line) {
      assert k == |text|;
      PartialLine(rest);
    }
  }

  /** The line `line` of a scan, of which `rest` is new, is masked as the next piece `rest`. */
  ghost predicate Takes(rules: Rules, r: Reader, redactor: Redactor, line: string, rest: string, tail: Tail) {
    && (Complete(line) <==> Complete(rest))
    && Judge(rules, redactor, line, tail) == MaskPieces(rules, r.redactor, r.pieces + [rest])
    && (!Complete(line) ==> Unfinished(r.pieces + [rest]) && Judge(rules, redactor, line, tail).text != "")
  }

  lemma {:induction false} TakesMore(rules: Rules, r: Reader, redactor: Redactor, line: string, tail: Tail)
    requires IsLine(line) && Continues(tail, line)
    requires MaskedTail(rules, r.redactor, r.pieces, line[..tail.length], tail.keyState, tail.value)
    ensures Takes(rules, r, redactor, line, line[tail.length..], tail)
  {
    var rest := line[tail.length..];
    MaskedPiecesPartial(rules, r.redactor, r.pieces);
    SplitLine(line, tail.length);
    MaskPiecesSnoc(rules, r.redactor, r.pieces, rest);
    if !Complete(line) {
      assert Unfinished(r.pieces + [rest]);
      MaskedPiecesPartial(rules, r.redactor, r.pieces + [rest]);
    }
  }

  lemma {:induction false} JudgeNew(rules: Rules, redactor: Redactor, line: string)
    ensures Judge(rules, redactor, line, NoTail) == MaskPieces(rules, redactor, [] + [line])
  {
    assert [] + [line] == [line];
  }

  lemma {:induction false} TakesNew(rules: Rules, r: Reader, line: string)
    requires IsLine(line) && r.pieces == []
    ensures Takes(rules, r, r.redactor, line, line, NoTail)
  {
    JudgeNew(rules, r.redactor, line);
    if !Complete(line) {
      PartialLine(line);
      MaskedPiecesPartial(rules, r.redactor, r.pieces + [line]);
    }
  }

  /** Judging the first line is masking the next piece. */
  lemma {:induction false} JudgeTakes(rules: Rules, r: Reader, redactor: Redactor, key: KeyState, text: string, tail: Tail)
    requires At(rules, r, redactor, key, text, tail) && text != ""
    ensures var line := text[..LineLength(text)];
            && tail.length <= |line| && (Continues(tail, line) <==> r.pieces != [])
            && FirstLine(text[tail.length..]) == line[tail.length..]
            && text[tail.length..][|line| - tail.length..] == text[|line|..]
            && Takes(rules, r, redactor, line, line[tail.length..], tail)
  {
    var line := text[..LineLength(text)];
    if tail.length > 0 {
      MaskedPiecesPartial(rules, r.redactor, r.pieces);
      LineAfterTail(text, tail.length);
      assert line[..tail.length] == text[..tail.length];
      TakesMore(rules, r, redactor, line, tail);
    } else {
      assert line[0..] == line && text[0..] == text;
      TakesNew(rules, r, line);
    }
  }

  lemma {:induction false} TakeFirst(rules: Rules, r: Reader, text: string)
    requires text != "" || r.pieces != []
    ensures var line := FirstLine(text);
            Take(rules, r, text) == if Complete(line) then Take(rules, TakeLine(rules, r, line), text[|line|..]) else TakeLine(rules, r, line)
  {
  }

  lemma {:induction false} LastTakes(rules: Rules, r: Reader, redactor: Redactor, key: KeyState, line: string, rest: string, tail: Tail)
    requires Takes(rules, r, redactor, line, rest, tail) && !Complete(line) && (Continues(tail, line) <==> r.pieces != [])
    requires Carry(r.redactor.state) == Carry(key) && (r.pieces == [] ==> rest == line && r.redactor.state == key)
    ensures var j := Judge(rules, redactor, line, tail);
            Ends(rules, Scan("", j.text, key, LastTail(line, tail, j), j.text != line), TakeLine(rules, r, rest))
  {
    assert |r.pieces + [rest]| == |r.pieces| + 1;
  }

  lemma {:induction false} EndsAfter(rules: Rules, text: string, changed: bool, s: Scan, r: Reader)
    requires Ends(rules, s, r)
    ensures Ends(rules, Prepend(text, changed, s), r)
  {
  }

  /** A scan and a reader that have a complete line before them. */
  lemma {:induction false} WholeLine(rules: Rules, r: Reader, redactor: Redactor, key: KeyState, text: string, tail: Tail)
    requires At(rules, r, redactor, key, text, tail) && text != "" && Complete(text[..LineLength(text)])
    ensures var n := LineLength(text);
            var j := Judge(rules, redactor, text[..n], tail);
            && tail.length <= n
            && ScanFrom(rules, redactor, key, text, tail)
                 == Prepend(j.text, j.text != text[..n], ScanFrom(rules, j.after, j.after.state, text[n..], NoTail))
            && Take(rules, r, text[tail.length..]) == Take(rules, Reader(r.text + j.text, j.after, []), text[n..])
  {
    JudgeTakes(rules, r, redactor, key, text, tail);
    TakeFirst(rules, r, text[tail.length..]);
  }

  /** A scan and a reader that have an unfinished line before them. */
  lemma {:induction false} PartialTakes(rules: Rules, r: Reader, redactor: Redactor, key: KeyState, text: string, tail: Tail)
    requires At(rules, r, redactor, key, text, tail) && text != "" && !Complete(text[..LineLength(text)])
    ensures tail.length <= |text|
    ensures var s, v := ScanFrom(rules, redactor, key, text, tail), Take(rules, r, text[tail.length..]);
            v.text == r.text && s.whole == "" && Ends(rules, s, v)
  {
    var line := text[..LineLength(text)];
    JudgeTakes(rules, r, redactor, key, text, tail);
    TakeFirst(rules, r, text[tail.length..]);
    LastTakes(rules, r, redactor, key, line, line[tail.length..], tail);
  }

  lemma {:induction false} ScanTakes(rules: Rules, r: Reader, redactor: Redactor, key: KeyState, text: string, tail: Tail)
    requires At(rules, r, redactor, key, text, tail)
    ensures tail.length <= |text|
    ensures var s, v := ScanFrom(rules, redactor, key, text, tail), Take(rules, r, text[tail.length..]);
            v.text == r.text + s.whole && Ends(rules, s, v)
    decreases |text|
  {
    if text == "" {
      assert r.text + "" == r.text;
    } else if Complete(text[..LineLength(text)]) {
      var n := LineLength(text);
      var j := Judge(rules, redactor, text[..n], tail);
      WholeLine(rules, r, redactor, key, text, tail);
      var next, s := Reader(r.text + j.text, j.after, []), ScanFrom(rules, j.after, j.after.state, text[n..], NoTail);
      assert text[n..][0..] == text[n..];
      ScanTakes(rules, next, j.after, j.after.state, text[n..], NoTail);
      EndsAfter(rules, j.text, j.text != text[..n], s, Take(rules, next, text[n..]));
      JoinedThree(r.text, j.text, s.whole);
    } else {
      PartialTakes(rules, r, redactor, key, text, tail);
      assert r.text + "" == r.text;
    }
  }

  // The log does what the reader does.

  ghost predicate Follows(rules: Rules, f: File, start: Record, r: Reader, pending: string) {
    && 0 <= start.offset && 0 <= start.tailLength && start.offset + start.tailLength <= |f.content|
    && r.text == f.content[..start.offset] && pending == f.content[start.offset + start.tailLength..]
    && At(rules, r, Redactor(Carry(start.keyState), ""), Carry(start.keyState), f.content[start.offset..], TailOf(start))
  }

  ghost predicate Matches(rules: Rules, d: LogDir, at: Reading) {
    && d.active.Some?
    && (if at.begun then Trusted(rules, d.record, d.active.value) else d.record.prefix.None?)
    && Follows(rules, d.active.value, StartRecord(rules, d.record, d.active.value), at.reader, at.pending)
  }

  lemma {:induction false} AppendFollows(rules: Rules, f: File, start: Record, r: Reader, pending: string, raw: string)
    requires Follows(rules, f, start, r, pending)
    ensures Follows(rules, f.(content := f.content + raw), start, r, pending + raw)
  {
    SlicesOfAppended(f.content, raw, start.offset);
    SlicesOfAppended(f.content, raw, start.offset + start.tailLength);
    if start.tailLength > 0 {
      assert (f.content[start.offset..] + raw)[..start.tailLength] == f.content[start.offset..][..start.tailLength];
    }
  }

  lemma {:induction false} PauseFollows(rules: Rules, content: string, start: Record, s: Scan, r: Reader, f: File)
    requires 0 <= start.offset <= |content| && r.text == content[..start.offset] + s.whole && Ends(rules, s, r)
    requires f.content == content[..start.offset] + s.whole + s.last
    ensures Follows(rules, f, NextRecord(content, start, s), Pause(rules, r).reader, Pause(rules, r).pending)
    ensures s.tail.length == 0 || s.tail.length == |s.last|
  {
    var next := NextRecord(content, start, s);
    assert f.content[..next.offset] == r.text;
    assert f.content[next.offset..] == s.last;
    assert f.content[next.offset + next.tailLength..] == s.last[next.tailLength..];
    assert next.tailLength > 0 ==> s.last[..next.tailLength] == s.last;
  }

  lemma {:induction false} ThreeSlices(s: string, i: nat, n: nat)
    requires i + n <= |s|
    ensures s == s[..i] + s[i..][..n] + s[i + n..] && s[i..][..0] == ""
  {
  }

  lemma {:induction false} FollowsOutput(rules: Rules, f: File, start: Record, at: Reading)
    requires Follows(rules, f, start, at.reader, at.pending)
    ensures f.content == Output(rules, at)
  {
    ThreeSlices(f.content, start.offset, start.tailLength);
  }

  lemma {:induction false} ScanReads(rules: Rules, f: File, start: Record, r: Reader, text: string)
    requires Follows(rules, f, start, r, text)
    ensures var s, v := ScanOf(rules, f.content, start), Take(rules, r, text);
            v.text == f.content[..start.offset] + s.whole && Ends(rules, s, v)
  {
    SliceOfSlice(f.content, start.offset, start.tailLength);
    TakesFrom(rules, r, Redactor(Carry(start.keyState), ""), Carry(start.keyState), f.content[start.offset..], TailOf(start), text);
  }

  lemma {:induction false} TakesFrom(rules: Rules, r: Reader, redactor: Redactor, key: KeyState, text: string, tail: Tail, more: string)
    requires At(rules, r, redactor, key, text, tail) && tail.length <= |text| && text[tail.length..] == more
    ensures var s, v := ScanFrom(rules, redactor, key, text, tail), Take(rules, r, more); v.text == r.text + s.whole && Ends(rules, s, v)
  {
    ScanTakes(rules, r, redactor, key, text, tail);
  }

  /** What the scanning branches of `redactLog` leave. */
  lemma {:induction false} ScanMatches(rules: Rules, f: File, rec: Record, r: Reader, text: string, device: int, inode: int)
    requires Follows(rules, f, StartRecord(rules, rec, f), r, text)
    ensures var start := StartRecord(rules, rec, f);
            var scan := ScanOf(rules, f.content, start);
            Matches(rules, LogDir(Some(File(device, inode, f.content[..start.offset] + scan.whole + scan.last)),
                                  NextRecord(f.content, start, scan).(device := device, inode := inode)), Pause(rules, Take(rules, r, text)))
  {
    var start := StartRecord(rules, rec, f);
    var scan := ScanOf(rules, f.content, start);
    ScanReads(rules, f, start, r, text);
    var v, g := Take(rules, r, text), File(device, inode, f.content[..start.offset] + scan.whole + scan.last);
    PauseFollows(rules, f.content, start, scan, v, g);
    NextTrusted(rules, f.content, start, scan, device, inode);
    MatchesOn(rules, g, NextRecord(f.content, start, scan), Pause(rules, v));
  }

  lemma {:induction false} MatchesOn(rules: Rules, f: File, rec: Record, at: Reading)
    requires at.begun && Follows(rules, f, rec, at.reader, at.pending) && Trusted(rules, rec.(device := f.device, inode := f.inode), f)
    ensures Matches(rules, LogDir(Some(f), rec.(device := f.device, inode := f.inode)), at)
  {
    var next := rec.(device := f.device, inode := f.inode);
    assert TailOf(next) == TailOf(rec) && StartRecord(rules, next, f) == next;
  }

  lemma {:induction false} GrowMatches(rules: Rules, d: LogDir, at: Reading, a: Append)
    requires Matches(rules, d, at)
    ensures Matches(rules, Grow(rules, d, a), Reads(rules, at, a.raw))
  {
    var f, rec := d.active.value, d.record;
    var more := f.(content := f.content + a.raw);
    SameStart(rules, rec, f, a.raw);
    AppendFollows(rules, f, StartRecord(rules, rec, f), at.reader, at.pending, a.raw);
    if at.begun && at.pending + a.raw == "" {
      assert Grow(rules, d, a) == LogDir(Some(more), rec);
    } else {
      var device, inode := GrowScans(rules, d, a);
      ScanMatches(rules, more, rec, at.reader, at.pending + a.raw, device, inode);
    }
  }

  lemma {:induction false} GrownMatches(rules: Rules, device: int, inode: int, appends: seq<Append>)
    ensures Matches(rules, Grown(rules, EmptyLog(device, inode), appends), ReadAll(rules, appends))
  {
    if appends != [] {
      var n := |appends| - 1;
      GrownMatches(rules, device, inode, appends[..n]);
      GrowMatches(rules, Grown(rules, EmptyLog(device, inode), appends[..n]), ReadAll(rules, appends[..n]), appends[n]);
    }
  }

  /** However the text is cut between maintenances, inside lines, values and keys, the log is what the reader writes for the
      same text with the same pauses: the offsets, digests and masked tails of the record leave no trace in it. */
  lemma {:induction false} LogFollowsReader(rules: Rules, device: int, inode: int, appends: seq<Append>)
    ensures Grown(rules, EmptyLog(device, inode), appends).active.value.content == Output(rules, ReadAll(rules, appends))
  {
    GrownMatches(rules, device, inode, appends);
    var d := Grown(rules, EmptyLog(device, inode), appends);
    FollowsOutput(rules, d.active.value, StartRecord(rules, d.record, d.active.value), ReadAll(rules, appends));
  }
}
