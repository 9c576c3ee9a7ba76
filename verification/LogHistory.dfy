/** What a saved redaction record is worth over every history of the active log: appends,
    truncations, rewrites, replacements, crashes and maintenances (internal/ansible/log_policy.go). */
module LogHistory {
  import opened Outcomes
  import opened Redaction
  import opened LogScan

  /** A step of the redactor over the life of a log: a new scan starts, a complete line is judged,
      or a line is judged that reached the log in pieces, over as many scans. */
  datatype Item = ScanStart | Line(raw: string) | Resumed(pieces: seq<string>)

  datatype Replayed = Replayed(redactor: Redactor, text: string)

  /** A line masked piece by piece: the first piece as it stands, each later one as the
      continuation of what was written for the ones before. */
  function MaskPieces(rules: Rules, r: Redactor, pieces: seq<string>): Judged
    requires pieces != []
  {
    var n := |pieces| - 1;
    if n == 0 then Redact(rules, r, pieces[0])
    else
      var before := MaskPieces(rules, r, pieces[..n]);
      Continue(rules, before.text, pieces[n], before.after.state, before.open)
  }

  /** Everything the redactor writes for `items`, from an empty log on. */
  function Replay(rules: Rules, items: seq<Item>): Replayed
    requires ItemsOk(items)
  {
    if items == [] then Replayed(Idle, "")
    else
      var n := |items| - 1;
      var before := Replay(rules, items[..n]);
      match items[n]
      case ScanStart => Replayed(Redactor(Carry(before.redactor.state), ""), before.text)
      case Line(raw) =>
        var j := Redact(rules, before.redactor, raw);
        Replayed(j.after, before.text + j.text)
      case Resumed(pieces) =>
        var j := MaskPieces(rules, before.redactor, pieces);
        Replayed(j.after, before.text + j.text)
  }

  function Join(pieces: seq<string>): string {
    if pieces == [] then "" else Join(pieces[..|pieces| - 1]) + pieces[|pieces| - 1]
  }

  /** The pieces of a line that is not finished yet. */
  predicate Unfinished(pieces: seq<string>) {
    pieces != [] && pieces[0] != "" && forall i :: 0 <= i < |pieces| ==> NoNewline(pieces[i])
  }

  predicate Finished(pieces: seq<string>) {
    |pieces| >= 2 && Unfinished(pieces[..|pieces| - 1]) && IsLine(pieces[|pieces| - 1]) && Complete(pieces[|pieces| - 1])
  }

  predicate ItemOk(item: Item) {
    match item
    case ScanStart => true
    case Line(raw) => IsLine(raw) && Complete(raw)
    case Resumed(pieces) => Finished(pieces)
  }

  predicate ItemsOk(items: seq<Item>) {
    forall i :: 0 <= i < |items| ==> ItemOk(items[i])
  }

  /** The text that reached the log, before masking. */
  function RawItem(item: Item): string {
    match item
    case ScanStart => ""
    case Line(raw) => raw
    case Resumed(pieces) => Join(pieces)
  }

  function RawItems(items: seq<Item>): string {
    if items == [] then "" else RawItems(items[..|items| - 1]) + RawItem(items[|items| - 1])
  }

  // What a record claims.

  /** The unfinished line after `items` was masked as `text`, ending in the given key state and value. */
  ghost predicate MaskedTail(rules: Rules, r: Redactor, pieces: seq<string>, text: string, key: KeyState, value: ValueKind) {
    && Unfinished(pieces)
    && var j := MaskPieces(rules, r, pieces); j.text == text && j.after.state == key && j.open == value
  }

  /** `items` and `pieces` account for every byte the record covers and for its key states. */
  ghost predicate Accounts(rules: Rules, rec: Record, text: string, items: seq<Item>, pieces: seq<string>) {
    && ItemsOk(items)
    && 0 <= rec.offset && 0 <= rec.tailLength && |text| == rec.offset + rec.tailLength
    && Replay(rules, items).text == text[..rec.offset]
    && (if rec.tailLength == 0 then Replay(rules, items).redactor.state == rec.keyState
        else Carry(Replay(rules, items).redactor.state) == Carry(rec.keyState)
             && MaskedTail(rules, Replay(rules, items).redactor, pieces, text[rec.offset..], rec.tailKeyState, rec.tailValue))
  }

  ghost predicate Accountable(rules: Rules, rec: Record, text: string) {
    exists items, pieces :: Accounts(rules, rec, text, items, pieces)
  }

  /** A record made under these rules is only ever about redactor output. */
  ghost predicate Honest(rules: Rules, rec: Record) {
    rec.rules == rules.fingerprint && rec.prefix.Some? ==> Accountable(rules, rec, rec.prefix.value.of)
  }

  /** Every byte of `text` was written by the redactor: complete lines, then at most one unfinished line. */
  ghost predicate Emitted(rules: Rules, text: string) {
    exists items, pieces :: EmittedBy(rules, text, items, pieces)
  }

  ghost predicate EmittedBy(rules: Rules, text: string, items: seq<Item>, pieces: seq<string>) {
    && ItemsOk(items)
    && (pieces == [] || Unfinished(pieces))
    && text == Replay(rules, items).text + if pieces == [] then "" else MaskPieces(rules, Replay(rules, items).redactor, pieces).text
  }

  // Masked pieces form a line.

  lemma {:induction false} PartialLine(s: string)
    ensures (IsLine(s) && !Complete(s)) <==> (s != "" && NoNewline(s))
  {
    if IsLine(s) && !Complete(s) {
      forall i | 0 <= i < |s| ensures s[i] != '\n' {
        assert i < |s| - 1 || i == |s| - 1;
      }
    }
  }

  lemma {:induction false} RedactPartial(rules: Rules, r: Redactor, line: string)
    requires line != "" && NoNewline(line)
    ensures Redact(rules, r, line).text != "" && NoNewline(Redact(rules, r, line).text)
  {
    PartialLine(line);
    RedactLine(rules, r, line);
    PartialLine(Redact(rules, r, line).text);
  }

  lemma {:induction false} ContinuePartial(rules: Rules, masked: string, rest: string, tail: KeyState, value: ValueKind)
    requires masked != "" && NoNewline(masked) && NoNewline(rest)
    ensures var t := Continue(rules, masked, rest, tail, value).text; t != "" && NoNewline(t)
  {
    PartialLine(masked);
    PartialLine(masked + rest);
    ContinueLine(rules, masked, rest, tail, value);
    PartialLine(Continue(rules, masked, rest, tail, value).text);
  }

  lemma {:induction false} UnfinishedFront(pieces: seq<string>)
    requires Unfinished(pieces) && |pieces| > 1
    ensures Unfinished(pieces[..|pieces| - 1]) && NoNewline(pieces[|pieces| - 1])
  {
  }

  lemma {:induction false} MaskedPiecesPartial(rules: Rules, r: Redactor, pieces: seq<string>)
    requires Unfinished(pieces)
    ensures var t := MaskPieces(rules, r, pieces).text; t != "" && NoNewline(t)
  {
    var n := |pieces| - 1;
    if n == 0 {
      RedactPartial(rules, r, pieces[0]);
    } else {
      UnfinishedFront(pieces);
      MaskedPiecesPartial(rules, r, pieces[..n]);
      var before := MaskPieces(rules, r, pieces[..n]);
      ContinuePartial(rules, before.text, pieces[n], before.after.state, before.open);
    }
  }

  // One scan.

  /** The ghost history a scan extends: what was replayed so far, and the pieces of an unfinished line. */
  datatype Trail = Trail(items: seq<Item>, pieces: seq<string>) {
    /** Everything written to the log that the trail accounts for. */
    function Raw(): string {
      RawItems(items) + Join(pieces)
    }
  }

  /** Where a scan stands: at the redactor of its trail, or about to continue the trail's unfinished line. */
  ghost predicate OnTrail(rules: Rules, t: Trail, r: Redactor, key: KeyState, text: string, tail: Tail) {
    && ItemsOk(t.items)
    && (if tail.length == 0 then t.pieces == [] && Replay(rules, t.items).redactor == r && r.state == key
        else && Carry(Replay(rules, t.items).redactor.state) == Carry(key)
             && tail.length <= |text|
             && MaskedTail(rules, Replay(rules, t.items).redactor, t.pieces, text[..tail.length], tail.keyState, tail.value))
  }

  /** What a finished scan leaves: every written byte is on the extended trail. */
  ghost predicate Leaves(rules: Rules, had: string, s: Scan, t: Trail) {
    && ItemsOk(t.items)
    && Replay(rules, t.items).text == had + s.whole
    && LeavesTail(rules, Replay(rules, t.items).redactor, s.keyState, s.tail, s.last, t.pieces)
    && (s.tail.length == 0 ==> Join(t.pieces) == s.last)
  }

  ghost predicate LeavesTail(rules: Rules, r: Redactor, key: KeyState, tail: Tail, last: string, pieces: seq<string>) {
    && (if tail.length == 0 then r.state == key
        else Carry(r.state) == Carry(key) && tail.length == |last|
             && MaskedTail(rules, r, pieces, last, tail.keyState, tail.value))
    && (last == "" || (Unfinished(pieces) && last == MaskPieces(rules, r, pieces).text))
  }

  lemma {:induction false} ReplaySnoc(rules: Rules, items: seq<Item>, item: Item)
    requires ItemsOk(items) && ItemOk(item)
    ensures ItemsOk(items + [item])
    ensures var before, after := Replay(rules, items), Replay(rules, items + [item]);
            match item
            case ScanStart => after == Replayed(Redactor(Carry(before.redactor.state), ""), before.text)
            case Line(raw) =>
              var j := Redact(rules, before.redactor, raw);
              after == Replayed(j.after, before.text + j.text)
            case Resumed(pieces) =>
              var j := MaskPieces(rules, before.redactor, pieces);
              after == Replayed(j.after, before.text + j.text)
  {
    var all := items + [item];
    assert all[..|all| - 1] == items;
  }

  lemma {:induction false} MaskPiecesSnoc(rules: Rules, r: Redactor, pieces: seq<string>, piece: string)
    requires pieces != []
    ensures var before := MaskPieces(rules, r, pieces);
            MaskPieces(rules, r, pieces + [piece]) == Continue(rules, before.text, piece, before.after.state, before.open)
  {
    var all := pieces + [piece];
    assert all[..|all| - 1] == pieces;
  }

  /** A masked tail has no newline, so the first line of a trusted scan holds all of it. */
  lemma {:induction false} TailWithinLine(text: string, n: nat)
    requires text != "" && n <= |text| && NoNewline(text[..n])
    ensures n <= LineLength(text)
  {
    var k := LineLength(text);
    assert text[..k][k - 1] == text[k - 1];
    assert forall i :: 0 <= i < n ==> text[..n][i] == text[i];
  }

  /** The trail `u` is `t` and one line more. */
  ghost predicate ExtendsBy(rules: Rules, t: Trail, u: Trail, line: string, added: string, j: Judged) {
    && ItemsOk(t.items) && ItemsOk(u.items)
    && u.Raw() == t.Raw() + added
    && (if Complete(line) then
          u.pieces == [] && Replay(rules, u.items) == Replayed(j.after, Replay(rules, t.items).text + j.text)
        else u.items == t.items && j.text != ""
             && MaskedTail(rules, Replay(rules, t.items).redactor, u.pieces, j.text, j.after.state, j.open))
  }

  /** Finishing, or adding to, the unfinished line of the trail. */
  lemma {:induction false} ResumeLine(rules: Rules, t: Trail, line: string, n: nat, key: KeyState, value: ValueKind)
    returns (u: Trail)
    requires ItemsOk(t.items) && IsLine(line) && n <= |line|
    requires MaskedTail(rules, Replay(rules, t.items).redactor, t.pieces, line[..n], key, value)
    ensures ExtendsBy(rules, t, u, line, line[n..], Continue(rules, line[..n], line[n..], key, value))
  {
    var at, rest := Replay(rules, t.items).redactor, line[n..];
    MaskedPiecesPartial(rules, at, t.pieces);
    SplitLine(line, n);
    MaskPiecesSnoc(rules, at, t.pieces, rest);
    var pieces := t.pieces + [rest];
    assert pieces[..|pieces| - 1] == t.pieces;
    ResumedRaw(t, rest);
    if Complete(line) {
      u := Trail(t.items + [Resumed(pieces)], []);
      ReplaySnoc(rules, t.items, Resumed(pieces));
    } else {
      u := Trail(t.items, pieces);
      assert Unfinished(pieces);
      MaskedPiecesPartial(rules, at, pieces);
    }
  }

  lemma {:induction false} ResumedRaw(t: Trail, rest: string)
    ensures Trail(t.items + [Resumed(t.pieces + [rest])], []).Raw() == t.Raw() + rest
    ensures Trail(t.items, t.pieces + [rest]).Raw() == t.Raw() + rest
  {
    var pieces := t.pieces + [rest];
    assert pieces[..|pieces| - 1] == t.pieces;
    RawSnoc(t.items, Resumed(pieces));
    assert RawItems(t.items) + (Join(t.pieces) + rest) == (RawItems(t.items) + Join(t.pieces)) + rest;
  }

  lemma {:induction false} NewRaw(t: Trail, line: string)
    requires t.pieces == []
    ensures Trail(t.items + [Line(line)], []).Raw() == t.Raw() + line
    ensures Trail(t.items, [line]).Raw() == t.Raw() + line
  {
    assert Join([line]) == Join([]) + line;
    RawSnoc(t.items, Line(line));
    assert RawItems(t.items) + "" == RawItems(t.items);
  }

  lemma {:induction false} NewLine(rules: Rules, t: Trail, line: string) returns (u: Trail)
    requires ItemsOk(t.items) && t.pieces == [] && IsLine(line)
    ensures ExtendsBy(rules, t, u, line, line, Redact(rules, Replay(rules, t.items).redactor, line))
    ensures !Complete(line) ==> u.pieces == [line]
  {
    NewRaw(t, line);
    if Complete(line) {
      u := Trail(t.items + [Line(line)], []);
      ReplaySnoc(rules, t.items, Line(line));
    } else {
      u := Trail(t.items, [line]);
      PartialLine(line);
      MaskedPiecesPartial(rules, Replay(rules, t.items).redactor, [line]);
    }
  }

  /** Judging the first line of a scan extends the trail by that line. */
  lemma {:induction false} JudgeOnTrail(rules: Rules, t: Trail, r: Redactor, key: KeyState, text: string, tail: Tail)
    returns (u: Trail)
    requires OnTrail(rules, t, r, key, text, tail) && text != ""
    ensures tail.length <= LineLength(text)
    ensures var line := text[..LineLength(text)];
            && ExtendsBy(rules, t, u, line, line[tail.length..], Judge(rules, r, line, tail))
            && (!Complete(line) && tail.length == 0 ==> u.pieces == [line])
            && (Continues(tail, line) <==> tail.length > 0)
  {
    var line := text[..LineLength(text)];
    if tail.length > 0 {
      MaskedPiecesPartial(rules, Replay(rules, t.items).redactor, t.pieces);
      TailWithinLine(text, tail.length);
      assert line[..tail.length] == text[..tail.length];
      u := ResumeLine(rules, t, line, tail.length, tail.keyState, tail.value);
    } else {
      assert line[0..] == line;
      u := NewLine(rules, t, line);
    }
  }

  lemma {:induction false} RawSnoc(items: seq<Item>, item: Item)
    ensures RawItems(items + [item]) == RawItems(items) + RawItem(item)
  {
    var all := items + [item];
    assert all[..|all| - 1] == items;
  }

  lemma {:induction false} SplitLine(line: string, n: nat)
    requires IsLine(line) && n <= |line| && NoNewline(line[..n])
    ensures if Complete(line) then IsLine(line[n..]) && Complete(line[n..]) else NoNewline(line[n..])
  {
    var rest := line[n..];
    assert forall i :: 0 <= i < |rest| ==> rest[i] == line[n + i];
    assert n > 0 ==> line[..n][n - 1] == line[n - 1];
  }

  lemma {:induction false} LineThenRest(rules: Rules, had: string, text: string, changed: bool, s: Scan, v: Trail)
    requires Leaves(rules, had + text, s, v)
    ensures Leaves(rules, had, Prepend(text, changed, s), v)
  {
    JoinedThree(had, text, s.whole);
    var p := Prepend(text, changed, s);
    assert p.tail == s.tail && p.last == s.last && p.keyState == s.keyState;
  }

  lemma {:induction false} JoinedThree(a: string, b: string, c: string)
    ensures a + (b + c) == (a + b) + c
  {
  }

  lemma {:induction false} LastLine(rules: Rules, t: Trail, u: Trail, key: KeyState, line: string, tail: Tail, j: Judged)
    requires ItemsOk(t.items) && u.items == t.items && j.text != ""
    requires Continues(tail, line) <==> tail.length > 0
    requires tail.length == 0 ==> Replay(rules, t.items).redactor.state == key && u.pieces == [line]
    requires Carry(Replay(rules, t.items).redactor.state) == Carry(key)
    requires MaskedTail(rules, Replay(rules, t.items).redactor, u.pieces, j.text, j.after.state, j.open)
    ensures Leaves(rules, Replay(rules, t.items).text, Scan("", j.text, key, LastTail(line, tail, j), j.text != line), u)
  {
    assert Replay(rules, t.items).text + "" == Replay(rules, t.items).text;
    assert Join([line]) == Join([]) + line;
  }

  lemma {:induction false} RawOfRest(before: string, mid: string, after: string, text: string, n: nat, k: nat)
    requires k <= n <= |text| && mid == before + text[..n][k..] && after == mid + text[n..][0..]
    ensures after == before + text[k..]
  {
    assert text[k..] == text[..n][k..] + text[n..];
    assert text[n..][0..] == text[n..];
  }

  /** A scan writes nothing but redactor output, and says so in its record fields. */
  lemma {:induction false} ScanOnTrail(rules: Rules, t: Trail, r: Redactor, key: KeyState, text: string, tail: Tail)
    returns (u: Trail)
    requires OnTrail(rules, t, r, key, text, tail)
    ensures Leaves(rules, Replay(rules, t.items).text, ScanFrom(rules, r, key, text, tail), u)
    ensures tail.length <= |text| && u.Raw() == t.Raw() + text[tail.length..]
    decreases |text|
  {
    if text == "" {
      u := Trail(t.items, []);
      assert Replay(rules, t.items).text + "" == Replay(rules, t.items).text;
    } else {
      var line := text[..LineLength(text)];
      var j := Judge(rules, r, line, tail);
      var v := JudgeOnTrail(rules, t, r, key, text, tail);
      if Complete(line) {
        u := ScanOnTrail(rules, v, j.after, j.after.state, text[|line|..], NoTail);
        RawOfRest(t.Raw(), v.Raw(), u.Raw(), text, |line|, tail.length);
        LineThenRest(rules, Replay(rules, t.items).text, j.text, j.text != line,
                     ScanFrom(rules, j.after, j.after.state, text[|line|..], NoTail), u);
      } else {
        u := v;
        assert line == text;
        LastLine(rules, t, u, key, line, tail, j);
      }
    }
  }

  // One maintenance.

  lemma {:induction false} ThreeParts(text: string, n: nat, a: string, b: string)
    requires n <= |text| && a + b == text[n..]
    ensures (text[..n] + a) + b == text
  {
    assert (text[..n] + a) + b == text[..n] + (a + b);
  }

  lemma {:induction false} ScanUnchanged(rules: Rules, r: Redactor, key: KeyState, text: string, tail: Tail)
    requires !ScanFrom(rules, r, key, text, tail).changed
    ensures var s := ScanFrom(rules, r, key, text, tail); s.whole + s.last == text
    decreases |text|
  {
    if text != "" {
      var line := text[..LineLength(text)];
      var j := Judge(rules, r, line, tail);
      if Complete(line) {
        ScanUnchanged(rules, j.after, j.after.state, text[|line|..], NoTail);
        var s := ScanFrom(rules, j.after, j.after.state, text[|line|..], NoTail);
        ThreeParts(text, |line|, s.whole, s.last);
      } else {
        assert text == line;
      }
    }
  }

  /** Where a maintenance starts: the prefix it does not scan is on a trail of redactor output. */
  lemma {:induction false} StartTrail(rules: Rules, f: File, rec: Record) returns (t: Trail)
    requires Honest(rules, rec)
    ensures var start := StartRecord(rules, rec, f);
            && OnTrail(rules, t, Redactor(Carry(start.keyState), ""), Carry(start.keyState), f.content[start.offset..], TailOf(start))
            && Replay(rules, t.items).text == f.content[..start.offset]
  {
    if Trusted(rules, rec, f) {
      t := TrustedTrail(rules, f, rec);
    } else {
      t := Trail([], []);
    }
  }

  lemma {:induction false} SlicesOfPrefix(s: string, i: nat, n: nat)
    requires i + n <= |s|
    ensures s[..i + n][..i] == s[..i] && s[..i + n][i..] == s[i..][..n]
  {
  }

  lemma {:induction false} TrustedTrail(rules: Rules, f: File, rec: Record) returns (t: Trail)
    requires Honest(rules, rec) && Trusted(rules, rec, f)
    ensures OnTrail(rules, t, Redactor(Carry(rec.keyState), ""), Carry(rec.keyState), f.content[rec.offset..], TailOf(rec))
    ensures Replay(rules, t.items).text == f.content[..rec.offset]
  {
    var items, pieces :| Accounts(rules, rec, rec.prefix.value.of, items, pieces);
    SlicesOfPrefix(f.content, rec.offset, rec.tailLength);
    if rec.tailLength == 0 {
      t := Trail(items + [ScanStart], []);
      ReplaySnoc(rules, items, ScanStart);
    } else {
      t := Trail(items, pieces);
    }
  }

  lemma {:induction false} NextAccounts(rules: Rules, content: string, start: Record, s: Scan, u: Trail)
    requires 0 <= start.offset <= |content| && Leaves(rules, content[..start.offset], s, u)
    ensures var next := NextRecord(content, start, s); Accounts(rules, next, next.prefix.value.of, u.items, u.pieces)
  {
    var had := content[..start.offset];
    var last := if s.tail.length > 0 then s.last else "";
    var text := Covered(content, start, s);
    assert text == had + s.whole + last;
    assert text[..start.offset + |s.whole|] == had + s.whole;
    assert text[start.offset + |s.whole|..] == last;
  }

  lemma {:induction false} LeavesEmitted(rules: Rules, had: string, s: Scan, u: Trail)
    requires Leaves(rules, had, s, u)
    ensures Emitted(rules, had + s.whole + s.last)
  {
    var pieces := if s.last == "" then [] else u.pieces;
    assert EmittedBy(rules, had + s.whole + s.last, u.items, pieces);
  }

  lemma {:induction false} AccountedEmitted(rules: Rules, rec: Record, text: string)
    requires Accountable(rules, rec, text)
    ensures Emitted(rules, text)
  {
    var items, pieces :| Accounts(rules, rec, text, items, pieces);
    assert text == text[..rec.offset] + text[rec.offset..];
    assert EmittedBy(rules, text, items, if rec.tailLength == 0 then [] else pieces);
  }

  /** The scan of a maintenance keeps the record honest. */
  lemma {:induction false} ScanHonest(rules: Rules, f: File, rec: Record)
    requires Honest(rules, rec)
    ensures var start := StartRecord(rules, rec, f);
            var scan := ScanOf(rules, f.content, start);
            Emitted(rules, f.content[..start.offset] + scan.whole + scan.last) && Honest(rules, NextRecord(f.content, start, scan))
  {
    var start := StartRecord(rules, rec, f);
    var t := StartTrail(rules, f, rec);
    var u := ScanOnTrail(rules, t, Redactor(Carry(start.keyState), ""), Carry(start.keyState),
                         f.content[start.offset..], TailOf(start));
    var scan := ScanOf(rules, f.content, start);
    NextAccounts(rules, f.content, start, scan, u);
    LeavesEmitted(rules, f.content[..start.offset], scan, u);
  }

  lemma {:induction false} ScanLeavesFile(rules: Rules, f: File, start: Record)
    requires Describes(rules, start, f) && !ScanOf(rules, f.content, start).changed
    ensures var scan := ScanOf(rules, f.content, start); f.content[..start.offset] + scan.whole + scan.last == f.content
  {
    var scan := ScanOf(rules, f.content, start);
    ScanUnchanged(rules, Redactor(Carry(start.keyState), ""), Carry(start.keyState), f.content[start.offset..], TailOf(start));
    ThreeParts(f.content, start.offset, scan.whole, scan.last);
  }

  lemma {:induction false} UnscannedHonest(rules: Rules, f: File, rec: Record)
    requires Honest(rules, rec) && Trusted(rules, rec, f) && rec.offset + rec.tailLength == |f.content|
    ensures Emitted(rules, f.content)
  {
    assert f.content[..rec.offset + rec.tailLength] == f.content;
    AccountedEmitted(rules, rec, f.content);
  }

  /** After a maintenance the whole file is redactor output, although only the part after an honest
      record's offset was scanned, and the record it leaves is honest again. */
  lemma {:induction false} MaintenanceHonest(rules: Rules, f: File, rec: Record, rewrite: bool)
    requires Honest(rules, rec)
    ensures var m := RedactLog(rules, f, rec, rewrite);
            Emitted(rules, m.content) && Honest(rules, m.record) && (!m.rewritten ==> m.content == f.content)
  {
    if Trusted(rules, rec, f) && !rewrite && rec.offset + rec.tailLength == |f.content| {
      UnscannedHonest(rules, f, rec);
    } else {
      ScanHonest(rules, f, rec);
      var start := StartRecord(rules, rec, f);
      if !rewrite && !ScanOf(rules, f.content, start).changed {
        ScanLeavesFile(rules, f, start);
      }
    }
  }

  // Every history.

  datatype LogDir = LogDir(active: Option<File>, record: Record)

  datatype Event =
    /** Anything a writer may do: append, truncate in place, rewrite, replace under any inode, delete. */
    | Write(file: Option<File>)
    /** A record of another build, or no readable record. */
    | OtherRecord(found: Record)
    /** A maintenance; a rewritten log gets a new identity. */
    | Maintain(device: int, inode: int)
    /** A maintenance killed after the rename and before the record is saved. */
    | KilledBeforeSave(device: int, inode: int)

  ghost predicate Possible(rules: Rules, e: Event) {
    e.OtherRecord? ==> e.found.rules != rules.fingerprint || e.found.prefix.None?
  }

  function Maintenance(rules: Rules, d: LogDir, device: int, inode: int, saved: bool): LogDir {
    if d.active.None? then d
    else
      var m := RedactLog(rules, d.active.value, d.record, false);
      LogDir(Some(if m.rewritten then File(device, inode, m.content) else d.active.value),
             if !saved || !m.save then d.record
             else if m.rewritten then m.record.(device := device, inode := inode)
             else m.record)
  }

  function Happens(rules: Rules, d: LogDir, e: Event): LogDir {
    match e
    case Write(file) => d.(active := file)
    case OtherRecord(found) => d.(record := found)
    case Maintain(device, inode) => Maintenance(rules, d, device, inode, true)
    case KilledBeforeSave(device, inode) => Maintenance(rules, d, device, inode, false)
  }

  function Run(rules: Rules, d: LogDir, events: seq<Event>): LogDir {
    if events == [] then d
    else Happens(rules, Run(rules, d, events[..|events| - 1]), events[|events| - 1])
  }

  lemma {:induction false} MovedRecordHonest(rules: Rules, rec: Record, device: int, inode: int)
    requires Honest(rules, rec)
    ensures Honest(rules, rec.(device := device, inode := inode))
  {
    if rec.rules == rules.fingerprint && rec.prefix.Some? {
      var items, pieces :| Accounts(rules, rec, rec.prefix.value.of, items, pieces);
      assert Accounts(rules, rec.(device := device, inode := inode), rec.prefix.value.of, items, pieces);
    }
  }

  lemma {:induction false} MaintenanceKeepsHonest(rules: Rules, d: LogDir, device: int, inode: int, saved: bool)
    requires Honest(rules, d.record)
    ensures var next := Maintenance(rules, d, device, inode, saved);
            Honest(rules, next.record) && (next.active.Some? ==> Emitted(rules, next.active.value.content))
  {
    if d.active.Some? {
      var m := RedactLog(rules, d.active.value, d.record, false);
      MaintenanceHonest(rules, d.active.value, d.record, false);
      MovedRecordHonest(rules, m.record, device, inode);
    }
  }

  /** Through every history the record on disk stays honest. */
  lemma {:induction false} HistoryHonest(rules: Rules, d: LogDir, events: seq<Event>)
    requires d.record == NoRecord && forall i :: 0 <= i < |events| ==> Possible(rules, events[i])
    ensures Honest(rules, Run(rules, d, events).record)
  {
    if events != [] {
      var n := |events| - 1;
      HistoryHonest(rules, d, events[..n]);
      var before, e := Run(rules, d, events[..n]), events[n];
      match e {
        case Write(_) =>
        case OtherRecord(_) => assert Possible(rules, e);
        case Maintain(device, inode) => MaintenanceKeepsHonest(rules, before, device, inode, true);
        case KilledBeforeSave(device, inode) => MaintenanceKeepsHonest(rules, before, device, inode, false);
      }
    }
  }

  /** Through every history, a record the next maintenance would trust covers redactor output
      ending in the recorded key state, in the file as it now is. */
  lemma {:induction false} TrustedCoversOutput(rules: Rules, d: LogDir, events: seq<Event>)
    requires d.record == NoRecord && forall i :: 0 <= i < |events| ==> Possible(rules, events[i])
    ensures var now := Run(rules, d, events);
            now.active.Some? && Trusted(rules, now.record, now.active.value) ==>
              Accountable(rules, now.record, now.active.value.content[..now.record.offset + now.record.tailLength])
  {
    HistoryHonest(rules, d, events);
  }

  lemma {:induction false} RunSnoc(rules: Rules, d: LogDir, events: seq<Event>, e: Event)
    ensures Run(rules, d, events + [e]) == Happens(rules, Run(rules, d, events), e)
  {
    var all := events + [e];
    assert all[..|all| - 1] == events;
  }

  /** Through every history, right after a maintenance, even one killed before it saved its record,
      the whole log is redactor output. */
  lemma {:induction false} MaintainedIsOutput(rules: Rules, d: LogDir, events: seq<Event>, e: Event)
    requires d.record == NoRecord && forall i :: 0 <= i < |events| ==> Possible(rules, events[i])
    requires e.Maintain? || e.KilledBeforeSave?
    ensures var now := Run(rules, d, events + [e]);
            now.active.Some? ==> Emitted(rules, now.active.value.content)
  {
    HistoryHonest(rules, d, events);
    RunSnoc(rules, d, events, e);
    MaintenanceKeepsHonest(rules, Run(rules, d, events), e.device, e.inode, e.Maintain?);
  }
}
