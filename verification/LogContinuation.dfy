/** A line that its writer finished only after a maintenance had seen its beginning: what the log shows for it, and for the line
    after it (`redactContinuation`, `openValue`, `valueRunLength` and `maySpellKeyBegin` in internal/ansible/log_policy.go). */
module LogContinuation {
  import opened Outcomes
  import opened Redaction
  import opened LogScan
  import opened LogHistory
  import opened LogAppend
  import opened LogReader
  import opened LogCoverage

  // What ends a value.

  /** The characters with Unicode property White_Space. */
  const WHITE_SPACE: set<char> := {
    '\t', '\n', '\U{b}', '\U{c}', '\r', ' ', '\U{85}', '\U{a0}', '\U{1680}',
    '\U{2000}', '\U{2001}', '\U{2002}', '\U{2003}', '\U{2004}', '\U{2005}', '\U{2006}', '\U{2007}', '\U{2008}', '\U{2009}', '\U{200a}',
    '\U{2028}', '\U{2029}', '\U{202f}', '\U{205f}', '\U{3000}'}

  lemma {:induction false} SpacesListed(c: char)
    ensures IsSpace(c) <==> c in WHITE_SPACE
  {
    if '\t' <= c <= '\r' || '\U{2000}' <= c <= '\U{200a}' { SmallRanges(c as int); }
  }

  lemma {:induction false} SmallRanges(n: int)
    ensures 9 <= n <= 13 <==> n in {9, 10, 11, 12, 13}
    ensures 0x2000 <= n <= 0x200a <==>
      n in {0x2000, 0x2001, 0x2002, 0x2003, 0x2004, 0x2005, 0x2006, 0x2007, 0x2008, 0x2009, 0x200a}
  {
  }

  /** The value of an assignment also ends at a comma or a closing bracket. */
  predicate EndsValue(c: char, kind: ValueKind) {
    c in WHITE_SPACE || (kind == AssignmentValue && (c == ',' || c == '}' || c == ']'))
  }

  /** The part of the text before the first character that ends a value. */
  function ValueIn(text: string, kind: ValueKind): string {
    if text == "" || EndsValue(text[0], kind) then "" else [text[0]] + ValueIn(text[1..], kind)
  }

  /** The text may turn out to be the marker that begins a private key. */
  predicate MayBegin(text: string) {
    text != "" && forall i :: 0 <= i < |text| && i < |"-----BEGIN"| ==> text[i] == "-----BEGIN"[i]
  }

  ghost predicate EndsWith(text: string, end: string) {
    exists front :: text == front + end
  }

  lemma {:induction false} SameStops(c: char, kind: ValueKind)
    ensures StopsValue(c, kind) <==> EndsValue(c, kind)
  {
    SpacesListed(c);
  }

  lemma {:induction false} ValueInRun(text: string, kind: ValueKind)
    ensures var n := ValueRunLength(text, kind); n <= |text| && text[..n] == ValueIn(text, kind) && n == |ValueIn(text, kind)|
  {
    if text != "" {
      SameStops(text[0], kind);
      if !EndsValue(text[0], kind) {
        ValueInRun(text[1..], kind);
        var n := ValueRunLength(text[1..], kind);
        assert text[..n + 1] == [text[0]] + text[1..][..n];
      }
    }
  }

  lemma {:induction false} MayBeginSpells(text: string)
    ensures MayBegin(text) <==> MaySpellKeyBegin(text)
  {
    if MayBegin(text) {
      if |text| >= 10 { assert text[..10] == "-----BEGIN"; } else { assert "-----BEGIN "[..|text|] == text; }
    }
    if text <= "-----BEGIN " { assert forall i :: 0 <= i < |text| ==> text[i] == "-----BEGIN "[i]; }
  }

  lemma {:induction false} SuffixEnds(text: string, end: string)
    ensures HasSuffix(text, end) <==> EndsWith(text, end)
  {
    if HasSuffix(text, end) { assert text == text[..|text| - |end|] + end; }
    if front :| text == front + end { assert text[|text| - |end|..] == end; }
  }

  // What the log shows for a line that comes in pieces.

  /** What is shown for a line so far, the process of a key that is open at its end, and the value it ends inside. */
  datatype Seen = Seen(text: string, key: Option<string>, open: ValueKind)

  function ProcessOf(rules: Rules, line: string): string {
    match rules.record(line) case Some(p) => p case None => ""
  }

  /** A line on its own: the beginning of a key, or a masked line. */
  function Alone(rules: Rules, line: string): Seen {
    Seen(if rules.begins(line) then rules.placeholder + Ending(line) else rules.mask(line),
         if rules.begins(line) && !rules.ends(line) then Some(ProcessOf(rules, line)) else None,
         rules.open(line))
  }

  /** A record at which a key of the given process stops once it was carried over a maintenance. */
  predicate StopsAt(rules: Rules, process: string, line: string) {
    rules.record(line).Some? && (process == "" || rules.record(line).value != process || rules.recap(line))
  }

  /** The next piece of a line of a key: nothing of it shows, up to a record that stops the key. */
  function MoreKey(rules: Rules, s: Seen, process: string, rest: string): Seen {
    if StopsAt(rules, process, rest) then var t := Alone(rules, rest); t.(text := rules.placeholder + t.text)
    else Seen(rules.placeholder + Ending(s.text + rest), if rules.ends(rest) then None else Some(process), NoValue)
  }

  /** The next piece goes on with a value that the marker stands for, and is neither a record nor the beginning of a key. */
  ghost predicate MoreValue(rules: Rules, s: Seen, rest: string) {
    s.open != NoValue && EndsWith(s.text, rules.marker) && rules.record(rest).None? && !MayBegin(ValueIn(rest, s.open))
  }

  /** A line of which `s` was shown goes on with `rest`: of a key nothing more shows, of a value nothing up to its end, and
      anything else is judged together with what was shown. */
  ghost function GoesOn(rules: Rules, s: Seen, rest: string): Seen {
    if s.key.Some? then MoreKey(rules, s, s.key.value, rest)
    else if MoreValue(rules, s, rest) then
      var v := ValueIn(rest, s.open);
      if v == rest then Alone(rules, s.text).(open := s.open)
      else ValueInRun(rest, s.open); Alone(rules, s.text + rest[|v|..])
    else Alone(rules, s.text + rest)
  }

  /** A line, or the beginning of one, after a maintenance that may have carried a key over. */
  function FirstSeen(rules: Rules, key: Option<string>, line: string): Seen {
    if key.Some? && !StopsAt(rules, key.value, line)
    then Seen(rules.placeholder + Ending(line), if rules.ends(line) then None else key, rules.open(line))
    else Alone(rules, line)
  }

  ghost function PiecesSeen(rules: Rules, key: Option<string>, pieces: seq<string>): Seen
    requires pieces != []
  {
    var n := |pieces| - 1;
    if n == 0 then FirstSeen(rules, key, pieces[0]) else GoesOn(rules, PiecesSeen(rules, key, pieces[..n]), pieces[n])
  }

  // The redactor agrees.

  /** The key state that stands for the key. */
  predicate Holds(key: Option<string>, state: KeyState) {
    if key.Some? then state.inKey && state.process == key.value else state == NoKey
  }

  predicate Says(j: Judged, s: Seen) {
    j.text == s.text && j.open == s.open && Holds(s.key, j.after.state)
  }

  lemma {:induction false} RedactAlone(rules: Rules, line: string)
    ensures Says(Redact(rules, Idle, line), Alone(rules, line))
  {
    MaskedShows(rules, line);
  }

  lemma {:induction false} ContinueKey(rules: Rules, s: Seen, state: KeyState, rest: string)
    requires s.key.Some? && Holds(s.key, state)
    ensures Says(Continue(rules, s.text, rest, state, s.open), MoreKey(rules, s, s.key.value, rest))
  {
    var r := Redactor(state.(carried := true), "");
    MaskedShows(rules, s.text + rest);
    if StopsAt(rules, s.key.value, rest) {
      RedactAlone(rules, rest);
      assert Redact(rules, r, rest) == Redact(rules, Idle, rest);
    }
  }

  lemma {:induction false} ContinueValue(rules: Rules, s: Seen, rest: string)
    requires s.key.None?
    ensures Says(Continue(rules, s.text, rest, NoKey, s.open), GoesOn(rules, s, rest))
  {
    var n := ValueRunLength(rest, s.open);
    SuffixEnds(s.text, rules.marker);
    ValueInRun(rest, s.open);
    MayBeginSpells(rest[..n]);
    assert n == |rest| <==> rest[..n] == rest;
    RedactAlone(rules, s.text);
    RedactAlone(rules, s.text + rest[n..]);
    RedactAlone(rules, s.text + rest);
  }

  lemma {:induction false} GoesOnAgrees(rules: Rules, j: Judged, s: Seen, rest: string)
    requires Says(j, s)
    ensures Says(Continue(rules, j.text, rest, j.after.state, j.open), GoesOn(rules, s, rest))
  {
    if s.key.Some? { ContinueKey(rules, s, j.after.state, rest); } else { ContinueValue(rules, s, rest); }
  }

  /** The state in which a new scan starts. */
  predicate Starts(key: Option<string>, state: KeyState) {
    Holds(key, state) && (state.inKey ==> state.carried)
  }

  lemma {:induction false} RedactFirst(rules: Rules, key: Option<string>, state: KeyState, line: string)
    requires Starts(key, state)
    ensures Says(Redact(rules, Redactor(state, ""), line), FirstSeen(rules, key, line))
  {
    MaskedShows(rules, line);
    RedactAlone(rules, line);
    if key.Some? && StopsAt(rules, key.value, line) { assert Redact(rules, Redactor(state, ""), line) == Redact(rules, Idle, line); }
  }

  lemma {:induction false} OnePieceMore(rules: Rules, key: Option<string>, r: Redactor, pieces: seq<string>, j: Judged, s: Seen)
    requires |pieces| > 1 && MaskPieces(rules, r, pieces[..|pieces| - 1]) == j && PiecesSeen(rules, key, pieces[..|pieces| - 1]) == s
    ensures MaskPieces(rules, r, pieces) == Continue(rules, j.text, pieces[|pieces| - 1], j.after.state, j.open)
    ensures PiecesSeen(rules, key, pieces) == GoesOn(rules, s, pieces[|pieces| - 1])
  {
  }

  lemma {:induction false} PiecesAgree(rules: Rules, key: Option<string>, state: KeyState, pieces: seq<string>)
    requires pieces != [] && Starts(key, state)
    ensures Says(MaskPieces(rules, Redactor(state, ""), pieces), PiecesSeen(rules, key, pieces))
  {
    var n := |pieces| - 1;
    if n == 0 {
      RedactFirst(rules, key, state, pieces[0]);
    } else {
      PiecesAgree(rules, key, state, pieces[..n]);
      var j, s := MaskPieces(rules, Redactor(state, ""), pieces[..n]), PiecesSeen(rules, key, pieces[..n]);
      OnePieceMore(rules, key, Redactor(state, ""), pieces, j, s);
      GoesOnAgrees(rules, j, s, pieces[n]);
    }
  }

  // Before it: a log of whole lines.

  predicate KeyOrNone(state: KeyState) {
    state.inKey || state == NoKey
  }

  lemma {:induction false} TakeLines(rules: Rules, r: Reader, text: string)
    requires r.pieces == [] && KeyOrNone(r.redactor.state) && (text == "" || Complete(text))
    ensures var v := Take(rules, r, text); v.pieces == [] && KeyOrNone(v.redactor.state)
    decreases |text|
  {
    if text != "" {
      var n := LineLength(text);
      CompleteParts(text, n);
      JudgeNew(rules, r.redactor, text[..n]);
      TakeLines(rules, TakeLine(rules, r, text[..n]), text[n..]);
    }
  }

  lemma {:induction false} CompleteParts(text: string, n: nat)
    requires text != "" && Complete(text) && n == LineLength(text)
    ensures Complete(text[..n]) && (text[n..] == "" || Complete(text[n..]))
  {
    if n == |text| { assert text[..n] == text; }
  }

  /** The key carried over the last maintenance of a log of whole lines. */
  function CarriedKey(rules: Rules, before: seq<Append>): Option<string> {
    var state := ReadAll(rules, before).reader.redactor.state;
    if state.inKey then Some(state.process) else None
  }

  predicate WholeTexts(appends: seq<Append>) {
    forall i :: 0 <= i < |appends| ==> appends[i].raw == "" || Complete(appends[i].raw)
  }

  lemma {:induction false} ReadWhole(rules: Rules, before: seq<Append>)
    requires WholeTexts(before)
    ensures var at := ReadAll(rules, before);
            && at.pending == "" && at.reader.pieces == [] && at.reader.redactor.process == ""
            && Starts(CarriedKey(rules, before), at.reader.redactor.state)
  {
    if before != [] {
      var n := |before| - 1;
      assert forall i :: 0 <= i < n ==> before[..n][i] == before[i];
      ReadWhole(rules, before[..n]);
      NothingPending(before[n].raw);
      TakeLines(rules, ReadAll(rules, before[..n]).reader, before[n].raw);
    }
  }

  // On the log.

  function Raws(appends: seq<Append>): (r: seq<string>)
    ensures |r| == |appends| && forall i :: 0 <= i < |r| ==> r[i] == appends[i].raw
  {
    seq(|appends|, i requires 0 <= i < |appends| => appends[i].raw)
  }

  /** The beginning of a line in pieces, masked from the first piece on. */
  predicate Begun(rules: Rules, key: Option<string>, appends: seq<Append>) {
    && appends != [] && FirstSeen(rules, key, appends[0].raw).text != appends[0].raw
    && forall i :: 0 <= i < |appends| ==> appends[i].raw != "" && NoNewline(appends[i].raw)
  }

  lemma {:induction false} WholeIsFirst(text: string)
    requires text != "" && (NoNewline(text) || (IsLine(text) && Complete(text)))
    ensures FirstLine(text) == text && text[|text|..] == "" && (NoNewline(text) ==> !Complete(text))
  {
    assert text[..|text|] == text;
    if NoNewline(text) { PartialLine(text); }
    OneLineLength(text, |text|);
  }

  /** Taking one line, or a piece of one. */
  lemma {:induction false} TakeOne(rules: Rules, r: Reader, text: string)
    requires text != "" && (NoNewline(text) || (IsLine(text) && Complete(text)))
    ensures Take(rules, r, text) == TakeLine(rules, r, text)
  {
    WholeIsFirst(text);
  }

  lemma {:induction false} NothingPending(text: string)
    ensures "" + text == text
  {
  }

  lemma {:induction false} ReadsFirst(rules: Rules, begun: bool, text: string, state: KeyState, key: Option<string>, raw: string)
    requires raw != "" && NoNewline(raw) && Starts(key, state)
    ensures Reads(rules, Reading(begun, Reader(text, Redactor(state, ""), []), ""), raw)
         == if FirstSeen(rules, key, raw).text == raw then Reading(true, Reader(text, Redactor(state, ""), []), raw)
            else Reading(true, Reader(text, Redactor(state, ""), [raw]), "")
  {
    NothingPending(raw);
    WholeIsFirst(raw);
    TakeOne(rules, Reader(text, Redactor(state, ""), []), raw);
    RedactFirst(rules, key, state, raw);
    JudgeNew(rules, Redactor(state, ""), raw);
    assert [] + [raw] == [raw];
  }

  lemma {:induction false} ReadsMore(rules: Rules, text: string, r: Redactor, pieces: seq<string>, raw: string)
    requires pieces != [] && raw != "" && NoNewline(raw)
    ensures Reads(rules, Reading(true, Reader(text, r, pieces), ""), raw) == Reading(true, Reader(text, r, pieces + [raw]), "")
  {
    NothingPending(raw);
    WholeIsFirst(raw);
    TakeOne(rules, Reader(text, r, pieces), raw);
  }

  lemma {:induction false} ReadLast(rules: Rules, appends: seq<Append>, a: Append)
    ensures ReadAll(rules, appends + [a]) == Reads(rules, ReadAll(rules, appends), a.raw)
  {
    assert (appends + [a])[..|appends|] == appends;
  }

  lemma {:induction false} ReadBegunOne(rules: Rules, before: seq<Append>, a: Append)
    requires WholeTexts(before) && Begun(rules, CarriedKey(rules, before), [a])
    ensures var at := ReadAll(rules, before).reader; ReadAll(rules, before + [a]) == Reading(true, Reader(at.text, at.redactor, [a.raw]), "")
  {
    var at := ReadAll(rules, before);
    ReadWhole(rules, before);
    assert [a][0].raw != "" && NoNewline([a][0].raw);
    ReadsFirst(rules, at.begun, at.reader.text, at.reader.redactor.state, CarriedKey(rules, before), a.raw);
    ReadLast(rules, before, a);
  }

  lemma {:induction false} ReadBegunMore(rules: Rules, appends: seq<Append>, a: Append, text: string, r: Redactor, pieces: seq<string>)
    requires ReadAll(rules, appends) == Reading(true, Reader(text, r, pieces), "") && pieces != [] && a.raw != "" && NoNewline(a.raw)
    ensures ReadAll(rules, appends + [a]) == Reading(true, Reader(text, r, pieces + [a.raw]), "")
  {
    ReadLast(rules, appends, a);
    ReadsMore(rules, text, r, pieces, a.raw);
  }

  lemma {:induction false} FrontAndLast(before: seq<Append>, appends: seq<Append>)
    requires appends != []
    ensures var n := |appends| - 1;
            && Raws(appends) == Raws(appends[..n]) + [appends[n].raw]
            && before + appends == before + appends[..n] + [appends[n]]
            && (n == 0 ==> appends == [appends[0]] && Raws(appends) == [appends[0].raw])
  {
  }

  lemma {:induction false} BegunFront(rules: Rules, key: Option<string>, appends: seq<Append>)
    requires Begun(rules, key, appends) && |appends| > 1
    ensures Begun(rules, key, appends[..|appends| - 1])
  {
  }

  lemma {:induction false} ReadBegun(rules: Rules, before: seq<Append>, appends: seq<Append>)
    requires WholeTexts(before) && Begun(rules, CarriedKey(rules, before), appends)
    ensures ReadAll(rules, before + appends)
         == Reading(true, Reader(ReadAll(rules, before).reader.text, ReadAll(rules, before).reader.redactor, Raws(appends)), "")
    decreases |appends|
  {
    var n, at := |appends| - 1, ReadAll(rules, before).reader;
    FrontAndLast(before, appends);
    if n == 0 {
      ReadBegunOne(rules, before, appends[0]);
    } else {
      BegunFront(rules, CarriedKey(rules, before), appends);
      ReadBegun(rules, before, appends[..n]);
      ReadBegunMore(rules, before + appends[..n], appends[n], at.text, at.redactor, Raws(appends[..n]));
    }
  }

  /** The text of the log after these appends. */
  function LogText(rules: Rules, device: int, inode: int, appends: seq<Append>): string {
    Grown(rules, EmptyLog(device, inode), appends).active.value.content
  }

  lemma {:induction false} TextBefore(rules: Rules, device: int, inode: int, before: seq<Append>)
    requires WholeTexts(before)
    ensures LogText(rules, device, inode, before) == ReadAll(rules, before).reader.text
  {
    LogFollowsReader(rules, device, inode, before);
    ReadWhole(rules, before);
    Alike(ReadAll(rules, before).reader.text);
  }

  lemma {:induction false} Alike(text: string)
    ensures text + "" + "" == text && text + "" == text
  {
  }

  /** After any log of whole lines: while a line comes in pieces, it shows as its pieces are seen. */
  lemma {:induction false} CutLineShown(rules: Rules, device: int, inode: int, before: seq<Append>, appends: seq<Append>)
    requires WholeTexts(before) && Begun(rules, CarriedKey(rules, before), appends)
    ensures LogText(rules, device, inode, before + appends)
         == LogText(rules, device, inode, before) + PiecesSeen(rules, CarriedKey(rules, before), Raws(appends)).text
  {
    var at, key := ReadAll(rules, before).reader, CarriedKey(rules, before);
    LogFollowsReader(rules, device, inode, before + appends);
    TextBefore(rules, device, inode, before);
    ReadWhole(rules, before);
    ReadBegun(rules, before, appends);
    PiecesAgree(rules, key, at.redactor.state, Raws(appends));
    Alike(at.text + PiecesSeen(rules, key, Raws(appends)).text);
  }

  predicate WholeLine(text: string) {
    text != "" && IsLine(text) && Complete(text)
  }

  /** The reader after a line that came in pieces: only an open key is carried on. */
  lemma {:induction false} ReadFinished(rules: Rules, before: seq<Append>, appends: seq<Append>, last: Append) returns (state: KeyState)
    requires WholeTexts(before) && Begun(rules, CarriedKey(rules, before), appends) && WholeLine(last.raw)
    ensures var seen := PiecesSeen(rules, CarriedKey(rules, before), Raws(appends) + [last.raw]);
            && ReadAll(rules, before + appends + [last]) == Reading(true, Reader(ReadAll(rules, before).reader.text + seen.text, Redactor(state, ""), []), "")
            && Starts(seen.key, state)
  {
    var at, key, pieces := ReadAll(rules, before).reader, CarriedKey(rules, before), Raws(appends) + [last.raw];
    ReadWhole(rules, before);
    ReadBegun(rules, before, appends);
    ReadLast(rules, before + appends, last);
    PiecesAgree(rules, key, at.redactor.state, pieces);
    state := FinishesLine(rules, at.text, at.redactor, Raws(appends), last.raw);
  }

  lemma {:induction false} FinishesLine(rules: Rules, text: string, r: Redactor, pieces: seq<string>, last: string) returns (state: KeyState)
    requires WholeLine(last)
    ensures var j := MaskPieces(rules, r, pieces + [last]);
            && state == Carry(j.after.state)
            && Reads(rules, Reading(true, Reader(text, r, pieces), ""), last) == Reading(true, Reader(text + j.text, Redactor(state, ""), []), "")
  {
    NothingPending(last);
    TakeOne(rules, Reader(text, r, pieces), last);
    state := Carry(MaskPieces(rules, r, pieces + [last]).after.state);
  }

  lemma {:induction false} ReadNext(rules: Rules, text: string, state: KeyState, key: Option<string>, next: string)
    requires WholeLine(next) && Starts(key, state)
    ensures Output(rules, Reads(rules, Reading(true, Reader(text, Redactor(state, ""), []), ""), next)) == text + FirstSeen(rules, key, next).text
  {
    NothingPending(next);
    TakeOne(rules, Reader(text, Redactor(state, ""), []), next);
    JudgeNew(rules, Redactor(state, ""), next);
    RedactFirst(rules, key, state, next);
    Alike(text + FirstSeen(rules, key, next).text);
  }

  /** After any log of whole lines: a line that came in pieces shows as its pieces are seen, and the line after it as a line of
      the key that is still open, or on its own. */
  lemma {:induction false} CutLineThenNext(rules: Rules, device: int, inode: int, before: seq<Append>, appends: seq<Append>, last: Append, next: Append)
    requires WholeTexts(before) && Begun(rules, CarriedKey(rules, before), appends) && WholeLine(last.raw) && WholeLine(next.raw)
    ensures var seen := PiecesSeen(rules, CarriedKey(rules, before), Raws(appends) + [last.raw]);
            var shown := LogText(rules, device, inode, before) + seen.text;
            && LogText(rules, device, inode, before + appends + [last]) == shown
            && LogText(rules, device, inode, before + appends + [last] + [next]) == shown + FirstSeen(rules, seen.key, next.raw).text
  {
    var seen := PiecesSeen(rules, CarriedKey(rules, before), Raws(appends) + [last.raw]);
    var shown := LogText(rules, device, inode, before) + seen.text;
    TextBefore(rules, device, inode, before);
    var state := ReadFinished(rules, before, appends, last);
    LogFollowsReader(rules, device, inode, before + appends + [last]);
    LogFollowsReader(rules, device, inode, before + appends + [last] + [next]);
    Alike(shown);
    ReadLast(rules, before + appends + [last], next);
    ReadNext(rules, shown, state, seen.key, next.raw);
  }

  /** After any log of whole lines: an unfinished line in which there was nothing to mask is read again from its beginning, and
      does not show that it was cut. */
  lemma {:induction false} UntouchedReadAgain(rules: Rules, device: int, inode: int, before: seq<Append>, a: Append, rest: Append, whole: Append)
    requires WholeTexts(before) && a.raw != "" && NoNewline(a.raw) && whole.raw == a.raw + rest.raw
    requires FirstSeen(rules, CarriedKey(rules, before), a.raw).text == a.raw
    ensures LogText(rules, device, inode, before + [a] + [rest]) == LogText(rules, device, inode, before + [whole])
  {
    var at := ReadAll(rules, before);
    LogFollowsReader(rules, device, inode, before + [a] + [rest]);
    LogFollowsReader(rules, device, inode, before + [whole]);
    ReadWhole(rules, before);
    ReadsFirst(rules, at.begun, at.reader.text, at.reader.redactor.state, CarriedKey(rules, before), a.raw);
    ReadLast(rules, before, a);
    ReadLast(rules, before + [a], rest);
    ReadLast(rules, before, whole);
    NothingPending(whole.raw);
  }
}
