/** One maintenance of the active log in internal/ansible/log_policy.go: the redaction record,
    `verifyPrefix`, `redactRange` and `redactLog`. */
module LogScan {
  import opened Outcomes
  import opened Redaction

  /** SHA-256, taken as injective: a digest stands for the text it was made of. */
  datatype Digest = Sha256(of: string)

  /** `redactionState`. A record read from disk may hold any numbers. */
  datatype Record = Record(
    device: int, inode: int,
    offset: int, keyState: KeyState,
    tailLength: int, tailKeyState: KeyState, tailValue: ValueKind,
    prefix: Option<Digest>,
    rules: string)

  datatype File = File(device: int, inode: int, content: string)

  const NoRecord := Record(0, 0, 0, NoKey, 0, NoKey, NoValue, None, "")

  /** A final line that was masked before its writer finished it. */
  datatype Tail = Tail(length: nat, keyState: KeyState, value: ValueKind)

  const NoTail := Tail(0, NoKey, NoValue)

  /** The length of the first line of `text` (`ReadString('\n')`). */
  function LineLength(text: string): (n: nat)
    requires text != ""
    ensures 1 <= n <= |text|
    ensures IsLine(text[..n]) && (n < |text| ==> Complete(text[..n]))
  {
    if text[0] == '\n' || |text| == 1 then 1
    else
      var n := LineLength(text[1..]);
      assert forall i :: 1 <= i < 1 + n ==> text[i] == text[1..][..n][i - 1];
      1 + n
  }

  /** What a scan wrote: `whole` for the complete lines, `last` for an unfinished final line,
      which the record covers when `tail` has a length. */
  datatype Scan = Scan(whole: string, last: string, keyState: KeyState, tail: Tail, changed: bool)

  predicate Continues(tail: Tail, line: string) {
    0 < tail.length <= |line|
  }

  function Judge(rules: Rules, r: Redactor, line: string, tail: Tail): Judged {
    if Continues(tail, line) then Continue(rules, line[..tail.length], line[tail.length..], tail.keyState, tail.value)
    else Redact(rules, r, line)
  }

  /** An unfinished final line is covered when it was masked, now or before. */
  function LastTail(line: string, tail: Tail, j: Judged): Tail {
    if Continues(tail, line) || j.text != line then Tail(|j.text|, j.after.state, j.open) else NoTail
  }

  function ScanFrom(rules: Rules, r: Redactor, key: KeyState, text: string, tail: Tail): Scan
    decreases |text|
  {
    if text == "" then Scan("", "", key, NoTail, false)
    else
      var line := text[..LineLength(text)];
      var j := Judge(rules, r, line, tail);
      if Complete(line) then
        Prepend(j.text, j.text != line, ScanFrom(rules, j.after, j.after.state, text[|line|..], NoTail))
      else
        Scan("", j.text, key, LastTail(line, tail, j), j.text != line)
  }

  function Prepend(text: string, changed: bool, s: Scan): Scan {
    s.(whole := text + s.whole, changed := changed || s.changed)
  }

  function TailOf(rec: Record): Tail
    requires rec.tailLength >= 0
  {
    Tail(rec.tailLength, rec.tailKeyState, rec.tailValue)
  }

  /** The scan of `content` from where `rec` says the redacted part ends. */
  function ScanOf(rules: Rules, content: string, rec: Record): Scan
    requires 0 <= rec.offset <= |content| && rec.tailLength >= 0
  {
    ScanFrom(rules, Redactor(Carry(rec.keyState), ""), Carry(rec.keyState), content[rec.offset..], TailOf(rec))
  }

  /** The text the next record covers. */
  function Covered(content: string, rec: Record, scan: Scan): string
    requires 0 <= rec.offset <= |content|
  {
    content[..rec.offset] + scan.whole + if scan.tail.length > 0 then scan.last else ""
  }

  function NextRecord(content: string, rec: Record, scan: Scan): Record
    requires 0 <= rec.offset <= |content|
  {
    rec.(offset := rec.offset + |scan.whole|, keyState := scan.keyState,
         tailLength := scan.tail.length, tailKeyState := scan.tail.keyState, tailValue := scan.tail.value,
         prefix := Some(Sha256(Covered(content, rec, scan))))
  }

  // Whether a record is trusted.

  function FreshRecord(rules: Rules, f: File): Record {
    Record(f.device, f.inode, 0, NoKey, 0, NoKey, NoValue, None, rules.fingerprint)
  }

  predicate Describes(rules: Rules, rec: Record, f: File) {
    && rec.device == f.device && rec.inode == f.inode && rec.rules == rules.fingerprint
    && 0 <= rec.offset && 0 <= rec.tailLength && rec.offset + rec.tailLength <= |f.content|
  }

  /** `verifyPrefix`: the file still holds the bytes the record was made of. */
  predicate Trusted(rules: Rules, rec: Record, f: File) {
    Describes(rules, rec, f) && rec.prefix == Some(Sha256(f.content[..rec.offset + rec.tailLength]))
  }

  function StartRecord(rules: Rules, rec: Record, f: File): (r: Record)
    ensures Describes(rules, r, f)
  {
    if Trusted(rules, rec, f) then rec else FreshRecord(rules, f)
  }

  /** What `redactLog` does to the file and the record: a new file when `rewritten`, and a record
      to save when `save`. */
  datatype Maintained = Maintained(content: string, rewritten: bool, record: Record, save: bool)

  function RedactLog(rules: Rules, f: File, rec: Record, rewrite: bool): Maintained {
    var start := StartRecord(rules, rec, f);
    if Trusted(rules, rec, f) && !rewrite && rec.offset + rec.tailLength == |f.content| then
      Maintained(f.content, false, rec, false)
    else
      var scan := ScanOf(rules, f.content, start);
      var next := NextRecord(f.content, start, scan);
      if !rewrite && !scan.changed then Maintained(f.content, false, next, true)
      else Maintained(f.content[..start.offset] + scan.whole + scan.last, true, next, true)
  }

  // The loops.

  method JudgeLine(rules: Rules, redactor: StreamRedactor, line: string, tail: Tail)
    returns (redacted: string, open: ValueKind)
    requires tail.length > 0 ==> redactor.process == ""
    modifies redactor
    ensures var j := Judge(rules, old(redactor.Now()), line, tail);
            redacted == j.text && redactor.Now() == j.after && open == j.open
  {
    if Continues(tail, line) {
      redacted, open := redactor.RedactContinuation(rules, line, tail.length, tail.keyState, tail.value);
    } else {
      redacted := redactor.RedactOne(rules, line);
      open := rules.open(line);
    }
  }

  /** The loop of `redactRange` over the lines of `text`. */
  method ScanLines(rules: Rules, carried: KeyState, text: string, masked: Tail) returns (s: Scan)
    ensures s == ScanFrom(rules, Redactor(carried, ""), carried, text, masked)
  {
    var redactor := new StreamRedactor(carried);
    var whole, key, tail, changed, at := "", carried, masked, false, 0;
    ghost var all := ScanFrom(rules, redactor.Now(), carried, text, masked);
    assert text[0..] == text;
    while at < |text|
      invariant 0 <= at <= |text|
      invariant fresh(redactor)
      invariant tail.length > 0 ==> redactor.process == ""
      invariant all == Prepend(whole, changed, ScanFrom(rules, redactor.Now(), key, text[at..], tail))
    {
      var line := text[at..][..LineLength(text[at..])];
      ghost var before := redactor.Now();
      var redacted, open := JudgeLine(rules, redactor, line, tail);
      ghost var j := Judge(rules, before, line, tail);
      if !Complete(line) {
        var last := if Continues(tail, line) || redacted != line then Tail(|redacted|, redactor.state, open) else NoTail;
        assert whole + "" == whole;
        return Scan(whole, redacted, key, last, changed || redacted != line);
      }
      PrependTwice(whole, changed, redacted, redacted != line,
                   ScanFrom(rules, redactor.Now(), redactor.state, text[at..][|line|..], NoTail));
      whole, key, tail, changed := whole + redacted, redactor.state, NoTail, changed || redacted != line;
      at := at + |line|;
      assert text[at..] == text[at - |line|..][|line|..];
    }
    assert text[at..] == "" && whole + "" == whole;
    return Scan(whole, "", key, NoTail, changed);
  }

  lemma {:induction false} PrependTwice(a: string, p: bool, b: string, q: bool, s: Scan)
    ensures Prepend(a, p, Prepend(b, q, s)) == Prepend(a + b, p || q, s)
  {
    assert a + (b + s.whole) == (a + b) + s.whole;
  }

  /** `redactRange`, without a writer appending while it reads: the next record up to its digest,
      whether any line changed, everything written, and the text added to the digest. */
  method RedactRange(rules: Rules, input: string, state: Record)
    returns (next: Record, changed: bool, written: string, digested: string)
    requires 0 <= state.offset <= |input| && state.tailLength >= 0
    ensures var scan := ScanOf(rules, input, state);
            && next == NextRecord(input, state, scan).(prefix := None)
            && changed == scan.changed
            && written == scan.whole + scan.last
            && input[..state.offset] + digested == Covered(input, state, scan)
  {
    var scan := ScanLines(rules, Carry(state.keyState), input[state.offset..], TailOf(state));
    next := state.(offset := state.offset + |scan.whole|, keyState := scan.keyState,
                   tailLength := scan.tail.length, tailKeyState := scan.tail.keyState, tailValue := scan.tail.value,
                   prefix := None);
    changed := scan.changed;
    written := scan.whole + scan.last;
    digested := scan.whole + if scan.tail.length > 0 then scan.last else "";
    assert input[..state.offset] + digested == Covered(input, state, scan);
  }
}
