/** The line redactor of internal/ansible/log_policy.go (`streamRedactor`, `keyState`,
    `redactContinuation`, `preserveLineEnding`). The per-line masker and the regular expressions
    are the fields of `Rules`. */
module Redaction {
  import opened Outcomes

  /** Which rule's value an unfinished line ends inside (`openValue`). */
  datatype ValueKind = NoValue | FlagValue | AssignmentValue

  datatype RuleSet = RuleSet(
    fingerprint: string,
    marker: string,
    placeholder: string,
    mask: string -> string,
    begins: string -> bool,
    ends: string -> bool,
    record: string -> Option<string>,
    recap: string -> bool,
    open: string -> ValueKind)

  /** Text up to and including the first newline, or up to the end. */
  predicate IsLine(s: string) {
    s != "" && forall i :: 0 <= i < |s| - 1 ==> s[i] != '\n'
  }

  predicate Complete(s: string) {
    s != "" && s[|s| - 1] == '\n'
  }

  predicate NoNewline(s: string) {
    forall i :: 0 <= i < |s| ==> s[i] != '\n'
  }

  /** All that is known of the rules: masking a line gives a line with the same ending, a record
      names its process, and the private key placeholder is text on one line. */
  ghost predicate WellBehaved(r: RuleSet) {
    && r.placeholder != "" && NoNewline(r.placeholder)
    && (forall l: string :: IsLine(l) ==> IsLine(r.mask(l)) && (Complete(r.mask(l)) <==> Complete(l)))
    && (forall l: string :: r.record(l).Some? ==> l != "" && r.record(l).value != "")
  }

  type Rules = r: RuleSet | WellBehaved(r)
    ghost witness RuleSet("", "", "*", l => l, _ => false, _ => false, _ => None, _ => false, _ => NoValue)

  datatype KeyState = KeyState(inKey: bool, carried: bool, process: string)

  const NoKey := KeyState(false, false, "")

  datatype Redactor = Redactor(state: KeyState, process: string)

  const Idle := Redactor(NoKey, "")

  /** A judged line: the redactor after it, what is written for it, and the value it ends inside. */
  datatype Judged = Judged(after: Redactor, text: string, open: ValueKind)

  function HasSuffix(s: string, suffix: string): bool {
    |s| >= |suffix| && s[|s| - |suffix|..] == suffix
  }

  function PreserveLineEnding(line: string, replacement: string): string {
    if !Complete(line) then replacement
    else if |line| >= 2 && line[|line| - 2] == '\r' then replacement + ['\r', '\n']
    else replacement + ['\n']
  }

  /** The line that stands for a line of a private key. */
  function Masked(rules: Rules, line: string): string {
    PreserveLineEnding(line, rules.placeholder)
  }

  /** A record that ends a key carried from an earlier scan. */
  predicate EndsCarriedKey(rules: Rules, state: KeyState, line: string, process: string) {
    state.inKey && state.carried && (state.process == "" || process != state.process || rules.recap(line))
  }

  /** The redactor after it has looked at whether `line` starts a record. */
  function AtRecord(rules: Rules, r: Redactor, line: string): Redactor {
    match rules.record(line)
    case None => r
    case Some(p) => Redactor(if EndsCarriedKey(rules, r.state, line, p) then NoKey else r.state, p)
  }

  function Redact(rules: Rules, r: Redactor, line: string): Judged {
    var at := AtRecord(rules, r, line);
    if at.state.inKey then
      Judged(if rules.ends(line) then at.(state := NoKey) else at, Masked(rules, line), rules.open(line))
    else if rules.begins(line) then
      Judged(if rules.ends(line) then at else at.(state := KeyState(true, false, at.process)),
             Masked(rules, line), rules.open(line))
    else
      Judged(at, rules.mask(line), rules.open(line))
  }

  /** `unicode.IsSpace`. */
  predicate IsSpace(c: char) {
    '\t' <= c <= '\r' || c == ' ' || c in {'\U{85}', '\U{a0}', '\U{1680}'} || '\U{2000}' <= c <= '\U{200a}'
    || c in {'\U{2028}', '\U{2029}', '\U{202f}', '\U{205f}', '\U{3000}'}
  }

  predicate StopsValue(c: char, kind: ValueKind) {
    IsSpace(c) || (kind == AssignmentValue && c in ",}]")
  }

  /** How much of `rest` continues a value (`valueRunLength`). */
  function ValueRunLength(rest: string, kind: ValueKind): (n: nat)
    ensures n <= |rest|
    ensures forall i :: 0 <= i < n ==> !StopsValue(rest[i], kind)
    ensures n < |rest| ==> StopsValue(rest[n], kind)
  {
    if rest == "" || StopsValue(rest[0], kind) then 0 else 1 + ValueRunLength(rest[1..], kind)
  }

  predicate MaySpellKeyBegin(text: string) {
    text != "" && (text <= "-----BEGIN " || "-----BEGIN" <= text)
  }

  /** The part that was written on is the rest of a masked value, up to where the value stops. */
  predicate ContinuesValue(rules: Rules, masked: string, rest: string, value: ValueKind) {
    value != NoValue && HasSuffix(masked, rules.marker)
    && rules.record(rest).None? && !MaySpellKeyBegin(rest[..ValueRunLength(rest, value)])
  }

  /** A line whose first part, `masked`, an earlier scan masked before its writer finished it
      (`redactContinuation`); `tail` is the key state after that part. */
  function Continue(rules: Rules, masked: string, rest: string, tail: KeyState, value: ValueKind): Judged {
    if !tail.inKey then
      if ContinuesValue(rules, masked, rest, value) then
        var n := ValueRunLength(rest, value);
        if n == |rest| then Redact(rules, Redactor(tail, ""), masked).(open := value)
        else Redact(rules, Redactor(tail, ""), masked + rest[n..])
      else Redact(rules, Redactor(tail, ""), masked + rest)
    else
      var r := Redactor(tail.(carried := true), "");
      var record := rules.record(rest);
      if record.Some? && EndsCarriedKey(rules, r.state, rest, record.value) then
        var j := Redact(rules, r, rest);
        j.(text := rules.placeholder + j.text)
      else
        Judged(if rules.ends(rest) then Redactor(NoKey, "") else r, Masked(rules, masked + rest), NoValue)
  }

  /** A key still open in a record began in an earlier scan. */
  function Carry(k: KeyState): KeyState {
    if k.inKey then k.(carried := true) else k
  }

  // Lines stay lines.

  lemma {:induction false} PlaceholderLine(rules: Rules, line: string)
    requires IsLine(line)
    ensures IsLine(Masked(rules, line))
    ensures Complete(Masked(rules, line)) <==> Complete(line)
  {
  }

  /** What is written for a line is a line with the same ending. */
  lemma {:induction false} RedactLine(rules: Rules, r: Redactor, line: string)
    requires IsLine(line)
    ensures IsLine(Redact(rules, r, line).text)
    ensures Complete(Redact(rules, r, line).text) <==> Complete(line)
  {
    PlaceholderLine(rules, line);
  }

  lemma {:induction false} ShortenedLine(masked: string, rest: string, n: nat)
    requires IsLine(masked) && !Complete(masked) && IsLine(masked + rest) && n <= |rest|
    ensures IsLine(masked + rest[n..])
    ensures n < |rest| ==> (Complete(masked + rest[n..]) <==> Complete(masked + rest))
    ensures rest != "" ==> IsLine(rest) && (Complete(rest) <==> Complete(masked + rest))
  {
    var line, shorter := masked + rest, masked + rest[n..];
    assert forall i :: 0 <= i < |rest| ==> rest[i] == line[|masked| + i];
    assert forall k :: |masked| <= k < |shorter| ==> shorter[k] == line[k + n];
    assert forall i :: 0 <= i < |masked| ==> shorter[i] == masked[i] && masked[i] != '\n';
  }

  lemma {:induction false} PrefixedLine(rules: Rules, line: string)
    requires IsLine(line)
    ensures IsLine(rules.placeholder + line) && (Complete(rules.placeholder + line) <==> Complete(line))
  {
  }

  lemma {:induction false} RunStopsAtNewline(rest: string, value: ValueKind)
    requires Complete(rest)
    ensures ValueRunLength(rest, value) < |rest|
  {
    assert StopsValue('\n', value);
  }

  lemma {:induction false} ContinueLine(rules: Rules, masked: string, rest: string, tail: KeyState, value: ValueKind)
    requires IsLine(masked) && !Complete(masked) && IsLine(masked + rest)
    ensures IsLine(Continue(rules, masked, rest, tail, value).text)
    ensures Complete(Continue(rules, masked, rest, tail, value).text) <==> Complete(masked + rest)
  {
    var line := masked + rest;
    var n := ValueRunLength(rest, value);
    ShortenedLine(masked, rest, n);
    if rest == "" { assert line == masked; }
    if !tail.inKey {
      if ContinuesValue(rules, masked, rest, value) {
        if n == |rest| {
          if Complete(rest) { RunStopsAtNewline(rest, value); }
          RedactLine(rules, Redactor(tail, ""), masked);
        } else {
          RedactLine(rules, Redactor(tail, ""), masked + rest[n..]);
        }
      } else {
        RedactLine(rules, Redactor(tail, ""), line);
      }
    } else {
      var r := Redactor(tail.(carried := true), "");
      PlaceholderLine(rules, line);
      if rest != "" {
        RedactLine(rules, r, rest);
        PrefixedLine(rules, Redact(rules, r, rest).text);
      }
    }
  }

  /** `streamRedactor`, whose key state and process change line by line. */
  class StreamRedactor {
    var state: KeyState
    var process: string

    constructor (initial: KeyState)
      ensures Now() == Redactor(initial, "")
    {
      state, process := initial, "";
    }

    function Now(): Redactor
      reads this
    {
      Redactor(state, process)
    }

    method RedactOne(rules: Rules, line: string) returns (redacted: string)
      modifies this
      ensures redacted == Redact(rules, old(Now()), line).text && Now() == Redact(rules, old(Now()), line).after
    {
      var record := rules.record(line);
      if record.Some? {
        process := record.value;
        if EndsCarriedKey(rules, state, line, record.value) {
          state := NoKey;
        }
      }
      if state.inKey {
        if rules.ends(line) {
          state := NoKey;
        }
        return Masked(rules, line);
      }
      if rules.begins(line) {
        if !rules.ends(line) {
          state := KeyState(true, false, process);
        }
        return Masked(rules, line);
      }
      return rules.mask(line);
    }

    /** `redactContinuation`, which only judges the first line of a scan. */
    method RedactContinuation(rules: Rules, line: string, maskedLen: nat, tail: KeyState, tailValue: ValueKind)
      returns (redacted: string, open: ValueKind)
      requires maskedLen <= |line| && process == ""
      modifies this
      ensures var j := Continue(rules, line[..maskedLen], line[maskedLen..], tail, tailValue);
              redacted == j.text && Now() == j.after && open == j.open
    {
      var masked, rest := line[..maskedLen], line[maskedLen..];
      assert line == masked + rest;
      state := tail;
      if !tail.inKey {
        if tailValue != NoValue && HasSuffix(masked, rules.marker) {
          var n := ValueRunLength(rest, tailValue);
          if rules.record(rest).None? && !MaySpellKeyBegin(rest[..n]) {
            if n == |rest| {
              redacted := RedactOne(rules, masked);
              return redacted, tailValue;
            }
            redacted := RedactOne(rules, masked + rest[n..]);
            return redacted, rules.open(masked + rest[n..]);
          }
        }
        redacted := RedactOne(rules, line);
        return redacted, rules.open(line);
      }
      state := state.(carried := true);
      var record := rules.record(rest);
      if record.Some? && EndsCarriedKey(rules, state, rest, record.value) {
        redacted := RedactOne(rules, rest);
        return rules.placeholder + redacted, rules.open(rest);
      }
      if rules.ends(rest) {
        state := NoKey;
      }
      return Masked(rules, line), NoValue;
    }
  }
}
