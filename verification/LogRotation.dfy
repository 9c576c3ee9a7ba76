/** Rotation of an oversized log in internal/ansible/log_policy.go (`maintainActiveLog`,
    `rotateRedacted`, `finishRotation`, `recoverRotations`, `trimFileToTail`, `retainRotated`) as a
    machine whose steps are single renames, removals and creations, and which may be killed between
    any two of them. */
module LogRotation {
  import opened Outcomes
  import opened Redaction
  import opened LogScan
  import opened LogHistory
  import opened LogPass

  datatype Policy = Policy(maxBytes: int, maxFiles: nat)

  /** What finishing a rotation has to do next with the renamed-aside log. */
  datatype Stage = ToRedact | ToTrim | ToRemove | ToInstall

  datatype Pc =
    | Ready
    | Recovering(left: seq<nat>)
    | Redacting
    | Saving(next: Record)
    | Checking
    | RedactingRotated
    | Rotating
    | RemovingRecord(name: nat, state: Record)
    | CreatingActive(name: nat, state: Record)
    | Finishing(name: nat, state: Record, stage: Stage, left: seq<nat>, recovering: bool)
    | Emptying

  /** The log directory. Renamed-aside logs carry the time their rotation started. A process that had the log open
      when it was renamed goes on writing to the ones in `held`. `origins` remembers everything each of them was
      given, up to the redaction that detached its writers; `installed` what it was when it became path.1. `foreign` is a
      path.1 that was not redacted here since something else put it there. */
  datatype World = World(
    active: Option<File>, record: Record, asides: map<nat, File>, held: set<nat>, rotated: Option<string>, foreign: bool,
    pc: Pc, origins: map<nat, string>, installed: map<nat, string>)

  datatype Step =
    /** Writers of the active log, between any two actions. */
    | Writes(file: Option<File>)
    /** A process that still has a renamed-aside log open appends to it, at any time. */
    | Appends(name: nat, raw: string)
    | FindsRecord(found: Record)
    /** Between maintenances, anything may come to stand as path.1: a log of an earlier build, or no log. */
    | FindsRotated(text: Option<string>)
    /** A maintenance begins, taking up these leftovers, oldest first. */
    | Begins(leftovers: seq<nat>)
    /** The next action of the maintenance; new files get this identity, a new rotation this name. */
    | Acts(device: int, inode: int, name: nat)
    /** The next action fails: what concerns interrupted rotations is skipped, anything else ends the maintenance. */
    | Fails
    | Killed

  /** `text` is a suffix of `whole` that starts at a line boundary. */
  predicate LinesOf(text: string, whole: string) {
    |text| <= |whole| && text == whole[|whole| - |text|..] && (text == "" || text == whole || whole[|whole| - |text| - 1] == '\n')
  }

  /** All of a text within the bound, and otherwise as many of its newest lines as stay below the bound. */
  ghost predicate NewestLines(text: string, maxBytes: int, kept: string) {
    if maxBytes <= 0 || |text| <= maxBytes then kept == text
    else
      && LinesOf(kept, text) && |kept| < maxBytes
      && forall t :: LinesOf(t, text) && |t| < maxBytes ==> |t| <= |kept|
  }

  /** `trimFileToTail`: the newest `maxBytes` bytes without the line they cut. */
  function TrimTail(text: string, maxBytes: int): (r: string)
    ensures NewestLines(text, maxBytes, r)
  {
    if maxBytes <= 0 || |text| <= maxBytes then text
    else
      var tail := text[|text| - maxBytes..];
      NothingLonger(text, maxBytes);
      tail[LineLength(tail)..]
  }

  lemma {:induction false} NothingLonger(text: string, maxBytes: int)
    requires 0 < maxBytes < |text|
    ensures var tail := text[|text| - maxBytes..];
            var kept := tail[LineLength(tail)..];
            LinesOf(kept, text) && forall t :: LinesOf(t, text) && |t| < maxBytes ==> |t| <= |kept|
  {
    var tail, start := text[|text| - maxBytes..], |text| - maxBytes;
    var n := LineLength(tail);
    assert forall k :: 0 <= k < n ==> tail[..n][k] == text[start + k];
    assert tail[..n][n - 1] == text[start + n - 1];
    forall t | LinesOf(t, text) && |t| < maxBytes ensures |t| <= maxBytes - n {
      assert |text| - |t| - 1 == start + (|text| - |t| - 1 - start);
    }
  }

  function AfterFinishing(pc: Pc): Pc
    requires pc.Finishing?
  {
    if pc.recovering then Recovering(pc.left) else Ready
  }

  /** The leftover of an earlier process that recovery takes up next. */
  function NextLeftover(left: seq<nat>, asides: map<nat, File>): Pc {
    if left == [] then Redacting
    else if left[0] !in asides then Recovering(left[1..])
    else Finishing(left[0], NoRecord, ToRedact, left[1..], true)
  }

  /** The scan of the active log is put in its place, and its record is to be saved. */
  function Scanned(w: World, f: File, m: Maintained, device: int, inode: int): World {
    w.(active := Some(if m.rewritten then File(device, inode, m.content) else f),
       pc := if m.save then Saving(if m.rewritten then m.record.(device := device, inode := inode) else m.record) else Checking)
  }

  /** The texts the next action works out: the scan of the active log, the pass over path.1, the redaction of the log in hand. */
  datatype Work = Work(scan: Maintained, pass: string, redacted: string)

  function WorkOf(rules: Rules, w: World): Work {
    Work(if w.active.Some? then RedactLog(rules, w.active.value, w.record, false) else Maintained("", false, w.record, false),
         if w.rotated.Some? then Pass(rules, Idle, w.rotated.value).text else "",
         if w.pc.Finishing? && w.pc.name in w.asides then RedactLog(rules, w.asides[w.pc.name], w.pc.state, true).content else "")
  }

  function Act(rules: Rules, policy: Policy, w: World, device: int, inode: int, name: nat): World {
    ActWith(policy, w, WorkOf(rules, w), device, inode, name)
  }

  function ActWith(policy: Policy, w: World, work: Work, device: int, inode: int, name: nat): World {
    match w.pc
    case Ready => w
    case Recovering(left) => w.(pc := NextLeftover(left, w.asides))
    case Redacting => if w.active.None? then w.(pc := Ready) else Scanned(w, w.active.value, work.scan, device, inode)
    case Saving(next) => w.(record := next, pc := Checking)
    case Checking =>
      if w.active.None? || policy.maxBytes <= 0 || |w.active.value.content| <= policy.maxBytes then w.(pc := Ready)
      else w.(pc := RedactingRotated)
    case RedactingRotated =>
      w.(rotated := if w.rotated.Some? && policy.maxFiles > 0 then Some(work.pass) else w.rotated,
         foreign := w.foreign && policy.maxFiles == 0,
         pc := if policy.maxFiles == 0 then Emptying else Rotating)
    case Emptying => w.(record := NoRecord, active := Some(File(device, inode, "")), pc := Ready)
    case Rotating =>
      if w.active.None? || name in w.origins then w
      else w.(active := None, asides := w.asides[name := w.active.value],
              held := w.held + {name}, origins := w.origins[name := w.active.value.content],
              pc := RemovingRecord(name, w.record))
    case RemovingRecord(n, state) => w.(record := NoRecord, pc := CreatingActive(n, state))
    case CreatingActive(n, state) =>
      w.(active := if w.active.Some? then w.active else Some(File(device, inode, "")),
         pc := Finishing(n, state, ToRedact, [], false))
    case Finishing(n, _, _, _, _) =>
      if n !in w.asides then w.(pc := AfterFinishing(w.pc))
      else if policy.maxFiles == 0 then w.(asides := w.asides - {n}, pc := AfterFinishing(w.pc))
      else FinishStage(policy, w, work.redacted, device, inode)
  }

  /** `finishRotation` on a retained log: redact, trim, make room, install. `retainRotated` removes
      only the last retained log; its other renames are onto the same name. */
  function FinishStage(policy: Policy, w: World, redacted: string, device: int, inode: int): World
    requires w.pc.Finishing? && w.pc.name in w.asides
  {
    var n := w.pc.name;
    match w.pc.stage
    case ToRedact =>
      w.(asides := w.asides[n := File(device, inode, redacted)], held := w.held - {n}, pc := w.pc.(stage := ToTrim))
    case ToTrim =>
      w.(asides := w.asides[n := w.asides[n].(content := TrimTail(w.asides[n].content, policy.maxBytes))],
         pc := w.pc.(stage := ToRemove))
    case ToRemove =>
      w.(rotated := if policy.maxFiles == 1 then None else w.rotated, pc := w.pc.(stage := ToInstall))
    case ToInstall =>
      w.(rotated := Some(w.asides[n].content), foreign := false, asides := w.asides - {n},
         installed := w.installed[n := w.asides[n].content], pc := AfterFinishing(w.pc))
  }

  predicate Enabled(rules: Rules, w: World, s: Step) {
    match s
    case Writes(_) => true
    case Appends(n, _) => n in w.held && n in w.asides && n in w.origins
    case FindsRecord(found) => found.rules != rules.fingerprint || found.prefix.None?
    case FindsRotated(_) => w.pc.Ready?
    case Begins(leftovers) => w.pc.Ready? && forall i :: 0 <= i < |leftovers| ==> leftovers[i] in w.asides
    case Acts(_, _, _) => true
    case Fails => !w.pc.Ready?
    case Killed => true
  }

  /** A step that is not enabled changes nothing. */
  function Next(rules: Rules, policy: Policy, w: World, s: Step): World {
    if !Enabled(rules, w, s) then w
    else
      match s
      case Writes(file) => w.(active := file)
      case Appends(n, raw) =>
        w.(asides := w.asides[n := w.asides[n].(content := w.asides[n].content + raw)], origins := w.origins[n := w.origins[n] + raw])
      case FindsRecord(found) => w.(record := found)
      case FindsRotated(text) => w.(rotated := text, foreign := true)
      case Begins(leftovers) => w.(pc := Recovering(leftovers))
      case Acts(device, inode, name) => Act(rules, policy, w, device, inode, name)
      case Fails => w.(pc := if w.pc.Finishing? then AfterFinishing(w.pc) else if w.pc.Recovering? then Redacting else Ready)
      case Killed => w.(pc := Ready)
  }

  function Run(rules: Rules, policy: Policy, w: World, steps: seq<Step>): World {
    if steps == [] then w else Next(rules, policy, Run(rules, policy, w, steps[..|steps| - 1]), steps[|steps| - 1])
  }

  const Empty := World(None, NoRecord, map[], {}, None, false, Ready, map[], map[])

  // What holds between any two steps.

  /** Redactor output without some of its oldest lines. */
  ghost predicate TailOfOutput(rules: Rules, text: string) {
    exists whole :: Emitted(rules, whole) && LinesOf(text, whole)
  }

  /** `after` is the redaction of all of `before`, from an honest record. */
  ghost predicate Redacted(rules: Rules, before: string, after: string) {
    exists device: int, inode: int, rec: Record :: Honest(rules, rec) && after == RedactLog(rules, File(device, inode, before), rec, true).content
  }

  /** One further treatment of a log that was redacted: redacted again, or trimmed. */
  ghost predicate Treated(rules: Rules, policy: Policy, before: string, after: string) {
    NewestLines(before, policy.maxBytes, after) || Redacted(rules, before, after)
  }

  ghost predicate Chain(rel: (string, string) -> bool, steps: seq<string>) {
    steps != []
    && var n := |steps| - 1; n == 0 || (Chain(rel, steps[..n]) && rel(steps[n - 1], steps[n]))
  }

  /** `b` comes from `a` by any number of steps of the relation. */
  ghost predicate Linked(rel: (string, string) -> bool, a: string, b: string) {
    exists steps :: Chain(rel, steps) && steps[0] == a && steps[|steps| - 1] == b
  }

  ghost function Treatments(rules: Rules, policy: Policy): (string, string) -> bool {
    (before, after) => Treated(rules, policy, before, after)
  }

  /** `text` comes from redacting all of `origin`; anything else was done to it only after that. */
  ghost predicate MadeFrom(rules: Rules, policy: Policy, origin: string, text: string) {
    After((before, after) => Redacted(rules, before, after), Treatments(rules, policy), origin, text)
  }

  /** One step of the first relation, then any number of the second. */
  ghost predicate After(first: (string, string) -> bool, more: (string, string) -> bool, a: string, b: string) {
    exists mid :: first(a, mid) && Linked(more, mid, b)
  }

  /** What is kept of a log: the newest lines of its redaction, no more of them than the bound allows. */
  ghost predicate Retained(rules: Rules, policy: Policy, origin: string, text: string) {
    exists whole :: Emitted(rules, whole) && MadeFrom(rules, policy, origin, whole) && NewestLines(whole, policy.maxBytes, text)
  }

  /** What is claimed of records and texts, each as one value: what a step keeps does not depend on what they are. */
  datatype Claims = Claims(
    honest: Record -> bool, output: string -> bool, tail: string -> bool,
    made: (string, string) -> bool, retained: (string, string) -> bool)

  ghost function ClaimsOf(rules: Rules, policy: Policy): Claims {
    Claims(rec => Honest(rules, rec), text => Emitted(rules, text), text => TailOfOutput(rules, text),
           (origin, text) => MadeFrom(rules, policy, origin, text), (origin, text) => Retained(rules, policy, origin, text))
  }

  /** How far the renamed-aside log in hand has got. */
  predicate StageReached(k: Claims, stage: Stage, origin: string, content: string) {
    match stage
    case ToRedact => true
    case ToTrim => k.output(content)
    case ToRemove => k.retained(origin, content)
    case ToInstall => k.retained(origin, content)
  }

  predicate PcOk(k: Claims, pc: Pc, origins: map<nat, string>, asides: map<nat, File>, held: set<nat>) {
    match pc
    case Saving(next) => k.honest(next)
    case RemovingRecord(n, state) => k.honest(state) && n in asides
    case CreatingActive(n, state) => k.honest(state) && n in asides
    case Finishing(n, state, stage, _, _) =>
      && k.honest(state) && n in asides
      && (stage == ToRedact || (n !in held && n in origins && StageReached(k, stage, origins[n], asides[n].content)))
    case _ => true
  }

  /** A renamed-aside log that a writer may still hold has everything it was given; one that was detached is still there, made
      from the redaction of all of that, or was installed as path.1 with the newest lines of it. */
  predicate Survives(k: Claims, origin: string, held: bool, aside: Option<File>, installed: Option<string>) {
    match (aside, installed)
    case (Some(f), None) => if held then f.content == origin else k.made(origin, f.content)
    case (None, Some(text)) => k.retained(origin, text)
    case _ => false
  }

  ghost predicate Kept(k: Claims, origins: map<nat, string>, asides: map<nat, File>, held: set<nat>, installed: map<nat, string>) {
    && (forall n :: n in asides || n in installed ==> n in origins)
    && (forall n :: n in origins ==> Survives(k, origins[n], n in held, Find(asides, n), Find(installed, n)))
  }

  /** The rotation has redacted path.1 and goes on to replace it. */
  predicate Replacing(pc: Pc) {
    pc.Rotating? || pc.RemovingRecord? || pc.CreatingActive? || (pc.Finishing? && !pc.recovering)
  }

  ghost predicate Inv(k: Claims, w: World) {
    && k.honest(w.record)
    && (w.rotated.Some? && !w.foreign ==> k.tail(w.rotated.value))
    && (Replacing(w.pc) ==> !w.foreign)
    && Kept(k, w.origins, w.asides, w.held, w.installed)
    && PcOk(k, w.pc, w.origins, w.asides, w.held)
  }

  lemma {:induction false} LinkedItself(rel: (string, string) -> bool, a: string)
    ensures Linked(rel, a, a)
  {
    assert Chain(rel, [a]) && [a][0] == a;
  }

  lemma {:induction false} LinkedFurther(rel: (string, string) -> bool, a: string, b: string, c: string)
    requires Linked(rel, a, b) && rel(b, c)
    ensures Linked(rel, a, c)
  {
    var steps :| Chain(rel, steps) && steps[0] == a && steps[|steps| - 1] == b;
    var more := steps + [c];
    assert more[..|steps|] == steps;
    assert Chain(rel, more) && more[0] == a && more[|more| - 1] == c;
  }

  lemma {:induction false} AfterFurther(first: (string, string) -> bool, more: (string, string) -> bool, a: string, b: string, c: string)
    requires After(first, more, a, b) && more(b, c)
    ensures After(first, more, a, c)
  {
    var mid :| first(a, mid) && Linked(more, mid, b);
    LinkedFurther(more, mid, b, c);
  }

  lemma {:induction false} FreshScanEmitted(rules: Rules, text: string)
    ensures var s := ScanFrom(rules, Idle, NoKey, text, NoTail); Emitted(rules, s.whole + s.last)
  {
    var s := ScanFrom(rules, Idle, NoKey, text, NoTail);
    var u := ScanOnTrail(rules, Trail([], []), Idle, NoKey, text, NoTail);
    LeavesEmitted(rules, "", s, u);
    EmptyFront(s.whole, s.last);
  }

  lemma {:induction false} EmptyFront(a: string, b: string)
    ensures "" + a + b == a + b
  {
  }

  lemma {:induction false} PassEmitted(rules: Rules, text: string)
    ensures Emitted(rules, Pass(rules, Idle, text).text)
  {
    FreshScanEmitted(rules, text);
    ScanIsPass(rules, Idle, NoKey, text, NoTail);
  }

  lemma {:induction false} WholeLinesOf(text: string)
    ensures LinesOf(text, text)
  {
  }

  lemma {:induction false} WholeOutput(rules: Rules, text: string)
    requires Emitted(rules, text)
    ensures TailOfOutput(rules, text)
  {
    WholeLinesOf(text);
  }

  lemma {:induction false} LinesAreOutput(rules: Rules, tail: string, text: string)
    requires Emitted(rules, text) && LinesOf(tail, text)
    ensures TailOfOutput(rules, tail)
  {
  }

  // What the actions of a maintenance establish.

  lemma {:induction false} NoRecordHonest(rules: Rules)
    ensures Honest(rules, NoRecord)
  {
  }

  lemma {:induction false} RedactedBy(rules: Rules, f: File, state: Record)
    requires Honest(rules, state)
    ensures var text := RedactLog(rules, f, state, true).content; Redacted(rules, f.content, text) && Emitted(rules, text)
  {
    MaintenanceHonest(rules, f, state, true);
    assert f == File(f.device, f.inode, f.content);
  }

  /** The first redaction takes all of the origin; a later treatment goes on from what was made of it. */
  lemma {:induction false} MadeFirst(rules: Rules, policy: Policy, origin: string, text: string)
    requires Redacted(rules, origin, text)
    ensures MadeFrom(rules, policy, origin, text)
  {
    var first := (before, after) => Redacted(rules, before, after);
    LinkedItself(Treatments(rules, policy), text);
    assert first(origin, text);
  }

  lemma {:induction false} MadeFurther(rules: Rules, policy: Policy, origin: string, text: string, next: string)
    requires MadeFrom(rules, policy, origin, text) && Treated(rules, policy, text, next)
    ensures MadeFrom(rules, policy, origin, next)
  {
    AfterFurther((before, after) => Redacted(rules, before, after), Treatments(rules, policy), origin, text, next);
  }

  lemma {:induction false} RedactsFrom(rules: Rules, policy: Policy, f: File, state: Record, origin: string)
    requires ClaimsOf(rules, policy).honest(state)
    ensures var k, text := ClaimsOf(rules, policy), RedactLog(rules, f, state, true).content;
            k.output(text) && k.made(f.content, text) && (k.made(origin, f.content) ==> k.made(origin, text))
  {
    var text := RedactLog(rules, f, state, true).content;
    RedactedBy(rules, f, state);
    MadeFirst(rules, policy, f.content, text);
    if MadeFrom(rules, policy, origin, f.content) { MadeFurther(rules, policy, origin, f.content, text); }
  }

  lemma {:induction false} TrimRetains(rules: Rules, policy: Policy, origin: string, text: string)
    requires var k := ClaimsOf(rules, policy); k.output(text) && k.made(origin, text)
    ensures var k, tail := ClaimsOf(rules, policy), TrimTail(text, policy.maxBytes); k.retained(origin, tail) && k.made(origin, tail)
  {
    MadeFurther(rules, policy, origin, text, TrimTail(text, policy.maxBytes));
  }

  lemma {:induction false} RetainedIsTail(rules: Rules, policy: Policy, origin: string, text: string)
    requires ClaimsOf(rules, policy).retained(origin, text)
    ensures ClaimsOf(rules, policy).tail(text)
  {
    var whole :| Emitted(rules, whole) && MadeFrom(rules, policy, origin, whole) && NewestLines(whole, policy.maxBytes, text);
    WholeLinesOf(whole);
    LinesAreOutput(rules, text, whole);
  }

  lemma {:induction false} ScanIsHonest(rules: Rules, policy: Policy, f: File, rec: Record, device: int, inode: int)
    requires ClaimsOf(rules, policy).honest(rec)
    ensures var k, m := ClaimsOf(rules, policy), RedactLog(rules, f, rec, false); k.honest(m.record) && k.honest(m.record.(device := device, inode := inode))
  {
    MaintenanceHonest(rules, f, rec, false);
    MovedRecordHonest(rules, RedactLog(rules, f, rec, false).record, device, inode);
  }

  lemma {:induction false} PassIsTail(rules: Rules, policy: Policy, text: string)
    ensures ClaimsOf(rules, policy).tail(Pass(rules, Idle, text).text)
  {
    PassEmitted(rules, text);
    WholeOutput(rules, Pass(rules, Idle, text).text);
  }

  lemma {:induction false} NothingIsHonest(rules: Rules, policy: Policy)
    ensures ClaimsOf(rules, policy).honest(NoRecord)
  {
    NoRecordHonest(rules);
  }

  // What the steps keep, whatever is claimed.

  lemma {:induction false} FindWith<V>(m: map<nat, V>, n: nat, v: V, k: nat)
    ensures Find(m[n := v], k) == if k == n then Some(v) else Find(m, k)
  {
  }

  lemma {:induction false} FindWithout<V>(m: map<nat, V>, n: nat, k: nat)
    ensures Find(m - {n}, k) == if k == n then None else Find(m, k)
  {
  }

  lemma {:induction false} ReplaceKeeps(k: Claims, origins: map<nat, string>, asides: map<nat, File>, held: set<nat>,
                                        installed: map<nat, string>, n: nat, f: File)
    requires Kept(k, origins, asides, held, installed)
    requires n in asides && k.made(origins[n], f.content)
    ensures Kept(k, origins, asides[n := f], held - {n}, installed)
  {
    var less, next := held - {n}, asides[n := f];
    forall i | i in origins ensures Survives(k, origins[i], i in less, Find(next, i), Find(installed, i)) {
      FindWith(asides, n, f, i);
      assert Survives(k, origins[i], i in held, Find(asides, i), Find(installed, i));
    }
  }

  /** A writer that holds the log appends to it. */
  lemma {:induction false} AppendKeeps(k: Claims, origins: map<nat, string>, asides: map<nat, File>, held: set<nat>,
                                       installed: map<nat, string>, n: nat, raw: string)
    requires Kept(k, origins, asides, held, installed) && n in held && n in asides && n in origins
    ensures Kept(k, origins[n := origins[n] + raw], asides[n := asides[n].(content := asides[n].content + raw)], held, installed)
  {
    var f, all := asides[n].(content := asides[n].content + raw), origins[n := origins[n] + raw];
    var next := asides[n := f];
    forall i | i in all ensures Survives(k, all[i], i in held, Find(next, i), Find(installed, i)) {
      FindWith(asides, n, f, i);
      assert Survives(k, origins[i], i in held, Find(asides, i), Find(installed, i));
    }
    assert forall i :: i in next || i in installed ==> i in all;
  }

  lemma {:induction false} InstallKeeps(k: Claims, origins: map<nat, string>, asides: map<nat, File>, held: set<nat>,
                                        installed: map<nat, string>, n: nat)
    requires Kept(k, origins, asides, held, installed)
    requires n in asides && n !in held && n in origins && k.retained(origins[n], asides[n].content)
    ensures Kept(k, origins, asides - {n}, held, installed[n := asides[n].content])
  {
    var text := asides[n].content;
    var less, more := asides - {n}, installed[n := text];
    forall i | i in origins ensures Survives(k, origins[i], i in held, Find(less, i), Find(more, i)) {
      assert Survives(k, origins[i], i in held, Find(asides, i), Find(installed, i));
      FindWithout(asides, n, i);
      FindWith(installed, n, text, i);
    }
  }

  lemma {:induction false} AsideKeeps(k: Claims, origins: map<nat, string>, asides: map<nat, File>, held: set<nat>,
                                      installed: map<nat, string>, n: nat, f: File)
    requires Kept(k, origins, asides, held, installed) && n !in origins
    ensures Kept(k, origins[n := f.content], asides[n := f], held + {n}, installed)
  {
    var all, more, also := origins[n := f.content], asides[n := f], held + {n};
    assert Find(installed, n) == None && n !in asides;
    forall i | i in all ensures Survives(k, all[i], i in also, Find(more, i), Find(installed, i)) {
      FindWith(asides, n, f, i);
      if i != n { assert all[i] == origins[i] && Survives(k, origins[i], i in held, Find(asides, i), Find(installed, i)); }
    }
    assert forall i :: i in more || i in installed ==> i in all;
  }

  /** What is known of the log in hand: everything it was given while it is held, and what was made of that afterwards. */
  lemma {:induction false} InHand(k: Claims, w: World)
    requires Inv(k, w) && w.pc.Finishing?
    ensures var n := w.pc.name;
            && n in w.asides && n in w.origins && k.honest(w.pc.state)
            && (if n in w.held then w.origins[n] == w.asides[n].content else k.made(w.origins[n], w.asides[n].content) && w.held - {n} == w.held)
            && (w.pc.stage == ToTrim ==> n !in w.held && k.output(w.asides[n].content))
            && (w.pc.stage == ToInstall ==> n !in w.held && k.retained(w.origins[n], w.asides[n].content))
  {
    var n := w.pc.name;
    assert Survives(k, w.origins[n], n in w.held, Find(w.asides, n), Find(w.installed, n));
  }

  /** Redacting the log in hand into a new file detaches its writers. */
  lemma {:induction false} FinishRedacts(k: Claims, w: World, f: File)
    requires Inv(k, w) && w.pc.Finishing? && w.pc.name in w.origins && k.made(w.origins[w.pc.name], f.content) && k.output(f.content)
    ensures var n := w.pc.name; Inv(k, w.(asides := w.asides[n := f], held := w.held - {n}, pc := w.pc.(stage := ToTrim)))
  {
    ReplaceKeeps(k, w.origins, w.asides, w.held, w.installed, w.pc.name, f);
  }

  lemma {:induction false} FinishTrims(k: Claims, w: World, f: File)
    requires Inv(k, w) && w.pc.Finishing? && w.pc.stage == ToTrim
    requires k.made(w.origins[w.pc.name], f.content) && k.retained(w.origins[w.pc.name], f.content)
    ensures Inv(k, w.(asides := w.asides[w.pc.name := f], pc := w.pc.(stage := ToRemove)))
  {
    InHand(k, w);
    ReplaceKeeps(k, w.origins, w.asides, w.held, w.installed, w.pc.name, f);
  }

  lemma {:induction false} FinishInstalls(k: Claims, w: World)
    requires Inv(k, w) && w.pc.Finishing? && w.pc.stage == ToInstall && k.tail(w.asides[w.pc.name].content)
    ensures var n := w.pc.name;
            var text := w.asides[n].content;
            Inv(k, w.(rotated := Some(text), foreign := false, asides := w.asides - {n}, installed := w.installed[n := text], pc := AfterFinishing(w.pc)))
  {
    InstallKeeps(k, w.origins, w.asides, w.held, w.installed, w.pc.name);
  }

  lemma {:induction false} RenamedAside(k: Claims, w: World, name: nat, f: File)
    requires Inv(k, w) && name !in w.origins && !w.foreign
    ensures Inv(k, w.(active := None, asides := w.asides[name := f], held := w.held + {name}, origins := w.origins[name := f.content],
                      pc := RemovingRecord(name, w.record)))
  {
    AsideKeeps(k, w.origins, w.asides, w.held, w.installed, name, f);
  }

  lemma {:induction false} ScannedKeepsInv(k: Claims, w: World, f: File, m: Maintained, device: int, inode: int)
    requires Inv(k, w) && k.honest(m.record) && k.honest(m.record.(device := device, inode := inode))
    ensures Inv(k, Scanned(w, f, m, device, inode))
  {
  }

  /** Only the record, the active log or the point reached changes. */
  lemma {:induction false} PcMoves(k: Claims, w: World, v: World)
    requires Inv(k, w) && v == w.(record := v.record, active := v.active, pc := v.pc)
    requires k.honest(v.record) && PcOk(k, v.pc, v.origins, v.asides, v.held) && (Replacing(v.pc) ==> Replacing(w.pc))
    ensures Inv(k, v)
  {
  }

  lemma {:induction false} ForeignKeepsInv(k: Claims, w: World, text: Option<string>)
    requires Inv(k, w) && w.pc.Ready?
    ensures Inv(k, w.(rotated := text, foreign := true))
  {
  }

  /** Appending to a held log is no matter for the maintenance: the log in hand is redacted before anything relies on it. */
  lemma {:induction false} AppendKeepsInv(k: Claims, w: World, n: nat, raw: string)
    requires Inv(k, w) && n in w.held && n in w.asides && n in w.origins
    ensures Inv(k, w.(asides := w.asides[n := w.asides[n].(content := w.asides[n].content + raw)], origins := w.origins[n := w.origins[n] + raw]))
  {
    AppendKeeps(k, w.origins, w.asides, w.held, w.installed, n, raw);
  }

  // What the steps of the rotation keep.

  lemma {:induction false} RedactStage(rules: Rules, policy: Policy, w: World, device: int, inode: int)
    requires Inv(ClaimsOf(rules, policy), w) && w.pc.Finishing? && w.pc.stage == ToRedact
    ensures Inv(ClaimsOf(rules, policy), FinishStage(policy, w, WorkOf(rules, w).redacted, device, inode))
  {
    var k, n := ClaimsOf(rules, policy), w.pc.name;
    InHand(k, w);
    RedactsFrom(rules, policy, w.asides[n], w.pc.state, w.origins[n]);
    FinishRedacts(k, w, File(device, inode, WorkOf(rules, w).redacted));
  }

  lemma {:induction false} TrimStage(rules: Rules, policy: Policy, w: World, redacted: string, device: int, inode: int)
    requires Inv(ClaimsOf(rules, policy), w) && w.pc.Finishing? && w.pc.stage == ToTrim
    ensures Inv(ClaimsOf(rules, policy), FinishStage(policy, w, redacted, device, inode))
  {
    var k, n := ClaimsOf(rules, policy), w.pc.name;
    InHand(k, w);
    TrimRetains(rules, policy, w.origins[n], w.asides[n].content);
    FinishTrims(k, w, w.asides[n].(content := TrimTail(w.asides[n].content, policy.maxBytes)));
  }

  lemma {:induction false} RemoveStage(k: Claims, policy: Policy, w: World, redacted: string, device: int, inode: int)
    requires Inv(k, w) && w.pc.Finishing? && w.pc.stage == ToRemove
    ensures Inv(k, FinishStage(policy, w, redacted, device, inode))
  {
  }

  lemma {:induction false} InstallStage(rules: Rules, policy: Policy, w: World, redacted: string, device: int, inode: int)
    requires Inv(ClaimsOf(rules, policy), w) && w.pc.Finishing? && w.pc.stage == ToInstall
    ensures Inv(ClaimsOf(rules, policy), FinishStage(policy, w, redacted, device, inode))
  {
    var k, n := ClaimsOf(rules, policy), w.pc.name;
    InHand(k, w);
    RetainedIsTail(rules, policy, w.origins[n], w.asides[n].content);
    FinishInstalls(k, w);
  }

  lemma {:induction false} FinishKeepsInv(rules: Rules, policy: Policy, w: World, device: int, inode: int)
    requires Inv(ClaimsOf(rules, policy), w) && w.pc.Finishing?
    ensures Inv(ClaimsOf(rules, policy), FinishStage(policy, w, WorkOf(rules, w).redacted, device, inode))
  {
    var redacted := WorkOf(rules, w).redacted;
    match w.pc.stage {
      case ToRedact => RedactStage(rules, policy, w, device, inode);
      case ToTrim => TrimStage(rules, policy, w, redacted, device, inode);
      case ToRemove => RemoveStage(ClaimsOf(rules, policy), policy, w, redacted, device, inode);
      case ToInstall => InstallStage(rules, policy, w, redacted, device, inode);
    }
  }

  /** The actions that change neither a renamed-aside log nor path.1, nor read the active one. */
  lemma {:induction false} SmallActs(k: Claims, policy: Policy, w: World, work: Work, device: int, inode: int, name: nat)
    requires Inv(k, w) && k.honest(NoRecord)
    requires !w.pc.Finishing? && !w.pc.Redacting? && !w.pc.RedactingRotated? && !w.pc.Rotating?
    ensures Inv(k, ActWith(policy, w, work, device, inode, name))
  {
    PcMoves(k, w, ActWith(policy, w, work, device, inode, name));
  }

  lemma {:induction false} PassKeepsInv(k: Claims, policy: Policy, w: World, work: Work, device: int, inode: int, name: nat)
    requires Inv(k, w) && w.pc.RedactingRotated? && policy.maxFiles >= 1 && (w.rotated.Some? ==> k.tail(work.pass))
    ensures Inv(k, ActWith(policy, w, work, device, inode, name))
  {
  }

  /** The actions outside `finishRotation`, given what the scan and the pass over path.1 are. */
  lemma {:induction false} OtherActs(k: Claims, policy: Policy, w: World, work: Work, device: int, inode: int, name: nat)
    requires Inv(k, w) && !w.pc.Finishing? && policy.maxFiles >= 1 && k.honest(NoRecord)
    requires w.active.Some? ==> k.honest(work.scan.record) && k.honest(work.scan.record.(device := device, inode := inode))
    requires w.rotated.Some? ==> k.tail(work.pass)
    ensures Inv(k, ActWith(policy, w, work, device, inode, name))
  {
    match w.pc {
      case Redacting => if w.active.Some? { ScannedKeepsInv(k, w, w.active.value, work.scan, device, inode); }
      case Rotating => if w.active.Some? && name !in w.origins { RenamedAside(k, w, name, w.active.value); }
      case RedactingRotated => PassKeepsInv(k, policy, w, work, device, inode, name);
      case _ => SmallActs(k, policy, w, work, device, inode, name);
    }
  }

  lemma {:induction false} WorkClaims(rules: Rules, policy: Policy, w: World, device: int, inode: int)
    requires Inv(ClaimsOf(rules, policy), w)
    ensures var k, work := ClaimsOf(rules, policy), WorkOf(rules, w);
            && k.honest(NoRecord) && (w.rotated.Some? ==> k.tail(work.pass))
            && (w.active.Some? ==> k.honest(work.scan.record) && k.honest(work.scan.record.(device := device, inode := inode)))
  {
    NothingIsHonest(rules, policy);
    if w.active.Some? { ScanIsHonest(rules, policy, w.active.value, w.record, device, inode); }
    if w.rotated.Some? { PassIsTail(rules, policy, w.rotated.value); }
  }

  lemma {:induction false} ActKeepsInv(rules: Rules, policy: Policy, w: World, device: int, inode: int, name: nat)
    requires Inv(ClaimsOf(rules, policy), w) && policy.maxFiles >= 1
    ensures Inv(ClaimsOf(rules, policy), Act(rules, policy, w, device, inode, name))
  {
    if w.pc.Finishing? {
      FinishKeepsInv(rules, policy, w, device, inode);
    } else {
      WorkClaims(rules, policy, w, device, inode);
      OtherActs(ClaimsOf(rules, policy), policy, w, WorkOf(rules, w), device, inode, name);
    }
  }

  lemma {:induction false} FoundIsHonest(rules: Rules, policy: Policy, found: Record)
    requires found.rules != rules.fingerprint || found.prefix.None?
    ensures ClaimsOf(rules, policy).honest(found)
  {
  }

  /** What happens around a maintenance. */
  lemma {:induction false} OutsideKeepsInv(k: Claims, rules: Rules, policy: Policy, w: World, s: Step)
    requires Inv(k, w) && !s.Acts? && Enabled(rules, w, s) && (s.FindsRecord? ==> k.honest(s.found))
    ensures Inv(k, Next(rules, policy, w, s))
  {
    match s {
      case Appends(n, raw) => AppendKeepsInv(k, w, n, raw);
      case FindsRotated(text) => ForeignKeepsInv(k, w, text);
      case _ => PcMoves(k, w, Next(rules, policy, w, s));
    }
  }

  lemma {:induction false} StepKeepsInv(rules: Rules, policy: Policy, w: World, s: Step)
    requires Inv(ClaimsOf(rules, policy), w) && policy.maxFiles >= 1
    ensures Inv(ClaimsOf(rules, policy), Next(rules, policy, w, s))
  {
    if s.Acts? {
      ActKeepsInv(rules, policy, w, s.device, s.inode, s.name);
    } else if Enabled(rules, w, s) {
      if s.FindsRecord? { FoundIsHonest(rules, policy, s.found); }
      OutsideKeepsInv(ClaimsOf(rules, policy), rules, policy, w, s);
    }
  }

  /** In every run, killed at any points, everything above holds between any two steps. */
  lemma {:induction false} RunKeepsInv(rules: Rules, policy: Policy, steps: seq<Step>)
    requires policy.maxFiles >= 1
    ensures Inv(ClaimsOf(rules, policy), Run(rules, policy, Empty, steps))
  {
    if steps == [] {
      NothingIsHonest(rules, policy);
    } else {
      RunKeepsInv(rules, policy, steps[..|steps| - 1]);
      StepKeepsInv(rules, policy, Run(rules, policy, Empty, steps[..|steps| - 1]), steps[|steps| - 1]);
    }
  }

  /** In every run, a log renamed aside is still there, with everything its writers gave it while they held it, or was
      installed as path.1: the newest lines, within the size bound, of a text made by redacting all of that, with nothing
      trimmed before the first redaction. It was never dropped. */
  lemma {:induction false} RenamedLogSurvives(rules: Rules, policy: Policy, steps: seq<Step>, n: nat)
    requires policy.maxFiles >= 1
    ensures var w := Run(rules, policy, Empty, steps);
            n in w.origins ==> Survives(ClaimsOf(rules, policy), w.origins[n], n in w.held, Find(w.asides, n), Find(w.installed, n))
  {
    RunKeepsInv(rules, policy, steps);
  }

  /** Where the log goes in the step in which it leaves its name. */
  predicate BecomesRotated(k: Claims, w: World, next: World, n: nat)
    requires n in w.asides
  {
    n !in w.held && n in w.origins && next.rotated == Some(w.asides[n].content) && k.retained(w.origins[n], w.asides[n].content)
  }

  /** In every run, a renamed-aside log only ever leaves its name by becoming path.1, with the newest lines of the redaction of
      all it was given. */
  lemma {:induction false} LeavesOnlyAsRotated(rules: Rules, policy: Policy, steps: seq<Step>, s: Step, n: nat)
    requires policy.maxFiles >= 1 && n in Run(rules, policy, Empty, steps).asides
    ensures var w := Run(rules, policy, Empty, steps);
            var next := Next(rules, policy, w, s);
            n !in next.asides ==> BecomesRotated(ClaimsOf(rules, policy), w, next, n)
  {
    RunKeepsInv(rules, policy, steps);
    StepLeaves(ClaimsOf(rules, policy), rules, policy, Run(rules, policy, Empty, steps), s, n);
  }

  lemma {:induction false} StepLeaves(k: Claims, rules: Rules, policy: Policy, w: World, s: Step, n: nat)
    requires policy.maxFiles >= 1 && n in w.asides && PcOk(k, w.pc, w.origins, w.asides, w.held)
    ensures var next := Next(rules, policy, w, s);
            n !in next.asides ==> BecomesRotated(k, w, next, n)
  {
    if s.Acts? { ActLeaves(k, policy, w, WorkOf(rules, w), s.device, s.inode, s.name, n); }
  }

  lemma {:induction false} ActLeaves(k: Claims, policy: Policy, w: World, work: Work, device: int, inode: int, name: nat, n: nat)
    requires policy.maxFiles >= 1 && n in w.asides && PcOk(k, w.pc, w.origins, w.asides, w.held)
    ensures var next := ActWith(policy, w, work, device, inode, name);
            n !in next.asides ==> BecomesRotated(k, w, next, n)
  {
  }

  /** In every run path.1 holds nothing but redactor output, from a line boundary on, unless something else put it there; and
      whatever was there, that holds of it from the moment a rotation goes on to replace it. */
  lemma {:induction false} RotatedIsOutput(rules: Rules, policy: Policy, steps: seq<Step>)
    requires policy.maxFiles >= 1
    ensures var w := Run(rules, policy, Empty, steps);
            w.rotated.Some? && (Replacing(w.pc) || forall i :: 0 <= i < |steps| ==> !steps[i].FindsRotated?) ==> TailOfOutput(rules, w.rotated.value)
  {
    RunKeepsInv(rules, policy, steps);
    if forall i :: 0 <= i < |steps| ==> !steps[i].FindsRotated? { NeverForeign(rules, policy, steps); }
  }

  lemma {:induction false} NeverForeign(rules: Rules, policy: Policy, steps: seq<Step>)
    requires forall i :: 0 <= i < |steps| ==> !steps[i].FindsRotated?
    ensures !Run(rules, policy, Empty, steps).foreign
  {
    if steps != [] {
      var n := |steps| - 1;
      assert forall i :: 0 <= i < n ==> steps[..n][i] == steps[i];
      NeverForeign(rules, policy, steps[..n]);
      StaysOwn(rules, policy, Run(rules, policy, Empty, steps[..n]), steps[n]);
    }
  }

  lemma {:induction false} StaysOwn(rules: Rules, policy: Policy, w: World, s: Step)
    requires !s.FindsRotated? && !w.foreign
    ensures !Next(rules, policy, w, s).foreign
  {
    if s.Acts? { ActStaysOwn(policy, w, WorkOf(rules, w), s.device, s.inode, s.name); }
  }

  lemma {:induction false} ActStaysOwn(policy: Policy, w: World, work: Work, device: int, inode: int, name: nat)
    requires !w.foreign
    ensures !ActWith(policy, w, work, device, inode, name).foreign
  {
  }

  // Recovery never keeps the active log from being redacted.

  predicate InRecovery(pc: Pc) {
    pc.Recovering? || (pc.Finishing? && pc.recovering)
  }

  /** How many actions the recovery has before it, at most. */
  function ToRecover(pc: Pc): nat {
    match pc
    case Recovering(left) => 1 + 6 * |left|
    case Finishing(_, _, stage, left, true) =>
      1 + 6 * |left| + (match stage case ToRedact => 4 case ToTrim => 3 case ToRemove => 2 case ToInstall => 1)
    case _ => 0
  }

  lemma {:induction false} ActRecovers(policy: Policy, w: World, work: Work, device: int, inode: int, name: nat)
    requires InRecovery(w.pc)
    ensures var v := ActWith(policy, w, work, device, inode, name); (InRecovery(v.pc) || v.pc == Redacting) && ToRecover(v.pc) < ToRecover(w.pc)
  {
  }

  /** Unless it is killed, a maintenance that takes up interrupted rotations goes on to redact the active log, whether they can
      be finished or not: every action, failed or not, brings it nearer. */
  lemma {:induction false} RecoveryGoesOn(rules: Rules, policy: Policy, w: World, s: Step)
    requires InRecovery(w.pc) && s != Killed
    ensures var v := Next(rules, policy, w, s);
            && (InRecovery(v.pc) || v.pc == Redacting)
            && (if s.Acts? || s.Fails? then ToRecover(v.pc) < ToRecover(w.pc) else v.pc == w.pc)
  {
    if s.Acts? { ActRecovers(policy, w, WorkOf(rules, w), s.device, s.inode, s.name); }
  }

  /** The scan of the active log and the saving of its record are one maintenance of the log history. */
  lemma {:induction false} ScanIsMaintenance(rules: Rules, policy: Policy, w: World, device: int, inode: int, name: nat)
    requires w.pc == Redacting && w.active.Some?
    ensures var m := Maintenance(rules, LogDir(w.active, w.record), device, inode, true);
            var v := Next(rules, policy, w, Acts(device, inode, name));
            v.active == m.active && (if v.pc.Saving? then v.pc.next == m.record else v.pc == Checking && v.record == m.record)
  {
  }

  // What is not touched.

  /** A log is renamed only in a rotation, and a rotation starts only over a log above the bound. */
  ghost predicate OnlyOversized(policy: Policy, w: World, v: World, n: nat) {
    && (n in v.asides && n !in w.asides ==> w.pc == Rotating && w.active == Some(v.asides[n]))
    && (v.pc == Rotating && w.pc != Rotating ==> w.pc == RedactingRotated)
    && (v.pc == RedactingRotated && w.pc != RedactingRotated ==>
          w.pc == Checking && w.active.Some? && 0 < policy.maxBytes < |w.active.value.content|)
  }

  lemma {:induction false} ActOversized(policy: Policy, w: World, work: Work, device: int, inode: int, name: nat, n: nat)
    ensures OnlyOversized(policy, w, ActWith(policy, w, work, device, inode, name), n)
  {
  }

  lemma {:induction false} RotatesOnlyOversized(rules: Rules, policy: Policy, w: World, s: Step, n: nat)
    ensures OnlyOversized(policy, w, Next(rules, policy, w, s), n)
  {
    if s.Acts? { ActOversized(policy, w, WorkOf(rules, w), s.device, s.inode, s.name, n); }
  }

  lemma {:induction false} ActKeepsActive(policy: Policy, w: World, work: Work, device: int, inode: int, name: nat)
    requires w.active.Some? && policy.maxFiles >= 1 && w.pc != Emptying
    ensures var v, f := ActWith(policy, w, work, device, inode, name), w.active.value;
            || v.active == w.active
            || (w.pc == Redacting && v.active == Some(if work.scan.rewritten then File(device, inode, work.scan.content) else f))
            || (w.pc == Rotating && v.active == None && name in v.asides && v.asides[name] == f && name in v.origins && v.origins[name] == f.content)
  {
  }

  /** With retention, a maintenance takes nothing from the active log: a step leaves it, puts its redaction in its place, or
      renames it aside. */
  lemma {:induction false} ActiveKept(rules: Rules, policy: Policy, w: World, s: Step)
    requires !s.Writes? && w.active.Some? && policy.maxFiles >= 1 && w.pc != Emptying && Honest(rules, w.record)
    ensures var v, f := Next(rules, policy, w, s), w.active.value;
            || v.active == w.active
            || (w.pc == Redacting && v.active.Some? && v.active.value.content == RedactLog(rules, f, w.record, false).content)
            || (w.pc == Rotating && v.active == None && s.Acts? && s.name in v.asides && v.asides[s.name] == f
                && s.name in v.origins && v.origins[s.name] == f.content)
  {
    if s.Acts? {
      ActKeepsActive(policy, w, WorkOf(rules, w), s.device, s.inode, s.name);
      MaintenanceHonest(rules, w.active.value, w.record, false);
    }
  }

  ghost predicate RoomMade(policy: Policy, w: World) {
    policy.maxFiles == 1 && w.pc.Finishing? && w.pc.stage == ToInstall ==> w.rotated == None
  }

  lemma {:induction false} ActMakesRoom(policy: Policy, w: World, work: Work, device: int, inode: int, name: nat)
    requires RoomMade(policy, w)
    ensures RoomMade(policy, ActWith(policy, w, work, device, inode, name))
  {
  }

  lemma {:induction false} StepMakesRoom(rules: Rules, policy: Policy, w: World, s: Step)
    requires RoomMade(policy, w)
    ensures RoomMade(policy, Next(rules, policy, w, s))
  {
    if s.Acts? { ActMakesRoom(policy, w, WorkOf(rules, w), s.device, s.inode, s.name); }
  }

  /** With one retained log, the old path.1 is gone before the new one is moved there: there are never two. */
  lemma {:induction false} OldRemovedFirst(rules: Rules, policy: Policy, steps: seq<Step>)
    ensures RoomMade(policy, Run(rules, policy, Empty, steps))
    decreases |steps|
  {
    if steps != [] {
      var front := steps[..|steps| - 1];
      OldRemovedFirst(rules, policy, front);
      StepMakesRoom(rules, policy, Run(rules, policy, Empty, front), steps[|steps| - 1]);
    }
  }

  // Without retention.

  /** What is done next without retention, from the check on. */
  function Emptied(w: World): World {
    if w.pc.Checking? then w.(pc := RedactingRotated)
    else if w.pc.RedactingRotated? then w.(pc := Emptying)
    else w.(record := NoRecord, active := Some(File(0, 0, "")), pc := Ready)
  }

  lemma {:induction false} ActEmpties(policy: Policy, w: World, work: Work)
    requires policy.maxFiles == 0 && w.active.Some? && 0 < policy.maxBytes < |w.active.value.content|
    requires w.pc.Checking? || w.pc.RedactingRotated? || w.pc.Emptying?
    ensures ActWith(policy, w, work, 0, 0, 0) == Emptied(w)
  {
  }

  lemma {:induction false} Empties(rules: Rules, policy: Policy, w: World)
    requires policy.maxFiles == 0 && w.active.Some? && 0 < policy.maxBytes < |w.active.value.content|
    requires w.pc.Checking? || w.pc.RedactingRotated? || w.pc.Emptying?
    ensures Next(rules, policy, w, Acts(0, 0, 0)) == Emptied(w)
  {
    ActEmpties(policy, w, WorkOf(rules, w));
  }

  /** When nothing is retained, an oversized log is replaced by an empty one and its record goes; path.1 is left alone. */
  lemma {:induction false} OversizedEmptied(rules: Rules, policy: Policy, w: World)
    requires policy.maxFiles == 0 && w.pc == Checking && w.active.Some? && 0 < policy.maxBytes < |w.active.value.content|
    ensures var v := Acted(rules, policy, w, 3);
            v == w.(active := Some(File(0, 0, "")), record := NoRecord, pc := Ready)
  {
    var t, u := w.(pc := RedactingRotated), w.(pc := Emptying);
    Empties(rules, policy, w);
    OneActed(rules, policy, w, t, 2);
    Empties(rules, policy, t);
    OneActed(rules, policy, t, u, 1);
    Empties(rules, policy, u);
    OneActed(rules, policy, u, Emptied(u), 0);
  }

  lemma {:induction false} ActDrops(policy: Policy, w: World, work: Work)
    requires policy.maxFiles == 0 && w.pc.Finishing? && w.pc.name in w.asides
    ensures ActWith(policy, w, work, 0, 0, 0) == w.(asides := w.asides - {w.pc.name}, pc := AfterFinishing(w.pc))
  {
  }

  lemma {:induction false} Drops(rules: Rules, policy: Policy, w: World)
    requires policy.maxFiles == 0 && w.pc.Finishing? && w.pc.name in w.asides
    ensures Next(rules, policy, w, Acts(0, 0, 0)) == w.(asides := w.asides - {w.pc.name}, pc := AfterFinishing(w.pc))
  {
    ActDrops(policy, w, WorkOf(rules, w));
  }

  /** A leftover of a rotation under another policy is removed. */
  lemma {:induction false} LeftoverDropped(rules: Rules, policy: Policy, w: World, n: nat)
    requires policy.maxFiles == 0 && w.pc == Recovering([n]) && n in w.asides
    ensures Acted(rules, policy, w, 2) == w.(asides := w.asides - {n}, pc := Recovering([]))
  {
    TakesUp(rules, policy, w, n);
    var u := w.(pc := Finishing(n, NoRecord, ToRedact, [], true));
    OneActed(rules, policy, w, u, 1);
    Drops(rules, policy, u);
    OneActed(rules, policy, u, w.(asides := w.asides - {n}, pc := Recovering([])), 0);
  }

  // The case rotation is made for.

  lemma {:induction false} OneMore(rules: Rules, policy: Policy, steps: seq<Step>, w: World, s: Step)
    requires Run(rules, policy, Empty, steps) == w
    ensures Run(rules, policy, Empty, steps + [s]) == Next(rules, policy, w, s)
  {
    assert (steps + [s])[..|steps|] == steps;
  }

  lemma {:induction false} FirstScan(rules: Rules, f: File)
    ensures var m := RedactLog(rules, f, NoRecord, false); m.save && (!m.rewritten ==> m.content == f.content)
  {
    NoRecordHonest(rules);
    MaintenanceHonest(rules, f, NoRecord, false);
  }

  lemma {:induction false} ScannedContent(w: World, f: File, m: Maintained) returns (v: World)
    requires m.save && (!m.rewritten ==> m.content == f.content)
    ensures v == Scanned(w, f, m, 0, 0)
    ensures v == w.(active := v.active, pc := v.pc) && v.pc.Saving? && v.active.Some? && v.active.value.content == m.content
  {
    v := Scanned(w, f, m, 0, 0);
  }

  lemma {:induction false} ScanStep(rules: Rules, policy: Policy, w: World, f: File)
    requires w.pc == Redacting && w.active == Some(f)
    ensures Next(rules, policy, w, Acts(0, 0, 0)) == Scanned(w, f, RedactLog(rules, f, w.record, false), 0, 0)
  {
  }

  /** The scan of the active log, without a record of an earlier one. */
  lemma {:induction false} ScansActive(rules: Rules, policy: Policy, steps: seq<Step>, w: World, f: File) returns (v: World)
    requires w == Run(rules, policy, Empty, steps) && w.pc == Redacting && w.active == Some(f) && w.record == NoRecord
    ensures v == Run(rules, policy, Empty, steps + [Acts(0, 0, 0)]) && v == w.(active := v.active, pc := v.pc) && v.pc.Saving?
    ensures v.active.Some? && v.active.value.content == RedactLog(rules, f, NoRecord, false).content
  {
    OneMore(rules, policy, steps, w, Acts(0, 0, 0));
    ScanStep(rules, policy, w, f);
    FirstScan(rules, f);
    v := ScannedContent(w, f, RedactLog(rules, f, NoRecord, false));
  }

  lemma {:induction false} ReachesScan(rules: Rules, policy: Policy, f: File) returns (steps: seq<Step>)
    ensures Run(rules, policy, Empty, steps) == Empty.(active := Some(f), pc := Redacting)
  {
    var act := Acts(0, 0, 0);
    var w := Empty;
    steps := [];
    OneMore(rules, policy, steps, w, Writes(Some(f)));
    steps, w := steps + [Writes(Some(f))], w.(active := Some(f));
    OneMore(rules, policy, steps, w, Begins([]));
    steps, w := steps + [Begins([])], w.(pc := Recovering([]));
    OneMore(rules, policy, steps, w, act);
    steps := steps + [act];
  }

  lemma {:induction false} Saves(rules: Rules, policy: Policy, steps: seq<Step>, w: World)
    requires w == Run(rules, policy, Empty, steps) && w.pc.Saving?
    ensures Run(rules, policy, Empty, steps + [Acts(0, 0, 0)]) == w.(record := w.pc.next, pc := Checking)
  {
    OneMore(rules, policy, steps, w, Acts(0, 0, 0));
  }

  /** A maintenance of `f` up to the point where it has saved its record and looks at the size. */
  lemma {:induction false} ReachesChecking(rules: Rules, policy: Policy, f: File) returns (steps: seq<Step>, w: World)
    ensures w == Run(rules, policy, Empty, steps) && w.pc == Checking
    ensures w.active.Some? && w.active.value.content == RedactLog(rules, f, NoRecord, false).content
    ensures w.origins == map[]
  {
    steps := ReachesScan(rules, policy, f);
    w := Empty.(active := Some(f), pc := Redacting);
    var v := ScansActive(rules, policy, steps, w, f);
    steps := steps + [Acts(0, 0, 0)];
    Saves(rules, policy, steps, v);
    steps, w := steps + [Acts(0, 0, 0)], v.(record := v.pc.next, pc := Checking);
  }

  lemma {:induction false} StartsRotation(rules: Rules, policy: Policy, steps: seq<Step>, w: World)
    requires w == Run(rules, policy, Empty, steps) && w.pc == Checking && w.active.Some? && 0 < policy.maxBytes < |w.active.value.content|
    ensures Run(rules, policy, Empty, steps + [Acts(0, 0, 0)]) == w.(pc := RedactingRotated)
  {
    OneMore(rules, policy, steps, w, Acts(0, 0, 0));
  }

  lemma {:induction false} PassesRotated(rules: Rules, policy: Policy, steps: seq<Step>, w: World) returns (v: World)
    requires w == Run(rules, policy, Empty, steps) && w.pc == RedactingRotated && policy.maxFiles >= 1
    ensures v == Run(rules, policy, Empty, steps + [Acts(0, 0, 0)]) && v.pc == Rotating && v.active == w.active && v.origins == w.origins
  {
    OneMore(rules, policy, steps, w, Acts(0, 0, 0));
    v := Next(rules, policy, w, Acts(0, 0, 0));
  }

  lemma {:induction false} Renames(rules: Rules, policy: Policy, steps: seq<Step>, w: World, f: File)
    requires w == Run(rules, policy, Empty, steps) && w.pc == Rotating && w.active == Some(f) && 0 !in w.origins
    ensures Run(rules, policy, Empty, steps + [Acts(0, 0, 0)])
         == w.(active := None, asides := w.asides[0 := f], held := w.held + {0}, origins := w.origins[0 := f.content], pc := RemovingRecord(0, w.record))
  {
    OneMore(rules, policy, steps, w, Acts(0, 0, 0));
  }

  lemma {:induction false} AppendsLater(rules: Rules, policy: Policy, steps: seq<Step>, w: World, later: string)
    requires w == Run(rules, policy, Empty, steps) && 0 in w.asides && 0 in w.held && 0 in w.origins
    ensures var v := Run(rules, policy, Empty, steps + [Appends(0, later)]);
            && 0 in v.asides && 0 in v.held && 0 in v.origins
            && v.asides[0].content == w.asides[0].content + later && v.origins[0] == w.origins[0] + later
  {
    OneMore(rules, policy, steps, w, Appends(0, later));
  }

  lemma {:induction false} ReachesRename(rules: Rules, policy: Policy, before: seq<Step>, u: World) returns (steps: seq<Step>, w: World)
    requires u == Run(rules, policy, Empty, before) && u.pc == Checking && u.active.Some?
    requires 0 < policy.maxBytes < |u.active.value.content| && policy.maxFiles >= 1
    ensures w == Run(rules, policy, Empty, steps) && w.pc == Rotating && w.active == u.active && w.origins == u.origins
  {
    StartsRotation(rules, policy, before, u);
    steps := before + [Acts(0, 0, 0)];
    w := PassesRotated(rules, policy, steps, u.(pc := RedactingRotated));
    steps := steps + [Acts(0, 0, 0)];
  }

  /** From there: more is written, and the log is renamed. */
  lemma {:induction false} RenamesWith(rules: Rules, policy: Policy, before: seq<Step>, u: World, late: string) returns (steps: seq<Step>, w: World)
    requires u == Run(rules, policy, Empty, before) && u.pc == Checking && u.active.Some? && u.origins == map[] && policy.maxFiles >= 1
    requires 0 < policy.maxBytes < |u.active.value.content + late|
    ensures w == Run(rules, policy, Empty, steps) && 0 in w.asides && 0 in w.held && 0 in w.origins
    ensures w.asides[0].content == w.origins[0] == u.active.value.content + late
  {
    var f := u.active.value.(content := u.active.value.content + late);
    OneMore(rules, policy, before, u, Writes(Some(f)));
    steps, w := ReachesRename(rules, policy, before + [Writes(Some(f))], u.(active := Some(f)));
    Renames(rules, policy, steps, w, f);
    steps, w := steps + [Acts(0, 0, 0)], w.(active := None, asides := w.asides[0 := f], held := w.held + {0},
                                            origins := w.origins[0 := f.content], pc := RemovingRecord(0, w.record));
  }

  /** Whatever is appended to an oversized log after its scan, before the rename (`late`) or after it (`later`), is in the
      renamed log, behind what the scan wrote, when that log is redacted. */
  lemma {:induction false} LateTextReachesAside(rules: Rules, policy: Policy, f: File, late: string, later: string) returns (steps: seq<Step>)
    requires 0 < policy.maxBytes < |RedactLog(rules, f, NoRecord, false).content + late| && policy.maxFiles >= 1
    ensures var w := Run(rules, policy, Empty, steps);
            && 0 in w.asides && 0 in w.held && 0 in w.origins
            && w.asides[0].content == w.origins[0] == RedactLog(rules, f, NoRecord, false).content + late + later
  {
    var w;
    steps, w := ReachesChecking(rules, policy, f);
    steps, w := RenamesWith(rules, policy, steps, w, late);
    AppendsLater(rules, policy, steps, w, later);
    steps := steps + [Appends(0, later)];
  }

  // A rotation that is left alone comes to its end.

  /** The next `count` actions, with nothing in between. */
  function Acted(rules: Rules, policy: Policy, w: World, count: nat): World
    decreases count
  {
    if count == 0 then w else Acted(rules, policy, Next(rules, policy, w, Acts(0, 0, 0)), count - 1)
  }

  lemma {:induction false} WorkFinishes(policy: Policy, w: World, work: Work)
    requires policy.maxFiles >= 1 && w.pc.Finishing? && w.pc.name in w.asides
    ensures ActWith(policy, w, work, 0, 0, 0) == FinishStage(policy, w, work.redacted, 0, 0)
  {
  }

  lemma {:induction false} ActFinishes(rules: Rules, policy: Policy, w: World) returns (redacted: string)
    requires policy.maxFiles >= 1 && w.pc.Finishing? && w.pc.name in w.asides
    ensures redacted == RedactLog(rules, w.asides[w.pc.name], w.pc.state, true).content
    ensures Next(rules, policy, w, Acts(0, 0, 0)) == FinishStage(policy, w, redacted, 0, 0)
  {
    redacted := WorkOf(rules, w).redacted;
    WorkFinishes(policy, w, WorkOf(rules, w));
  }

  /** The four stages of `finishRotation`, one after the other. */
  lemma {:induction false} FourStages(policy: Policy, w: World, texts: seq<string>) returns (s1: World, s2: World, s3: World, s4: World)
    requires |texts| == 4 && policy.maxFiles >= 1 && w.pc.Finishing? && w.pc.stage == ToRedact && w.pc.name in w.asides
    ensures s1 == FinishStage(policy, w, texts[0], 0, 0) && s1.pc.Finishing? && s1.pc.name == w.pc.name && s1.pc.name in s1.asides
    ensures s2 == FinishStage(policy, s1, texts[1], 0, 0) && s2.pc.Finishing? && s2.pc.name == w.pc.name && s2.pc.name in s2.asides
    ensures s3 == FinishStage(policy, s2, texts[2], 0, 0) && s3.pc.Finishing? && s3.pc.name == w.pc.name && s3.pc.name in s3.asides
    ensures s4 == FinishStage(policy, s3, texts[3], 0, 0)
    ensures w.pc.name !in s4.asides && s4.pc == AfterFinishing(w.pc) && s4.active == w.active && s4.record == w.record
    ensures s4.rotated.Some? && NewestLines(texts[0], policy.maxBytes, s4.rotated.value)
  {
    s1 := FinishStage(policy, w, texts[0], 0, 0);
    s2 := FinishStage(policy, s1, texts[1], 0, 0);
    s3 := FinishStage(policy, s2, texts[2], 0, 0);
    s4 := FinishStage(policy, s3, texts[3], 0, 0);
  }

  lemma {:induction false} OneActed(rules: Rules, policy: Policy, w: World, v: World, count: nat)
    requires Next(rules, policy, w, Acts(0, 0, 0)) == v
    ensures Acted(rules, policy, w, count + 1) == Acted(rules, policy, v, count)
  {
  }

  lemma {:induction false} FinishesInHand(rules: Rules, policy: Policy, w: World) returns (v: World)
    requires policy.maxFiles >= 1 && w.pc.Finishing? && w.pc.stage == ToRedact && w.pc.name in w.asides
    ensures v == Acted(rules, policy, w, 4) && w.pc.name !in v.asides && v.pc == AfterFinishing(w.pc) && v.active == w.active && v.record == w.record
    ensures v.rotated.Some? && NewestLines(RedactLog(rules, w.asides[w.pc.name], w.pc.state, true).content, policy.maxBytes, v.rotated.value)
  {
    var t1 := ActFinishes(rules, policy, w);
    var s1, s2, s3, s4 := FourStages(policy, w, [t1, "", "", ""]);
    StageTexts(rules, policy, s1, "");
    StageTexts(rules, policy, s2, "");
    StageTexts(rules, policy, s3, "");
    OneActed(rules, policy, w, s1, 3);
    OneActed(rules, policy, s1, s2, 2);
    OneActed(rules, policy, s2, s3, 1);
    OneActed(rules, policy, s3, s4, 0);
    v := s4;
  }

  /** Only the first stage looks at the redacted text. */
  lemma {:induction false} StageTexts(rules: Rules, policy: Policy, w: World, text: string)
    requires policy.maxFiles >= 1 && w.pc.Finishing? && w.pc.stage != ToRedact && w.pc.name in w.asides
    ensures Next(rules, policy, w, Acts(0, 0, 0)) == FinishStage(policy, w, text, 0, 0)
  {
    var redacted := ActFinishes(rules, policy, w);
    SameStage(policy, w, redacted, text);
  }

  lemma {:induction false} SameStage(policy: Policy, w: World, a: string, b: string)
    requires w.pc.Finishing? && w.pc.stage != ToRedact && w.pc.name in w.asides
    ensures FinishStage(policy, w, a, 0, 0) == FinishStage(policy, w, b, 0, 0)
  {
  }

  lemma {:induction false} TakesUp(rules: Rules, policy: Policy, w: World, n: nat)
    requires w.pc == Recovering([n]) && n in w.asides
    ensures Next(rules, policy, w, Acts(0, 0, 0)) == w.(pc := Finishing(n, NoRecord, ToRedact, [], true))
  {
    assert [n][1..] == [];
  }

  /** Whatever a killed or failed rotation left behind, a maintenance that takes it up and is left alone makes it path.1: as many
      of the newest lines of its full redaction as the bound allows. */
  lemma {:induction false} RecoveryInstalls(rules: Rules, policy: Policy, w: World, n: nat)
    requires policy.maxFiles >= 1 && w.pc == Recovering([n]) && n in w.asides
    ensures var v := Acted(rules, policy, w, 5);
            && n !in v.asides && v.pc == Recovering([])
            && v.rotated.Some? && NewestLines(RedactLog(rules, w.asides[n], NoRecord, true).content, policy.maxBytes, v.rotated.value)
  {
    TakesUp(rules, policy, w, n);
    var u := w.(pc := Finishing(n, NoRecord, ToRedact, [], true));
    OneActed(rules, policy, w, u, 4);
    var v := FinishesInHand(rules, policy, u);
  }

  /** So does the rotation that renamed it; it leaves no record behind, and an active log. */
  lemma {:induction false} RotationInstalls(rules: Rules, policy: Policy, w: World)
    requires policy.maxFiles >= 1 && w.pc.RemovingRecord? && w.pc.name in w.asides
    ensures var v := Acted(rules, policy, w, 6);
            && w.pc.name !in v.asides && v.pc == Ready && v.record == NoRecord && v.active.Some? && (w.active.Some? ==> v.active == w.active)
            && v.rotated.Some? && NewestLines(RedactLog(rules, w.asides[w.pc.name], w.pc.state, true).content, policy.maxBytes, v.rotated.value)
  {
    RemovesRecord(rules, policy, w);
    var t := w.(record := NoRecord, pc := CreatingActive(w.pc.name, w.pc.state));
    OneActed(rules, policy, w, t, 5);
    CreatesActive(rules, policy, t);
    var u := Next(rules, policy, t, Acts(0, 0, 0));
    OneActed(rules, policy, t, u, 4);
    var v := FinishesInHand(rules, policy, u);
  }

  lemma {:induction false} RemovesRecord(rules: Rules, policy: Policy, w: World)
    requires w.pc.RemovingRecord?
    ensures Next(rules, policy, w, Acts(0, 0, 0)) == w.(record := NoRecord, pc := CreatingActive(w.pc.name, w.pc.state))
  {
  }

  lemma {:induction false} CreatesActive(rules: Rules, policy: Policy, w: World)
    requires w.pc.CreatingActive?
    ensures var u := Next(rules, policy, w, Acts(0, 0, 0));
            && u.pc == Finishing(w.pc.name, w.pc.state, ToRedact, [], false) && u.asides == w.asides && u.record == w.record
            && u.active.Some? && (w.active.Some? ==> u.active == w.active)
  {
  }
}
