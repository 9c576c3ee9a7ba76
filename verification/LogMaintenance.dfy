/** The active log and its record as internal/ansible/log_policy.go replaces them. */
module LogMaintenance {
  import opened Outcomes
  import opened Redaction
  import opened LogScan
  import opened LogHistory
  import LogAppend

  /** `redactLog`: scans from where a trusted record leaves off. */
  method RedactOnce(rules: Rules, f: File, rec: Record, rewrite: bool) returns (m: Maintained)
    ensures m == RedactLog(rules, f, rec, rewrite)
  {
    var trusted := Trusted(rules, rec, f);
    if trusted && !rewrite && rec.offset + rec.tailLength == |f.content| { return Maintained(f.content, false, rec, false); }
    var start := StartRecord(rules, rec, f);
    var next, changed, written, digested := RedactRange(rules, f.content, start);
    ghost var scan := ScanOf(rules, f.content, start);
    LogAppend.Associates(f.content[..start.offset], scan.whole, scan.last);
    var saved := next.(prefix := Some(Sha256(f.content[..start.offset] + digested)));
    assert saved == NextRecord(f.content, start, scan);
    if !rewrite && !changed { return Maintained(f.content, false, saved, true); }
    return Maintained(f.content[..start.offset] + written, true, saved, true);
  }

  class LogDirectory {
    var active: Option<File>
    var record: Record

    function Now(): LogDir
      reads this
    {
      LogDir(active, record)
    }

    /** Redacts the lines added to the active log: replaces it only when a line changed, and then saves the record.
        `device` and `inode` identify the new file. */
    method RedactNewLines(rules: Rules, device: int, inode: int)
      modifies this
      ensures Now() == Maintenance(rules, old(Now()), device, inode, true)
    {
      if active == None { return; }
      var m := RedactOnce(rules, active.value, record, false);
      if m.rewritten { active := Some(File(device, inode, m.content)); }
      if m.save { record := if m.rewritten then m.record.(device := device, inode := inode) else m.record; }
    }
  }
}
