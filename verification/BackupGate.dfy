/** The backup gate (agent/tools/cloud_api.py): may a change run, given the cluster's backups? */
module BackupGate {
  import opened Prelude

  /** The string fields of one entry of the provider's list. */
  type Backup = map<string, string>

  datatype BackupVerdict = Proceed | NoBackups | NoTimestamp | TooOld

  /** The fields that may hold the completion time, the first one filled in counting. */
  const FIELDS: seq<string> := ["as_of_time", "completedTime", "completed_at", "finishedTime"]

  /** The field is present and not empty, so that Python's `or` stops at it. */
  predicate Filled(b: Backup, field: string) {
    field in b && b[field] != ""
  }

  /** The chain of `or`s over the fields. */
  function CompletionField(b: Backup): Option<string> {
    if Filled(b, "as_of_time") then Some(b["as_of_time"])
    else if Filled(b, "completedTime") then Some(b["completedTime"])
    else if Filled(b, "completed_at") then Some(b["completed_at"])
    else if Filled(b, "finishedTime") then Some(b["finishedTime"])
    else None
  }

  /** A backup's completion time in hours, when it has one that parses; `parse` is `datetime.fromisoformat`. */
  function Completed(b: Backup, parse: string -> Option<real>): Option<real> {
    match CompletionField(b)
    case None => None
    case Some(raw) => parse(raw)
  }

  /** The first of the fields that is present and not empty reads as `t`. */
  ghost predicate CompletedAt(b: Backup, parse: string -> Option<real>, t: real) {
    exists i | 0 <= i < |FIELDS| ::
      && FIELDS[i] in b && b[FIELDS[i]] != "" && parse(b[FIELDS[i]]) == Some(t)
      && forall j | 0 <= j < i :: FIELDS[j] !in b || b[FIELDS[j]] == ""
  }

  lemma CompletedIff(b: Backup, parse: string -> Option<real>, t: real)
    ensures CompletedAt(b, parse, t) <==> Completed(b, parse) == Some(t)
  {
    var f := FIELDS;
    assert f[0] == "as_of_time" && f[1] == "completedTime" && f[2] == "completed_at" && f[3] == "finishedTime";
    if Completed(b, parse) == Some(t) {
      var i := if Filled(b, f[0]) then 0 else if Filled(b, f[1]) then 1 else if Filled(b, f[2]) then 2 else 3;
      assert FIELDS[i] in b && b[FIELDS[i]] != "" && parse(b[FIELDS[i]]) == Some(t);
    }
  }

  /** Some backup completed, readably, inside the window. */
  ghost predicate Covered(backups: seq<Backup>, parse: string -> Option<real>, now: real, window: real) {
    exists b, t :: b in backups && CompletedAt(b, parse, t) && now - t <= window
  }

  /** Proceeds exactly when some backup with a readable completion time is inside the window. */
  method DecideBackupGate(backups: seq<Backup>, parse: string -> Option<real>, now: real, window: real)
    returns (verdict: BackupVerdict)
    ensures verdict == Proceed <==> Covered(backups, parse, now, window)
    ensures verdict == NoBackups <==> backups == []
    ensures verdict == NoTimestamp <==> backups != [] && forall b, t | b in backups :: !CompletedAt(b, parse, t)
  {
    forall b, t ensures CompletedAt(b, parse, t) <==> Completed(b, parse) == Some(t) {
      CompletedIff(b, parse, t);
    }
    hide CompletedAt, Completed;
    if |backups| == 0 {
      return NoBackups;
    }
    var newest: Option<real> := None;
    for i := 0 to |backups|
      invariant newest.None? <==> forall b | b in backups[..i] :: Completed(b, parse).None?
      invariant newest.Some? ==> exists b | b in backups[..i] :: Completed(b, parse) == newest
      invariant newest.Some? ==>
        forall b | b in backups[..i] && Completed(b, parse).Some? :: Completed(b, parse).value <= newest.value
    {
      var ts := Completed(backups[i], parse);
      assert backups[..i + 1] == backups[..i] + [backups[i]];
      if ts.Some? && (newest.None? || ts.value > newest.value) {
        assert backups[i] in backups[..i + 1];
        newest := ts;
      }
    }
    assert backups[..|backups|] == backups;
    if newest.None? {
      return NoTimestamp;
    }
    ghost var b :| b in backups && Completed(b, parse) == newest;
    assert CompletedAt(b, parse, newest.value);
    if now - newest.value > window {
      return TooOld;
    }
    verdict := Proceed;
  }
}
