/** Validation of a worker's recovery report, and recognition of a repeated one. */
module RecoveryReport {
  import opened Common
  import opened RouteModel

  /** A status as it arrives on the wire: one of the three known ones, or any other number. */
  datatype WireStatus = Known(status: RecoveryStatus) | Unknown(code: int)

  datatype Entry = Nil | Result(session: SessionId, status: WireStatus)

  type Report = seq<Entry>

  datatype Checked =
    | Accepted(results: map<SessionId, RecoveryStatus>)
    | NotACandidate
    | Duplicate
    | InvalidStatus
    | Incomplete

  // ---------------------------------------------------------------- what a report should be

  predicate NamesOnce(report: Report) {
    forall i, j | 0 <= i < j < |report| && report[i].Result? && report[j].Result? ::
      report[i].session != report[j].session
  }

  /** The report names each candidate exactly once, names nothing else, and every status is known. */
  predicate Exact(candidates: map<SessionId, nat>, report: Report) {
    && NamesOnce(report)
    && (forall i | 0 <= i < |report| && report[i].Result? :: report[i].session in candidates && report[i].status.Known?)
    && (forall s | s in candidates :: Names(report, s))
  }

  predicate Names(report: Report, s: SessionId) {
    exists i | 0 <= i < |report| :: report[i].Result? && report[i].session == s
  }

  /** The report says exactly what the map says. */
  predicate Denotes(report: Report, results: map<SessionId, RecoveryStatus>) {
    && (forall i | 0 <= i < |report| && report[i].Result? ::
          report[i].session in results && report[i].status == Known(results[report[i].session]))
    && (forall s | s in results :: Names(report, s))
  }

  predicate NoNil(report: Report) { forall i | 0 <= i < |report| :: report[i].Result? }

  /** The report denotes the map, entry by entry and without repetition. */
  predicate Restates(report: Report, results: map<SessionId, RecoveryStatus>) {
    NoNil(report) && NamesOnce(report) && Denotes(report, results)
  }

  // ---------------------------------------------------------------- the two loops

  /** Check under way: the first i entries are well-formed, and results is what they say. */
  ghost predicate Reading(candidates: map<SessionId, nat>, report: Report, i: nat,
                          results: map<SessionId, RecoveryStatus>)
  {
    && i <= |report| && results.Keys <= candidates.Keys
    && (forall j | 0 <= j < i && report[j].Result? ::
          report[j].session in results && report[j].status == Known(results[report[j].session]))
    && (forall s | s in results :: exists j | 0 <= j < i :: report[j].Result? && report[j].session == s)
    && (forall j, k | 0 <= j < k < i && report[j].Result? && report[k].Result? ::
        report[j].session != report[k].session)
  }

  lemma ReadingStep(candidates: map<SessionId, nat>, report: Report, i: nat, results: map<SessionId, RecoveryStatus>)
    requires Reading(candidates, report, i, results) && i < |report| && report[i].Result?
    requires report[i].session in candidates && report[i].session !in results && report[i].status.Known?
    ensures Reading(candidates, report, i + 1, results[report[i].session := report[i].status.status])
  {
    var after := results[report[i].session := report[i].status.status];
    forall s | s in after
      ensures exists j | 0 <= j < i + 1 :: report[j].Result? && report[j].session == s
    {
      if s != report[i].session {
        var j :| 0 <= j < i && report[j].Result? && report[j].session == s;
      }
    }
  }

  lemma ReadingNil(candidates: map<SessionId, nat>, report: Report, i: nat, results: map<SessionId, RecoveryStatus>)
    requires Reading(candidates, report, i, results) && i < |report| && report[i].Nil?
    ensures Reading(candidates, report, i + 1, results)
  {
    forall s | s in results
      ensures exists j | 0 <= j < i + 1 :: report[j].Result? && report[j].session == s
    {
      var j :| 0 <= j < i && report[j].Result? && report[j].session == s;
    }
  }

  lemma ReadingRepeats(candidates: map<SessionId, nat>, report: Report, i: nat, results: map<SessionId, RecoveryStatus>)
    requires Reading(candidates, report, i, results) && i < |report| && report[i].Result? &&
        report[i].session in results
    ensures !NamesOnce(report)
  {
    var j :| 0 <= j < i && report[j].Result? && report[j].session == report[i].session;
  }

  /** At the end the report is exact if and only if every candidate has a result. */
  lemma ReadingEnds(candidates: map<SessionId, nat>, report: Report, results: map<SessionId, RecoveryStatus>)
    requires Reading(candidates, report, |report|, results)
    ensures NamesOnce(report) && Denotes(report, results)
    ensures |results| == |candidates| <==> Exact(candidates, report)
    ensures |results| == |candidates| ==> results.Keys == candidates.Keys
    ensures |results| != |candidates| ==> exists s | s in candidates :: !Names(report, s)
  {
    forall s | s in results
      ensures Names(report, s)
    {
      var j :| 0 <= j < |report| && report[j].Result? && report[j].session == s;
    }
    assert |results.Keys| == |results| && |candidates.Keys| == |candidates|;
    if |results| == |candidates| {
      SubsetOfSameSize(results.Keys, candidates.Keys);
    } else {
      assert results.Keys != candidates.Keys;
      var missing :| missing in candidates && missing !in results;
      assert !Names(report, missing);
    }
  }

  /** Accepts exactly the exact reports, and then returns what the report denotes. */
  method Check(candidates: map<SessionId, nat>, report: Report) returns (r: Checked)
    ensures r.Accepted? <==> Exact(candidates, report)
    ensures r.Accepted? ==> Denotes(report, r.results) && r.results.Keys == candidates.Keys
    ensures r.NotACandidate? ==> exists i | 0 <= i < |report| :: report[i].Result? && report[i].session !in candidates
    ensures r.Duplicate? ==> !NamesOnce(report)
    ensures r.InvalidStatus? ==> exists i | 0 <= i < |report| :: report[i].Result? && report[i].status.Unknown?
    ensures r.Incomplete? ==> NamesOnce(report) && exists s | s in candidates :: !Names(report, s)
  {
    var results: map<SessionId, RecoveryStatus> := map[];
    for i := 0 to |report|
      invariant Reading(candidates, report, i, results)
    {
      if report[i].Nil? {
        ReadingNil(candidates, report, i, results);
        continue;
      }
      var s := report[i].session;
      if s !in candidates {
        return NotACandidate;
      }
      if s in results {
        ReadingRepeats(candidates, report, i, results);
        return Duplicate;
      }
      if report[i].status.Unknown? {
        return InvalidStatus;
      }
      ReadingStep(candidates, report, i, results);
      results := results[s := report[i].status.status];
    }
    ReadingEnds(candidates, report, results);
    return if |results| == |candidates| then Accepted(results) else Incomplete;
  }

  /** Matches under way: the first i entries agree with the results, and seen are the sessions they name. */
  ghost predicate Agreeing(results: map<SessionId, RecoveryStatus>, report: Report, i: nat, seen: set<SessionId>) {
    && i <= |report| && |seen| == i && seen <= results.Keys
    && (forall j | 0 <= j < i ::
          && report[j].Result? && report[j].session in seen && report[j].session in results
          && report[j].status == Known(results[report[j].session]))
    && (forall j, k | 0 <= j < k < i :: report[j].session != report[k].session)
    && (forall s | s in seen :: exists j | 0 <= j < i :: report[j].session == s)
  }

  lemma AgreeingStep(results: map<SessionId, RecoveryStatus>, report: Report, i: nat, seen: set<SessionId>)
    requires Agreeing(results, report, i, seen) && i < |report| && report[i].Result?
    requires report[i].session in results && report[i].status == Known(results[report[i].session])
    requires report[i].session !in seen
    ensures Agreeing(results, report, i + 1, seen + {report[i].session})
  {
    forall s | s in seen + {report[i].session}
      ensures exists j | 0 <= j < i + 1 :: report[j].session == s
    {
      if s != report[i].session {
        var j :| 0 <= j < i && report[j].session == s;
      }
    }
  }

  lemma AgreeingRepeats(results: map<SessionId, RecoveryStatus>, report: Report, i: nat, seen: set<SessionId>)
    requires Agreeing(results, report, i, seen) && i < |report| && report[i].Result? && report[i].session in seen
    ensures !NamesOnce(report)
  {
    var j :| 0 <= j < i && report[j].session == report[i].session;
  }

  lemma AgreeingEnds(results: map<SessionId, RecoveryStatus>, report: Report, seen: set<SessionId>)
    requires Agreeing(results, report, |report|, seen) && |report| == |results|
    ensures Restates(report, results)
  {
    assert |results.Keys| == |results|;
    SubsetOfSameSize(seen, results.Keys);
    forall s | s in results
      ensures Names(report, s)
    {
      var j :| 0 <= j < |report| && report[j].session == s;
    }
  }

  /** matchesRecoveryResults: true exactly for a report that restates the stored results. */
  method Matches(results: map<SessionId, RecoveryStatus>, report: Report) returns (same: bool)
    ensures same <==> Restates(report, results)
  {
    if |report| != |results| {
      if Restates(report, results) {
        RestatingSize(report, results);
      }
      return false;
    }
    var seen: set<SessionId> := {};
    for i := 0 to |report|
      invariant Agreeing(results, report, i, seen)
    {
      if report[i].Nil? {
        return false;
      }
      var s := report[i].session;
      if s !in results || Known(results[s]) != report[i].status {
        return false;
      }
      if s in seen {
        AgreeingRepeats(results, report, i, seen);
        return false;
      }
      AgreeingStep(results, report, i, seen);
      seen := seen + {s};
    }
    AgreeingEnds(results, report, seen);
    return true;
  }

  /** A report that restates a map has as many entries as the map has keys. */
  lemma RestatingSize(report: Report, results: map<SessionId, RecoveryStatus>)
    requires Restates(report, results)
    ensures |report| == |results|
  {
    var named := NamedBy(report);
    assert named == results.Keys;
  }

  function NamedBy(report: Report): (names: set<SessionId>)
    requires NoNil(report) && NamesOnce(report)
    ensures |names| == |report|
    ensures forall s :: s in names <==> Names(report, s)
  {
    if report == [] then
      {}
    else
      var last := report[|report| - 1];
      var before := report[..|report| - 1];
      assert forall s :: Names(report, s) <==> Names(before, s) || s == last.session;
      NamedBy(before) + {last.session}
  }

  // ---------------------------------------------------------------- repetition

  /** The results a report denotes are unique. */
  lemma DenotationUnique(report: Report, a: map<SessionId, RecoveryStatus>, b: map<SessionId, RecoveryStatus>)
    requires Denotes(report, a) && Denotes(report, b)
    ensures a == b
  {
    forall s | s in a ensures s in b && a[s] == b[s] {
      assert Names(report, s);
    }
    forall s | s in b ensures s in a {
      assert Names(report, s);
    }
  }

  /** Once a report was accepted, a later one is acknowledged if and only if it is itself an exact report of the same
      results without nil entries; so the accepted one sent again is, if and only if it carries no nil entry. */
  lemma RepeatAcknowledged(candidates: map<SessionId, nat>, first: Report, again: Report,
                           results: map<SessionId, RecoveryStatus>)
    requires Exact(candidates, first) && Denotes(first, results)
    ensures Restates(again, results) <==> NoNil(again) && Exact(candidates, again) && Denotes(again, results)
    ensures Restates(first, results) <==> NoNil(first)
  {
    forall s | s in results ensures s in candidates {
      assert Names(first, s);
    }
    if Restates(again, results) {
      forall s | s in candidates ensures Names(again, s) {
        assert Names(first, s);
      }
    }
  }
}
