/** The search box of components/admin/AuditLogViewer.tsx: the logs whose action, details
    or user name contain the search term, ignoring case. */
module AuditLogs {
  import opened Common
  import opened Model
  import opened Workspaces

  /** The term, lower-cased, occurs in the lower-cased action, details or user. */
  predicate LogMatches(log: AuditLog, term: string)
  {
    Contains(Lower(log.action), Lower(term))
    || Contains(Lower(log.details), Lower(term))
    || Contains(Lower(log.user), Lower(term))
  }

  /** filteredLogs. */
  function FilteredLogs(logs: seq<AuditLog>, term: string): (r: seq<AuditLog>)
    ensures |r| <= |logs|
  {
    Keep(logs, (log: AuditLog) => LogMatches(log, term))
  }

  /** The shown logs are taken from the logs in their order, a log is shown exactly when
      it matches, and the empty term shows every log. */
  lemma FilteredLogsMeaning(logs: seq<AuditLog>, term: string)
    ensures IsSubsequence(FilteredLogs(logs, term), logs)
    ensures forall log :: log in FilteredLogs(logs, term) <==> log in logs && LogMatches(log, term)
    ensures forall log :: multiset(FilteredLogs(logs, term))[log] == if LogMatches(log, term) then multiset(logs)[log] else 0
    ensures term == "" ==> FilteredLogs(logs, term) == logs
  {
    KeepMeaning(logs, (log: AuditLog) => LogMatches(log, term));
    if term == "" {
      forall log | log in logs ensures LogMatches(log, term) {
        ContainsEmpty(Lower(log.action));
      }
    }
  }

  /** Two terms that differ only in case show the same logs; in particular the term and
      its lower-case form do. */
  lemma FilteredLogsIgnoreCase(logs: seq<AuditLog>, a: string, b: string)
    requires Lower(a) == Lower(b)
    ensures FilteredLogs(logs, a) == FilteredLogs(logs, b)
    ensures FilteredLogs(logs, Lower(a)) == FilteredLogs(logs, a)
  {
    KeepSame(logs, (log: AuditLog) => LogMatches(log, a), (log: AuditLog) => LogMatches(log, b));
    LowerIdempotent(a);
    KeepSame(logs, (log: AuditLog) => LogMatches(log, Lower(a)), (log: AuditLog) => LogMatches(log, a));
  }

  /** In a newest-first list, every log the search keeps after the head is no newer than
      the head. */
  lemma HeadNoOlder(logs: seq<AuditLog>, term: string, x: AuditLog)
    requires NewestFirst(logs) && logs != []
    requires x in FilteredLogs(logs[1..], term)
    ensures logs[0].timestamp >= x.timestamp
  {
    var rest := logs[1..];
    KeepOrder(rest, (log: AuditLog) => LogMatches(log, term));
    var k :| 0 <= k < |rest| && rest[k] == x;
    assert logs[k + 1] == x;
  }

  /** Newest-first order survives the search. */
  lemma {:induction false} FilteredLogsNewestFirst(logs: seq<AuditLog>, term: string)
    requires NewestFirst(logs)
    ensures NewestFirst(FilteredLogs(logs, term))
    decreases |logs|
  {
    if logs != [] {
      var p := (log: AuditLog) => LogMatches(log, term);
      var rest := logs[1..];
      assert NewestFirst(rest) by {
        forall i, j | 0 <= i < j < |rest| ensures rest[i].timestamp >= rest[j].timestamp {
          assert rest[i] == logs[i + 1] && rest[j] == logs[j + 1];
        }
      }
      FilteredLogsNewestFirst(rest, term);
      var tail := FilteredLogs(rest, term);
      if p(logs[0]) {
        assert FilteredLogs(logs, term) == [logs[0]] + tail;
        if tail != [] {
          HeadNoOlder(logs, term, tail[0]);
        }
        PrependKeepsNewestFirst(tail, logs[0]);
      } else {
        assert FilteredLogs(logs, term) == tail;
      }
    }
  }
}
