/**
 * Read-only queries over the audit log: by action, by user, and the most
 * recent entries, each ordered newest first.
 */
module AuditLogRepository {
  import opened AuditLoggerService

  predicate NewestFirst(s: seq<AuditLogEntry>) {
    forall i, j :: 0 <= i < j < |s| ==> s[j].timestamp <= s[i].timestamp
  }

  /** Places `e` before the first entry that is not newer than it. */
  function Insert(e: AuditLogEntry, s: seq<AuditLogEntry>): (r: seq<AuditLogEntry>)
    requires NewestFirst(s)
    ensures NewestFirst(r)
    ensures multiset(r) == multiset(s) + multiset{e}
  {
    if s == [] || s[0].timestamp <= e.timestamp then
      PrependNewest(e, s);
      [e] + s
    else
      var rest := Insert(e, s[1..]);
      assert s == [s[0]] + s[1..];
      forall x | x in rest
        ensures x.timestamp <= s[0].timestamp
      {
        assert x in multiset(rest);
        if x != e {
          assert x in multiset(s[1..]);
          var j :| 0 <= j < |s[1..]| && s[1..][j] == x;
          assert s[j + 1] == x;
        }
      }
      PrependNewest(s[0], rest);
      [s[0]] + rest
  }

  /** An entry at least as new as everything in a newest-first list may go in front of it. */
  lemma PrependNewest(x: AuditLogEntry, s: seq<AuditLogEntry>)
    requires NewestFirst(s)
    requires forall y :: y in s ==> y.timestamp <= x.timestamp
    ensures NewestFirst([x] + s)
  {
    forall i, j | 0 <= i < j < |[x] + s|
      ensures ([x] + s)[j].timestamp <= ([x] + s)[i].timestamp
    {
      assert ([x] + s)[j] == s[j - 1];
      if i > 0 {
        assert ([x] + s)[i] == s[i - 1];
      } else {
        assert s[j - 1] in s;
      }
    }
  }

  /** `ORDER BY timestamp DESC`: the same entries, newest first (ties in a fixed order). */
  function OrderByTimestampDesc(s: seq<AuditLogEntry>): (r: seq<AuditLogEntry>)
    ensures NewestFirst(r)
    ensures multiset(r) == multiset(s)
  {
    if s == [] then []
    else
      assert s == [s[0]] + s[1..];
      Insert(s[0], OrderByTimestampDesc(s[1..]))
  }

  /** `WHERE`: the entries satisfying `keep`, each as often as in `s`. */
  function Where(s: seq<AuditLogEntry>, keep: AuditLogEntry -> bool): (r: seq<AuditLogEntry>)
    ensures forall e :: multiset(r)[e] == if keep(e) then multiset(s)[e] else 0
  {
    if s == [] then []
    else
      assert s == [s[0]] + s[1..];
      (if keep(s[0]) then [s[0]] else []) + Where(s[1..], keep)
  }

  /** The entries recording `action`, newest first. */
  function FindByAction(log: seq<AuditLogEntry>, action: string): (r: seq<AuditLogEntry>)
    ensures NewestFirst(r)
    ensures forall e :: multiset(r)[e] == if e.action == action then multiset(log)[e] else 0
  {
    OrderByTimestampDesc(Where(log, (e: AuditLogEntry) => e.action == action))
  }

  /** The entries attributed to the user with id `userId`, newest first. */
  function FindByUser(log: seq<AuditLogEntry>, userId: int): (r: seq<AuditLogEntry>)
    ensures NewestFirst(r)
    ensures forall e :: multiset(r)[e] == if e.user.Some? && e.user.value == userId then multiset(log)[e] else 0
  {
    OrderByTimestampDesc(Where(log, (e: AuditLogEntry) => e.user.Some? && e.user.value == userId))
  }

  /** When every recorded user id is positive, as database ids are, a query for an id below one finds nothing. */
  lemma NonPositiveUserHasNoLogs(log: seq<AuditLogEntry>, userId: int)
    requires forall i :: 0 <= i < |log| && log[i].user.Some? ==> log[i].user.value > 0
    requires userId <= 0
    ensures FindByUser(log, userId) == []
  {
    var r := FindByUser(log, userId);
    forall e: AuditLogEntry | e.user.Some? && e.user.value == userId
      ensures multiset(r)[e] == 0
    {
      assert e !in log;
    }
    assert multiset(r) == multiset{};
    assert |multiset(r)| == |r|;
  }

  /** Cutting a newest-first list leaves nothing in the tail newer than anything in the head. */
  lemma {:induction false} CutKeepsNewest(s: seq<AuditLogEntry>, k: nat)
    requires NewestFirst(s) && k <= |s|
    ensures multiset(s[..k]) <= multiset(s)
    ensures multiset(s) - multiset(s[..k]) == multiset(s[k..])
    ensures forall e, f :: e in s[..k] && f in s[k..] ==> f.timestamp <= e.timestamp
  {
    assert s == s[..k] + s[k..];
    forall e, f | e in s[..k] && f in s[k..]
      ensures f.timestamp <= e.timestamp
    {
      var i :| 0 <= i < k && s[i] == e;
      var j :| 0 <= j < |s| - k && s[k..][j] == f;
      assert s[k + j] == f;
    }
  }

  /** At most `limit` entries, newest first, and no entry left out is newer than one returned. */
  function FindRecentLogs(log: seq<AuditLogEntry>, limit: nat): (r: seq<AuditLogEntry>)
    ensures |r| == if limit < |log| then limit else |log|
    ensures NewestFirst(r)
    ensures multiset(r) <= multiset(log)
    ensures forall e, f :: e in r && f in multiset(log) - multiset(r) ==> f.timestamp <= e.timestamp
  {
    var sorted := OrderByTimestampDesc(log);
    var k := if limit < |log| then limit else |log|;
    SameLength(sorted, log);
    CutKeepsNewest(sorted, k);
    sorted[..k]
  }

  lemma SameLength(a: seq<AuditLogEntry>, b: seq<AuditLogEntry>)
    requires multiset(a) == multiset(b)
    ensures |a| == |b|
  {
    assert |multiset(a)| == |a| && |multiset(b)| == |b|;
  }
}
