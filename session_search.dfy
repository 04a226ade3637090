/**
 * The session list of `pages/session_user.py`: the listed sessions sorted by
 * timestamp, newest first, then narrowed by the search box.
 */
module SessionSearch {
  import opened Strings
  import opened Ordering
  import opened LogStore

  function ByTimestamp(s: SessionInfo): string { s.timestamp }

  /** `sorted(sessions, key=lambda x: x["timestamp"], reverse=True)`. */
  function SortByTimestamp(sessions: seq<SessionInfo>): (r: seq<SessionInfo>)
    ensures SortedDescBy(r, ByTimestamp)
    ensures multiset(r) == multiset(sessions)
  {
    SortDescBy(sessions, ByTimestamp)
  }

  /** The text a session number is searched in: `f"session {n}".lower()`. */
  function SessionLabel(n: int): string {
    Lower("session " + IntToString(n))
  }

  /** The lower-cased query occurs in the session's label or in its lower-cased timestamp. */
  predicate Matches(s: SessionInfo, q: string) {
    Contains(SessionLabel(s.sessionNo), q) || Contains(Lower(s.timestamp), q)
  }

  /** The list comprehension: the sessions that match q, in the order given. */
  function FilterSessions(sessions: seq<SessionInfo>, q: string): (r: seq<SessionInfo>)
    ensures |r| <= |sessions|
    ensures forall x :: x in r <==> x in sessions && Matches(x, q)
  {
    if sessions == [] then []
    else (if Matches(sessions[0], q) then [sessions[0]] else []) + FilterSessions(sessions[1..], q)
  }

  /** The filter keeps the order of the list it narrows. */
  lemma {:induction false} FilterIsSubsequence(sessions: seq<SessionInfo>, q: string)
    ensures IsSubsequence(FilterSessions(sessions, q), sessions)
    decreases |sessions|
  {
    if sessions != [] {
      FilterIsSubsequence(sessions[1..], q);
      var r := FilterSessions(sessions, q);
      if Matches(sessions[0], q) {
        assert r[0] == sessions[0] && r[1..] == FilterSessions(sessions[1..], q);
      } else {
        assert r == FilterSessions(sessions[1..], q);
      }
    }
  }

  /** Filtering twice with the same query gives the list filtering once gives. */
  lemma {:induction false} FilterIdempotent(sessions: seq<SessionInfo>, q: string)
    ensures FilterSessions(FilterSessions(sessions, q), q) == FilterSessions(sessions, q)
    decreases |sessions|
  {
    if sessions != [] {
      FilterIdempotent(sessions[1..], q);
      var rest := FilterSessions(sessions[1..], q);
      if Matches(sessions[0], q) {
        var r := [sessions[0]] + rest;
        assert r[0] == sessions[0] && r[1..] == rest;
      } else {
        assert FilterSessions(sessions, q) == rest;
      }
    }
  }

  /** The empty query matches every session, so the `if search_query` guard changes nothing. */
  lemma {:induction false} EmptyQueryMatchesAll(sessions: seq<SessionInfo>)
    ensures FilterSessions(sessions, "") == sessions
    decreases |sessions|
  {
    if sessions != [] {
      ContainsEmpty(SessionLabel(sessions[0].sessionNo));
      EmptyQueryMatchesAll(sessions[1..]);
      assert sessions == [sessions[0]] + sessions[1..];
    }
  }

  /** A subsequence of a descending list is descending. */
  lemma {:induction false} SubsequenceKeepsOrder(a: seq<SessionInfo>, b: seq<SessionInfo>)
    requires IsSubsequence(a, b) && SortedDescBy(b, ByTimestamp)
    ensures SortedDescBy(a, ByTimestamp)
    ensures forall x :: x in a ==> x in b
    decreases |b|
  {
    if a != [] && b != [] {
      assert SortedDescBy(b[1..], ByTimestamp) by {
        forall i, j | 0 <= i < j < |b[1..]| ensures !LexLess(b[1..][i].timestamp, b[1..][j].timestamp) {
          assert b[1..][i] == b[i + 1] && b[1..][j] == b[j + 1];
        }
      }
      if a[0] == b[0] && IsSubsequence(a[1..], b[1..]) {
        SubsequenceKeepsOrder(a[1..], b[1..]);
        forall j | 0 < j < |a| ensures !LexLess(a[0].timestamp, a[j].timestamp) {
          assert a[j] == a[1..][j - 1] && a[j] in a[1..];
          assert a[j] in b[1..];
          var k :| 0 <= k < |b[1..]| && b[1..][k] == a[j];
          assert b[k + 1] == a[j];
        }
        forall i, j | 0 <= i < j < |a| ensures !LexLess(a[i].timestamp, a[j].timestamp) {
          if i > 0 {
            assert a[i] == a[1..][i - 1] && a[j] == a[1..][j - 1];
          }
        }
        forall x | x in a ensures x in b {
          if x != a[0] {
            assert x in a[1..];
          }
        }
      } else {
        SubsequenceKeepsOrder(a, b[1..]);
      }
    }
  }

  /**
   * The list the page shows: all sessions newest first, narrowed to those
   * matching the lower-cased query when the query is not empty.
   */
  function Search(sessions: seq<SessionInfo>, query: string): (r: seq<SessionInfo>)
    ensures query == [] ==> r == SortByTimestamp(sessions)
    ensures forall x :: x in r <==> x in sessions && (query == [] || Matches(x, Lower(query)))
    ensures IsSubsequence(r, SortByTimestamp(sessions))
    ensures SortedDescBy(r, ByTimestamp)
  {
    var sorted := SortByTimestamp(sessions);
    assert forall x :: x in sorted <==> x in sessions by {
      forall x ensures x in sorted <==> x in sessions {
        assert x in sorted <==> x in multiset(sorted);
      }
    }
    if query == [] then
      IsSubsequenceSelf(sorted);
      sorted
    else
      var r := FilterSessions(sorted, Lower(query));
      FilterIsSubsequence(sorted, Lower(query));
      SubsequenceKeepsOrder(r, sorted);
      r
  }

  /** Every list is a subsequence of itself. */
  lemma {:induction false} IsSubsequenceSelf(s: seq<SessionInfo>)
    ensures IsSubsequence(s, s)
    decreases |s|
  {
    if s != [] {
      IsSubsequenceSelf(s[1..]);
    }
  }

  /** The number is matched as text: the query "session 3" also finds session 31. */
  lemma QueryMatchesLongerNumber(s: SessionInfo)
    requires s.sessionNo == 31
    ensures Matches(s, "session 3")
  {
    var text := SessionLabel(31);
    assert IntToString(31) == "31";
    assert text == "session 31";
    assert StartsWith(text, "session 3");
  }
}
