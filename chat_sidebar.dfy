/** The sidebar's session search: `chatSessions.filter(session =>
    session.title.toLowerCase().includes(searchQuery.toLowerCase()))`. Each session's relative
    time uses the same `formatTime` as the context panel (module RelativeTime). */
module ChatSidebar {
  import Seqs
  import opened Text

  /** A saved conversation as listed in the sidebar; `timestamp` is in milliseconds since the epoch. */
  datatype ChatSession = ChatSession(id: string, title: string, timestamp: int, isPinned: bool, messageCount: nat)

  /** The session's title contains the query, ignoring the case of ASCII letters. */
  predicate Matches(query: string, session: ChatSession) {
    Contains(Lower(session.title), Lower(query))
  }

  /** `filteredSessions`: the sessions whose title matches the query, in their original order. */
  function FilterSessions(sessions: seq<ChatSession>, query: string): (r: seq<ChatSession>)
    ensures Seqs.IsSubsequence(r, sessions)
    ensures forall i :: 0 <= i < |r| ==> Matches(query, r[i])
    ensures forall i :: 0 <= i < |sessions| && Matches(query, sessions[i]) ==> sessions[i] in r
  {
    Seqs.Filter(sessions, s => Matches(query, s))
  }

  /** A session is shown exactly when its lower-cased title contains the lower-cased query as a
      contiguous substring. */
  lemma ShownIff(sessions: seq<ChatSession>, query: string, s: ChatSession)
    requires s in sessions
    ensures s in FilterSessions(sessions, query)
        <==> Includes(Lower(s.title), Lower(query))
  {
    var r := FilterSessions(sessions, query);
    if s in r {
      var k :| 0 <= k < |r| && r[k] == s;
      assert Matches(query, r[k]);
    }
    var j :| 0 <= j < |sessions| && sessions[j] == s;
    if Matches(query, s) {
      assert sessions[j] in r;
    }
  }

  /** An empty search box shows every session, in order. */
  lemma EmptyQueryKeepsAll(sessions: seq<ChatSession>)
    ensures FilterSessions(sessions, "") == sessions
  {
    forall i | 0 <= i < |sessions| ensures Matches("", sessions[i]) {
      ContainsEmpty(Lower(sessions[i].title));
    }
    Seqs.FilterKeepsAll(sessions, s => Matches("", s));
  }

  /** Queries that differ only in the case of their letters show the same sessions. */
  lemma CaseInsensitive(sessions: seq<ChatSession>, q1: string, q2: string)
    requires SameUpToCase(q1, q2)
    ensures FilterSessions(sessions, q1) == FilterSessions(sessions, q2)
  {
    LowerEqualIff(q1, q2);
    Seqs.FilterCongruent(sessions, s => Matches(q1, s), s => Matches(q2, s));
  }

  /** How many sessions the search shows. */
  lemma FilteredCount(sessions: seq<ChatSession>, query: string)
    ensures |FilterSessions(sessions, query)| == Seqs.CountIf(sessions, s => Matches(query, s))
  {
  }
}
