/** The leaderboard's hub: the latest score and chaos flag of every session, and the ranked
    snapshot made of them. */
module Leaderboard {
  import opened Options
  import opened Sequences

  /** A score as it is published; the figures behind the total travel with it unread. */
  datatype CompositeScore = CompositeScore(sessionID: string, teamName: string, totalScore: real, computedAt: int)

  datatype LeaderboardEntry = LeaderboardEntry(rank: int, chaosActive: bool, score: CompositeScore)

  /** The two sections that change the hub's maps under its lock. */
  datatype Event = Upserted(score: CompositeScore) | ChaosSet(sessionID: string, active: bool)

  function LatestScore(events: seq<Event>, id: string): (r: Option<CompositeScore>)
    ensures r.Some? ==> r.value.sessionID == id
  {
    if events == [] then None
    else match events[|events| - 1] {
      case Upserted(s) => if s.sessionID == id then Some(s) else LatestScore(events[..|events| - 1], id)
      case ChaosSet(_, _) => LatestScore(events[..|events| - 1], id)
    }
  }

  function LatestChaos(events: seq<Event>, id: string): bool {
    if events == [] then false
    else match events[|events| - 1] {
      case ChaosSet(s, active) => if s == id then active else LatestChaos(events[..|events| - 1], id)
      case Upserted(_) => LatestChaos(events[..|events| - 1], id)
    }
  }

  /** Event i gives this score, and no later event gives its session another. */
  ghost predicate LastUpsert(events: seq<Event>, i: nat, s: CompositeScore) {
    i < |events| && events[i] == Upserted(s)
    && forall j :: i < j < |events| && events[j].Upserted? ==> events[j].score.sessionID != s.sessionID
  }

  /** Event i sets the flag of this session, and no later event does. */
  ghost predicate LastFlag(events: seq<Event>, i: nat, id: string, active: bool) {
    i < |events| && events[i] == ChaosSet(id, active)
    && forall j :: i < j < |events| && events[j].ChaosSet? ==> events[j].sessionID != id
  }

  lemma LastUpsertNext(events: seq<Event>, s: CompositeScore)
    requires events != []
    ensures var n := |events| - 1;
            (exists i: nat :: LastUpsert(events, i, s)) <==>
            events[n] == Upserted(s)
            || (!(events[n].Upserted? && events[n].score.sessionID == s.sessionID)
                && exists i: nat :: LastUpsert(events[..n], i, s))
  {
    var n := |events| - 1;
    var before := events[..n];
    if events[n] == Upserted(s) { assert LastUpsert(events, n, s); }
    if i: nat :| LastUpsert(before, i, s) {
      assert before[i] == events[i];
      if !(events[n].Upserted? && events[n].score.sessionID == s.sessionID) { assert LastUpsert(events, i, s); }
    }
    if i: nat :| LastUpsert(events, i, s) && i < n {
      assert forall j :: 0 <= j < n ==> before[j] == events[j];
      assert LastUpsert(before, i, s);
    }
  }

  lemma LastFlagNext(events: seq<Event>, id: string, active: bool)
    requires events != []
    ensures var n := |events| - 1;
            (exists i: nat :: LastFlag(events, i, id, active)) <==>
            events[n] == ChaosSet(id, active)
            || (!(events[n].ChaosSet? && events[n].sessionID == id)
                && exists i: nat :: LastFlag(events[..n], i, id, active))
  {
    var n := |events| - 1;
    var before := events[..n];
    if events[n] == ChaosSet(id, active) { assert LastFlag(events, n, id, active); }
    if i: nat :| LastFlag(before, i, id, active) {
      assert before[i] == events[i];
      if !(events[n].ChaosSet? && events[n].sessionID == id) { assert LastFlag(events, i, id, active); }
    }
    if i: nat :| LastFlag(events, i, id, active) && i < n {
      assert forall j :: 0 <= j < n ==> before[j] == events[j];
      assert LastFlag(before, i, id, active);
    }
  }

  /** The last write wins: a session's score is that of its last upsert, if it has one. */
  lemma {:induction false} LatestScoreIff(events: seq<Event>, s: CompositeScore)
    ensures LatestScore(events, s.sessionID) == Some(s) <==> exists i: nat :: LastUpsert(events, i, s)
  {
    if events == [] {
    } else {
      LatestScoreIff(events[..|events| - 1], s);
      LastUpsertNext(events, s);
    }
  }

  /** A session is flagged exactly when its flag was set and the last setting was on. */
  lemma {:induction false} LatestChaosIff(events: seq<Event>, id: string)
    ensures LatestChaos(events, id) <==> exists i: nat :: LastFlag(events, i, id, true)
  {
    if events == [] {
    } else {
      LatestChaosIff(events[..|events| - 1], id);
      LastFlagNext(events, id, true);
    }
  }

  /** The entry carries the last score and the last flag that its session was given. */
  ghost predicate Shown(e: LeaderboardEntry, events: seq<Event>) {
    LatestScore(events, e.score.sessionID) == Some(e.score)
    && e.chaosActive == LatestChaos(events, e.score.sessionID)
  }

  ghost predicate Listed(b: seq<LeaderboardEntry>, id: string) {
    exists k :: 0 <= k < |b| && b[k].score.sessionID == id
  }

  /** Exactly one up-to-date entry for every session that has a score. */
  ghost predicate Covers(b: seq<LeaderboardEntry>, events: seq<Event>) {
    (forall k :: 0 <= k < |b| ==> Shown(b[k], events))
    && (forall i, j :: 0 <= i < j < |b| ==> b[i].score.sessionID != b[j].score.sessionID)
    && forall id :: LatestScore(events, id).Some? ==> Listed(b, id)
  }

  ghost predicate Descending(b: seq<LeaderboardEntry>) {
    forall i, j :: 0 <= i < j < |b| ==> b[i].score.totalScore >= b[j].score.totalScore
  }

  /** What a snapshot must be after these events. */
  ghost predicate IsBoard(b: seq<LeaderboardEntry>, events: seq<Event>) {
    Covers(b, events) && Descending(b) && forall k :: 0 <= k < |b| ==> b[k].rank == k + 1
  }

  /** The sessions of the first k entries. */
  function Sessions(b: seq<LeaderboardEntry>, k: nat): set<string>
    requires k <= |b|
  {
    set i | 0 <= i < k :: b[i].score.sessionID
  }

  lemma {:induction false} SessionsCount(b: seq<LeaderboardEntry>, k: nat)
    requires k <= |b|
    requires forall i, j :: 0 <= i < j < |b| ==> b[i].score.sessionID != b[j].score.sessionID
    ensures |Sessions(b, k)| == k
  {
    if k == 0 {
    } else {
      SessionsCount(b, k - 1);
      SessionsNext(b, k - 1, k);
    }
  }

  lemma SessionsNext(b: seq<LeaderboardEntry>, j: nat, k: nat)
    requires k == j + 1 <= |b|
    requires forall i :: 0 <= i < j ==> b[i].score.sessionID != b[j].score.sessionID
    ensures Sessions(b, k) == Sessions(b, j) + {b[j].score.sessionID} && b[j].score.sessionID !in Sessions(b, j)
  {
  }

  /** Every session of one board is on any other, with the same score. */
  lemma AlsoOn(b: seq<LeaderboardEntry>, c: seq<LeaderboardEntry>, events: seq<Event>, i: nat)
    returns (j: nat)
    requires Covers(b, events) && Covers(c, events) && i < |c|
    ensures j < |b| && b[j].score == c[i].score
  {
    assert Shown(c[i], events);
    assert Listed(b, c[i].score.sessionID);
    j :| 0 <= j < |b| && b[j].score.sessionID == c[i].score.sessionID;
    assert Shown(b[j], events);
  }

  /** Where the entries of b from m on are below that of c at rank k, all the sessions of c
      down to that rank are among the first m of b. */
  lemma AboveOnBoth(b: seq<LeaderboardEntry>, c: seq<LeaderboardEntry>, events: seq<Event>,
                    k: nat, m: nat, id: string)
    requires Covers(b, events) && Covers(c, events) && Descending(c) && k < |c| && m <= |b|
    requires forall j :: m <= j < |b| ==> b[j].score.totalScore < c[k].score.totalScore
    requires id in Sessions(c, k + 1)
    ensures id in Sessions(b, m)
  {
    var i :| 0 <= i < k + 1 && c[i].score.sessionID == id;
    var j := AlsoOn(b, c, events, i);
    assert c[i].score.totalScore >= c[k].score.totalScore;
  }

  lemma EnoughAbove(b: seq<LeaderboardEntry>, c: seq<LeaderboardEntry>, events: seq<Event>,
                    k: nat, m: nat)
    requires Covers(b, events) && Covers(c, events) && Descending(c) && k < |c| && m <= |b|
    requires forall j :: m <= j < |b| ==> b[j].score.totalScore < c[k].score.totalScore
    ensures k < m
  {
    forall id | id in Sessions(c, k + 1) ensures id in Sessions(b, m) {
      AboveOnBoth(b, c, events, k, m, id);
    }
    SubsetSize(Sessions(c, k + 1), Sessions(b, m));
    SessionsCount(b, m);
    SessionsCount(c, k + 1);
  }

  /** The total at a rank of one board is not below that of any other. */
  lemma NotBelow(b: seq<LeaderboardEntry>, c: seq<LeaderboardEntry>, events: seq<Event>, k: nat)
    requires IsBoard(b, events) && IsBoard(c, events) && k < |c|
    ensures k < |b| && b[k].score.totalScore >= c[k].score.totalScore
  {
    EnoughAbove(b, c, events, k, |b|);
    if b[k].score.totalScore < c[k].score.totalScore {
      EnoughAbove(b, c, events, k, k);
    }
  }

  /** Whatever order the map was walked in and however ties fell, all snapshots of one history
      show the same total at every rank, and are the same when no two sessions tie. */
  lemma BoardIsUnique(b: seq<LeaderboardEntry>, c: seq<LeaderboardEntry>, events: seq<Event>)
    requires IsBoard(b, events) && IsBoard(c, events)
    ensures |b| == |c|
    ensures forall k :: 0 <= k < |b| ==> b[k].score.totalScore == c[k].score.totalScore
    ensures (forall i, j :: 0 <= i < j < |b| ==> b[i].score.totalScore != b[j].score.totalScore) ==> b == c
  {
    if |b| < |c| { NotBelow(b, c, events, |b|); }
    if |c| < |b| { NotBelow(c, b, events, |c|); }
    forall k | 0 <= k < |b| ensures b[k].score.totalScore == c[k].score.totalScore {
      NotBelow(b, c, events, k);
      NotBelow(c, b, events, k);
    }
    if forall i, j :: 0 <= i < j < |b| ==> b[i].score.totalScore != b[j].score.totalScore {
      forall k | 0 <= k < |b| ensures b[k] == c[k] {
        assert Shown(c[k], events) && Shown(b[k], events);
        assert Listed(b, c[k].score.sessionID);
        var j :| 0 <= j < |b| && b[j].score.sessionID == c[k].score.sessionID;
        assert Shown(b[j], events);
        assert b[j].score == c[k].score;
        assert j == k;
      }
    }
  }

  /** What a board shows, in terms of the writes: exactly the last scores written, one entry
      each, flagged exactly when the last flag set for the session is on. */
  lemma BoardShowsLastWrites(b: seq<LeaderboardEntry>, events: seq<Event>, s: CompositeScore)
    requires IsBoard(b, events)
    ensures (exists k :: 0 <= k < |b| && b[k].score == s) <==> exists i: nat :: LastUpsert(events, i, s)
    ensures forall k :: 0 <= k < |b| && b[k].score == s ==>
              (b[k].chaosActive <==> exists i: nat :: LastFlag(events, i, s.sessionID, true))
  {
    LatestScoreIff(events, s);
    LatestChaosIff(events, s.sessionID);
    if k :| 0 <= k < |b| && b[k].score == s { assert Shown(b[k], events); }
    if exists i: nat :: LastUpsert(events, i, s) {
      assert Listed(b, s.sessionID);
      var k :| 0 <= k < |b| && b[k].score.sessionID == s.sessionID;
      assert Shown(b[k], events);
    }
    assert forall k :: 0 <= k < |b| && b[k].score == s ==> Shown(b[k], events);
  }

  predicate Concerns(e: Event, id: string) {
    match e
    case Upserted(s) => s.sessionID == id
    case ChaosSet(s, _) => s == id
  }

  function About(events: seq<Event>, id: string): seq<Event> {
    if events == [] then []
    else
      About(events[..|events| - 1], id)
      + (if Concerns(events[|events| - 1], id) then [events[|events| - 1]] else [])
  }

  /** A session's entry depends on that session's own events only, in their own order. */
  lemma {:induction false} SessionsDoNotInterfere(events: seq<Event>, id: string)
    ensures LatestScore(events, id) == LatestScore(About(events, id), id)
    ensures LatestChaos(events, id) == LatestChaos(About(events, id), id)
  {
    if events == [] {
    } else {
      var before, last := events[..|events| - 1], events[|events| - 1];
      SessionsDoNotInterfere(before, id);
      if Concerns(last, id) {
        assert About(events, id)[..|About(before, id)|] == About(before, id);
      } else {
        assert About(events, id) == About(before, id);
      }
    }
  }

  /** A rearrangement of entries, all of rank 0, covers the same sessions. */
  lemma PermutationCovers(b: seq<LeaderboardEntry>, c: seq<LeaderboardEntry>, events: seq<Event>)
    requires Covers(b, events) && multiset(b) == multiset(c)
    requires forall k :: 0 <= k < |b| ==> b[k].rank == 0
    ensures Covers(c, events)
  {
    NoDuplicatesPermutation(b, c);
    forall k | 0 <= k < |c| ensures Shown(c[k], events) && c[k].rank == 0 {
      assert c[k] in b;
    }
    forall i, j | 0 <= i < j < |c| ensures c[i].score.sessionID != c[j].score.sessionID {
      assert Shown(c[i], events) && Shown(c[j], events);
    }
    forall id | LatestScore(events, id).Some? ensures Listed(c, id) {
      assert Listed(b, id);
      var k :| 0 <= k < |b| && b[k].score.sessionID == id;
      assert b[k] in c;
    }
  }

  lemma InsertKeepsDescending(s: seq<LeaderboardEntry>, e: LeaderboardEntry, k: nat)
    requires Descending(s) && k <= |s|
    requires k > 0 ==> e.score.totalScore <= s[k - 1].score.totalScore
    requires forall i :: k <= i < |s| ==> e.score.totalScore >= s[i].score.totalScore
    ensures Descending(s[..k] + [e] + s[k..])
  {
    var t := s[..k] + [e] + s[k..];
    forall i, j | 0 <= i < j < |t| ensures t[i].score.totalScore >= t[j].score.totalScore {
      if j == k && i < k - 1 { assert s[i].score.totalScore >= s[k - 1].score.totalScore; }
    }
  }

  method PlaceByTotal(s: seq<LeaderboardEntry>, e: LeaderboardEntry) returns (k: nat)
    ensures k <= |s|
    ensures k > 0 ==> e.score.totalScore <= s[k - 1].score.totalScore
    ensures forall i :: k <= i < |s| ==> e.score.totalScore >= s[i].score.totalScore
  {
    k := |s|;
    while k > 0 && e.score.totalScore > s[k - 1].score.totalScore
      invariant k <= |s|
      invariant forall i :: k <= i < |s| ==> e.score.totalScore >= s[i].score.totalScore
    {
      k := k - 1;
    }
  }

  /** sort.Slice by falling total. Of its result, callers know only that it is a rearrangement
      in that order; entries with equal totals may come in any order. */
  method SortByTotal(entries: seq<LeaderboardEntry>) returns (sorted: seq<LeaderboardEntry>)
    ensures multiset(sorted) == multiset(entries) && Descending(sorted)
  {
    sorted := [];
    for n := 0 to |entries|
      invariant multiset(sorted) == multiset(entries[..n]) && Descending(sorted)
    {
      var k := PlaceByTotal(sorted, entries[n]);
      PrefixStep(entries, n);
      InsertMultiset(sorted, entries[n], k);
      InsertKeepsDescending(sorted, entries[n], k);
      sorted := sorted[..k] + [entries[n]] + sorted[k..];
    }
    assert entries[..|entries|] == entries;
  }

  lemma ListedMore(b: seq<LeaderboardEntry>, e: LeaderboardEntry)
    ensures forall id :: Listed(b, id) || id == e.score.sessionID ==> Listed(b + [e], id)
  {
    forall id | Listed(b, id) || id == e.score.sessionID ensures Listed(b + [e], id) {
      if Listed(b, id) {
        var k :| 0 <= k < |b| && b[k].score.sessionID == id;
        assert (b + [e])[k].score.sessionID == id;
      } else {
        assert (b + [e])[|b|] == e;
      }
    }
  }

  /** A walk over the map so far: one up-to-date entry, unranked, for each session behind it. */
  ghost predicate Collected(entries: seq<LeaderboardEntry>, todo: set<string>, sessions: set<string>,
                            events: seq<Event>)
  {
    && (forall k :: 0 <= k < |entries| ==> Shown(entries[k], events) && entries[k].rank == 0)
    && (forall k :: 0 <= k < |entries| ==> entries[k].score.sessionID !in todo)
    && (forall i, j :: 0 <= i < j < |entries| ==> entries[i].score.sessionID != entries[j].score.sessionID)
    && forall id :: id in sessions && id !in todo ==> Listed(entries, id)
  }

  lemma CollectedNext(entries: seq<LeaderboardEntry>, todo: set<string>, sessions: set<string>, events: seq<Event>,
                      e: LeaderboardEntry)
    requires Collected(entries, todo, sessions, events)
    requires e.score.sessionID in todo && Shown(e, events) && e.rank == 0
    ensures Collected(entries + [e], todo - {e.score.sessionID}, sessions, events)
  {
    ListedMore(entries, e);
  }

  class Hub {
    var scores: map<string, CompositeScore>
    var chaosActive: map<string, bool>
    ghost var history: seq<Event>

    ghost predicate Valid()
      reads this
    {
      (forall id :: id in scores <==> LatestScore(history, id).Some?)
      && (forall id :: id in scores ==> LatestScore(history, id) == Some(scores[id]))
      && forall id :: LatestChaos(history, id) == (id in chaosActive && chaosActive[id])
    }

    constructor ()
      ensures Valid() && history == []
    {
      scores, chaosActive, history := map[], map[], [];
    }

    method Upsert(score: CompositeScore)
      requires Valid()
      modifies this
      ensures Valid() && history == old(history) + [Upserted(score)]
    {
      scores := scores[score.sessionID := score];
      assert (history + [Upserted(score)])[..|history|] == history;
      history := history + [Upserted(score)];
    }

    method SetChaos(sessionID: string, active: bool)
      requires Valid()
      modifies this
      ensures Valid() && history == old(history) + [ChaosSet(sessionID, active)]
    {
      chaosActive := chaosActive[sessionID := active];
      assert (history + [ChaosSet(sessionID, active)])[..|history|] == history;
      history := history + [ChaosSet(sessionID, active)];
    }

    /** The entries of a snapshot before sorting: the map is walked in any order. */
    method Collect() returns (entries: seq<LeaderboardEntry>)
      requires Valid()
      ensures Covers(entries, history)
      ensures forall k :: 0 <= k < |entries| ==> entries[k].rank == 0
    {
      entries := [];
      var todo := scores.Keys;
      while todo != {}
        invariant todo <= scores.Keys && Collected(entries, todo, scores.Keys, history)
        decreases |todo|
      {
        var id :| id in todo;
        var s := scores[id];
        var e := LeaderboardEntry(0, s.sessionID in chaosActive && chaosActive[s.sessionID], s);
        assert LatestScore(history, id) == Some(s) && s.sessionID == id;
        CollectedNext(entries, todo, scores.Keys, history, e);
        todo := todo - {id};
        entries := entries + [e];
      }
    }

    /** Last write wins: whatever came before, a snapshot is the board of the history. */
    method Snapshot() returns (entries: seq<LeaderboardEntry>)
      requires Valid()
      ensures IsBoard(entries, history)
    {
      var collected := Collect();
      var sorted := SortByTotal(collected);
      PermutationCovers(collected, sorted, history);
      entries := sorted;
      for i := 0 to |sorted|
        invariant |entries| == |sorted|
        invariant forall k :: 0 <= k < |sorted| ==>
          entries[k] == sorted[k].(rank := if k < i then k + 1 else sorted[k].rank)
      {
        entries := entries[i := entries[i].(rank := i + 1)];
      }
      RankingKeepsBoard(sorted, entries, history);
    }
  }

  lemma RankingKeepsBoard(b: seq<LeaderboardEntry>, c: seq<LeaderboardEntry>, events: seq<Event>)
    requires Covers(b, events) && Descending(b)
    requires |b| == |c| && forall k :: 0 <= k < |b| ==> c[k] == b[k].(rank := k + 1)
    ensures IsBoard(c, events)
  {
    forall k | 0 <= k < |c| ensures Shown(c[k], events) { assert Shown(b[k], events); }
    forall id | LatestScore(events, id).Some? ensures Listed(c, id) {
      assert Listed(b, id);
      var k :| 0 <= k < |b| && b[k].score.sessionID == id;
      assert c[k].score.sessionID == id;
    }
  }
}
