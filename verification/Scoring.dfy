/** What telemetry keeps of a session: metrics are folded into one state per session. */
module Scoring {
  import opened Sequences

  datatype RawMetric = RawMetric(sessionId: string, teamName: string, archetype: string,
                                 appRttNs: int, kernelRttNs: int, correct: bool,
                                 fillPrice: real, fillQty: int, activeBots: int)

  datatype Session = Session(teamName: string, orderCount: int, correctFills: int, totalFills: int,
                             maxActiveBots: int, archetypeCounts: map<string, int>,
                             app: seq<int>, kernel: seq<int>,  // values given to the two histograms
                             scoreHistory: seq<real>,
                             chaosStartNs: int, chaosEndNs: int, baselineP99Ns: real, chaosP99Ns: real)

  const NEW_SESSION := Session("", 0, 0, 0, 0, map[], [], [], [], 0, 0, 0.0, 0.0)

  function GetOrCreate(sessions: map<string, Session>, id: string): Session {
    if id in sessions then sessions[id] else NEW_SESSION
  }

  /** One metric of the locked loop of Handle. */
  function Record(s: Session, m: RawMetric): Session {
    var filled := m.fillPrice > 0.0 || m.fillQty > 0;
    s.(teamName := if m.teamName != "" && s.teamName == "" then m.teamName else s.teamName,
       app := if m.appRttNs > 0 then s.app + [m.appRttNs] else s.app,
       kernel := if m.kernelRttNs > 0 then s.kernel + [m.kernelRttNs] else s.kernel,
       totalFills := s.totalFills + (if filled then 1 else 0),
       correctFills := s.correctFills + (if filled && m.correct then 1 else 0),
       maxActiveBots := if m.activeBots > s.maxActiveBots then m.activeBots else s.maxActiveBots,
       archetypeCounts := if m.archetype != "" then Bumped(s.archetypeCounts, m.archetype) else s.archetypeCounts,
       orderCount := s.orderCount + 1)
  }

  function Bumped(counts: map<string, int>, key: string): map<string, int> {
    counts[key := (if key in counts then counts[key] else 0) + 1]
  }

  function RecordAll(sessions: map<string, Session>, ms: seq<RawMetric>): map<string, Session>
    decreases |ms|
  {
    if ms == [] then sessions
    else
      var id := ms[0].sessionId;
      RecordAll(sessions[id := Record(GetOrCreate(sessions, id), ms[0])], ms[1..])
  }

  /** What a chaos event does to its session; p99 is the percentile read at that moment. */
  function Chaos(s: Session, eventType: string, timestampNs: int, p99: real): Session {
    if eventType == "chaos_start" then s.(chaosStartNs := timestampNs, baselineP99Ns := p99)
    else if eventType == "chaos_end" then s.(chaosEndNs := timestampNs, chaosP99Ns := p99)
    else s
  }

  // ---------------------------------------------------------------- batches and sessions

  lemma {:induction false} RecordAllConcat(sessions: map<string, Session>, a: seq<RawMetric>, b: seq<RawMetric>)
    ensures RecordAll(sessions, a + b) == RecordAll(RecordAll(sessions, a), b)
    decreases |a|
  {
    if a == [] {
      assert a + b == b;
    } else {
      assert (a + b)[1..] == a[1..] + b;
      var id := a[0].sessionId;
      RecordAllConcat(sessions[id := Record(GetOrCreate(sessions, id), a[0])], a[1..], b);
    }
  }

  /** The metrics of one session, in order. */
  function SubStream(ms: seq<RawMetric>, id: string): seq<RawMetric> {
    if ms == [] then []
    else if ms[0].sessionId == id then [ms[0]] + SubStream(ms[1..], id)
    else SubStream(ms[1..], id)
  }

  function Folded(s: Session, ms: seq<RawMetric>): Session
    decreases |ms|
  {
    if ms == [] then s else Folded(Record(s, ms[0]), ms[1..])
  }

  /** A session's state depends on its own metrics only. */
  lemma {:induction false} SessionsAreIndependent(sessions: map<string, Session>, ms: seq<RawMetric>, id: string)
    ensures GetOrCreate(RecordAll(sessions, ms), id) == Folded(GetOrCreate(sessions, id), SubStream(ms, id))
    ensures id in RecordAll(sessions, ms) <==> id in sessions || SubStream(ms, id) != []
    decreases |ms|
  {
    if ms == [] {
    } else {
      var k := ms[0].sessionId;
      SessionsAreIndependent(sessions[k := Record(GetOrCreate(sessions, k), ms[0])], ms[1..], id);
      if k == id { assert SubStream(ms, id)[1..] == SubStream(ms[1..], id); }
    }
  }

  lemma {:induction false} SubStreamConcat(a: seq<RawMetric>, b: seq<RawMetric>, id: string)
    ensures SubStream(a + b, id) == SubStream(a, id) + SubStream(b, id)
  {
    if a == [] {
      assert a + b == b && [] + SubStream(b, id) == SubStream(b, id);
    } else {
      assert (a + b)[1..] == a[1..] + b;
      SubStreamConcat(a[1..], b, id);
    }
  }

  lemma {:induction false} FoldedConcat(s: Session, a: seq<RawMetric>, b: seq<RawMetric>)
    ensures Folded(s, a + b) == Folded(Folded(s, a), b)
    decreases |a|
  {
    if a == [] {
      assert a + b == b;
    } else {
      assert (a + b)[1..] == a[1..] + b;
      FoldedConcat(Record(s, a[0]), a[1..], b);
    }
  }

  /** A record of the kernel probe as it is handed to the engine: unsigned 64-bit to signed. */
  function KernelMetric(id: string, rttNs: nat): RawMetric {
    RawMetric(id, "", "", 0, AsInt64(rttNs), false, 0.0, 0, 0)
  }

  function AsInt64(x: nat): int {
    var low := x % 0x1_0000_0000_0000_0000;
    if low >= 0x8000_0000_0000_0000 then low - 0x1_0000_0000_0000_0000 else low
  }

  /** The fields that only metrics of the bots touch. */
  function BotPart(s: Session): Session {
    NEW_SESSION.(teamName := s.teamName, correctFills := s.correctFills, totalFills := s.totalFills,
                 maxActiveBots := s.maxActiveBots, archetypeCounts := s.archetypeCounts, app := s.app)
  }

  /** The fields that metrics do not touch. */
  function OtherPart(s: Session): Session {
    NEW_SESSION.(scoreHistory := s.scoreHistory, chaosStartNs := s.chaosStartNs, chaosEndNs := s.chaosEndNs,
                 baselineP99Ns := s.baselineP99Ns, chaosP99Ns := s.chaosP99Ns)
  }

  lemma {:induction false} FoldedBotPart(s: Session, t: Session, ms: seq<RawMetric>)
    requires BotPart(s) == BotPart(t)
    ensures BotPart(Folded(s, ms)) == BotPart(Folded(t, ms))
    decreases |ms|
  {
    if ms == [] {
    } else {
      FoldedBotPart(Record(s, ms[0]), Record(t, ms[0]), ms[1..]);
    }
  }

  lemma {:induction false} FoldedOtherPart(s: Session, ms: seq<RawMetric>)
    ensures OtherPart(Folded(s, ms)) == OtherPart(s)
    decreases |ms|
  {
    if ms == [] {
    } else {
      FoldedOtherPart(Record(s, ms[0]), ms[1..]);
    }
  }

  lemma KernelKeepsBotPart(s: Session, id: string, rttNs: nat)
    requires s.maxActiveBots >= 0
    ensures BotPart(Record(s, KernelMetric(id, rttNs))) == BotPart(s)
  {
  }

  // ---------------------------------------------------------------- what a session holds

  function Count(ms: seq<RawMetric>, p: RawMetric -> bool): nat {
    if ms == [] then 0 else Count(ms[..|ms| - 1], p) + (if p(ms[|ms| - 1]) then 1 else 0)
  }

  function Positive(xs: seq<int>): seq<int> {
    if xs == [] then []
    else Positive(xs[..|xs| - 1]) + (if xs[|xs| - 1] > 0 then [xs[|xs| - 1]] else [])
  }

  function AppTimes(ms: seq<RawMetric>): (ts: seq<int>)
    ensures |ts| == |ms|
  {
    seq(|ms|, i requires 0 <= i < |ms| => ms[i].appRttNs)
  }

  function KernelTimes(ms: seq<RawMetric>): (ts: seq<int>)
    ensures |ts| == |ms|
  {
    seq(|ms|, i requires 0 <= i < |ms| => ms[i].kernelRttNs)
  }

  predicate Filled(m: RawMetric) { m.fillPrice > 0.0 || m.fillQty > 0 }
  predicate FilledCorrectly(m: RawMetric) { Filled(m) && m.correct }
  function By(archetype: string): RawMetric -> bool { (m: RawMetric) => m.archetype == archetype }

  /** The first team name given, empty when none was. */
  ghost predicate FirstName(name: string, ms: seq<RawMetric>) {
    if name == "" then forall i :: 0 <= i < |ms| ==> ms[i].teamName == ""
    else exists i :: 0 <= i < |ms| && ms[i].teamName == name && forall j :: 0 <= j < i ==> ms[j].teamName == ""
  }

  /** The largest bot count reported, at least 0. */
  ghost predicate LargestCount(n: int, ms: seq<RawMetric>) {
    (n == 0 || exists i :: 0 <= i < |ms| && ms[i].activeBots == n)
    && n >= 0 && forall i :: 0 <= i < |ms| ==> ms[i].activeBots <= n
  }

  ghost predicate ArchetypesCounted(counts: map<string, int>, ms: seq<RawMetric>) {
    "" !in counts
    && forall a :: a != "" ==> (if a in counts then counts[a] else 0) == Count(ms, By(a))
  }

  /** The bots' part of a session that received these metrics, one clause per field. */
  ghost predicate BotSummary(s: Session, ms: seq<RawMetric>) {
    && s.totalFills == Count(ms, Filled) && s.correctFills == Count(ms, FilledCorrectly)
    && s.app == Positive(AppTimes(ms))
    && FirstName(s.teamName, ms) && LargestCount(s.maxActiveBots, ms)
    && ArchetypesCounted(s.archetypeCounts, ms)
  }

  /** The two fields that records of the kernel probe touch as well. */
  ghost predicate Traffic(s: Session, ms: seq<RawMetric>) {
    s.orderCount == |ms| && s.kernel == Positive(KernelTimes(ms))
  }

  ghost predicate Summary(s: Session, ms: seq<RawMetric>) {
    BotSummary(s, ms) && Traffic(s, ms)
  }

  lemma NameRecorded(name: string, ms: seq<RawMetric>, m: RawMetric)
    requires FirstName(name, ms)
    ensures FirstName(if m.teamName != "" && name == "" then m.teamName else name, ms + [m])
  {
    var all := ms + [m];
    assert all[|ms|] == m;
    if name != "" {
      var i :| 0 <= i < |ms| && ms[i].teamName == name && forall j :: 0 <= j < i ==> ms[j].teamName == "";
      assert all[i] == ms[i];
    }
  }

  lemma LargestRecorded(n: int, ms: seq<RawMetric>, m: RawMetric)
    requires LargestCount(n, ms)
    ensures LargestCount(if m.activeBots > n then m.activeBots else n, ms + [m])
  {
    var all := ms + [m];
    assert all[|ms|] == m;
    if n != 0 {
      var i :| 0 <= i < |ms| && ms[i].activeBots == n;
      assert all[i] == ms[i];
    }
  }

  lemma CountRecorded(ms: seq<RawMetric>, m: RawMetric, p: RawMetric -> bool)
    ensures Count(ms + [m], p) == Count(ms, p) + (if p(m) then 1 else 0)
  {
    assert (ms + [m])[..|ms|] == ms;
  }

  lemma PositiveRecorded(xs: seq<int>, x: int)
    ensures Positive(xs + [x]) == Positive(xs) + (if x > 0 then [x] else [])
  {
    assert (xs + [x])[..|xs|] == xs;
  }

  lemma TimesRecorded(ms: seq<RawMetric>, m: RawMetric)
    ensures AppTimes(ms + [m]) == AppTimes(ms) + [m.appRttNs]
    ensures KernelTimes(ms + [m]) == KernelTimes(ms) + [m.kernelRttNs]
  {
  }

  lemma ArchetypesRecorded(counts: map<string, int>, ms: seq<RawMetric>, m: RawMetric)
    requires ArchetypesCounted(counts, ms)
    ensures ArchetypesCounted(if m.archetype != "" then Bumped(counts, m.archetype) else counts, ms + [m])
  {
    var counts' := if m.archetype != "" then Bumped(counts, m.archetype) else counts;
    forall a | a != "" ensures (if a in counts' then counts'[a] else 0) == Count(ms + [m], By(a)) {
      CountRecorded(ms, m, By(a));
    }
  }

  lemma SummaryRecorded(s: Session, ms: seq<RawMetric>, m: RawMetric, all: seq<RawMetric>)
    requires Summary(s, ms) && all == ms + [m]
    ensures Summary(Record(s, m), all)
  {
    CountRecorded(ms, m, Filled);
    CountRecorded(ms, m, FilledCorrectly);
    TimesRecorded(ms, m);
    PositiveRecorded(AppTimes(ms), m.appRttNs);
    PositiveRecorded(KernelTimes(ms), m.kernelRttNs);
    assert s.app + [] == s.app && s.kernel + [] == s.kernel;
    NameRecorded(s.teamName, ms, m);
    LargestRecorded(s.maxActiveBots, ms, m);
    ArchetypesRecorded(s.archetypeCounts, ms, m);
  }

  lemma {:induction false} FoldedAppend(s: Session, ms: seq<RawMetric>, m: RawMetric)
    ensures Folded(s, ms + [m]) == Record(Folded(s, ms), m)
    decreases |ms|
  {
    if ms == [] {
      assert [m][1..] == [] && [] + [m] == [m];
    } else {
      assert (ms + [m])[1..] == ms[1..] + [m];
      FoldedAppend(Record(s, ms[0]), ms[1..], m);
    }
  }

  lemma FoldedLast(s: Session, ms: seq<RawMetric>)
    requires ms != []
    ensures Folded(s, ms) == Record(Folded(s, ms[..|ms| - 1]), ms[|ms| - 1])
  {
    SplitLast(ms);
    FoldedAppend(s, ms[..|ms| - 1], ms[|ms| - 1]);
  }

  lemma SummaryLast(earlier: Session, ms: seq<RawMetric>)
    requires ms != [] && Summary(earlier, ms[..|ms| - 1])
    ensures Summary(Record(earlier, ms[|ms| - 1]), ms)
  {
    SplitLast(ms);
    SummaryRecorded(earlier, ms[..|ms| - 1], ms[|ms| - 1], ms);
  }

  /** Folding metrics into a new session makes it their summary. */
  lemma {:induction false} FoldedIsSummary(ms: seq<RawMetric>) returns (s: Session)
    ensures s == Folded(NEW_SESSION, ms) && Summary(s, ms)
  {
    if ms == [] {
      s := NEW_SESSION;
    } else {
      var earlier := FoldedIsSummary(ms[..|ms| - 1]);
      FoldedLast(NEW_SESSION, ms);
      SummaryLast(earlier, ms);
      s := Record(earlier, ms[|ms| - 1]);
    }
  }

  // ---------------------------------------------------------------- in terms of the metrics

  /** The places of a list at which p holds. */
  ghost function Places(ms: seq<RawMetric>, p: RawMetric -> bool): (places: set<int>)
    ensures forall i :: i in places <==> 0 <= i < |ms| && p(ms[i])
  {
    set i | 0 <= i < |ms| && p(ms[i])
  }

  lemma {:induction false} CountIs(ms: seq<RawMetric>, p: RawMetric -> bool)
    ensures Count(ms, p) == |Places(ms, p)|
  {
    if ms == [] {
      assert Places(ms, p) == {};
    } else {
      var n := |ms| - 1;
      CountIs(ms[..n], p);
      assert Places(ms, p) == Places(ms[..n], p) + (if p(ms[n]) then {n} else {});
    }
  }

  lemma {:induction false} PositiveIs(xs: seq<int>, t: int)
    ensures multiset(Positive(xs))[t] == if t > 0 then multiset(xs)[t] else 0
  {
    if xs == [] {
    } else {
      var n := |xs| - 1;
      PositiveIs(xs[..n], t);
      assert multiset(xs) == multiset(xs[..n]) + multiset{xs[n]} by {
        assert xs == xs[..n] + [xs[n]];
      }
      var last := if xs[n] > 0 then [xs[n]] else [];
      assert multiset(Positive(xs)) == multiset(Positive(xs[..n])) + multiset(last);
    }
  }

  /** Fills and correct fills of a session, told from its metrics: a metric is a fill when it
      has a price or a quantity. */
  lemma FillsAre(ms: seq<RawMetric>) returns (fills: set<int>)
    ensures fills == (set i | 0 <= i < |ms| && (ms[i].fillPrice > 0.0 || ms[i].fillQty > 0))
    ensures Folded(NEW_SESSION, ms).totalFills == |fills|
    ensures Folded(NEW_SESSION, ms).correctFills == |set i | i in fills && ms[i].correct|
  {
    var s := FoldedIsSummary(ms);
    fills := Places(ms, Filled);
    CountIs(ms, Filled);
    CountIs(ms, FilledCorrectly);
    assert Places(ms, FilledCorrectly) == set i | i in fills && ms[i].correct;
  }

  /** The orders, and of each archetype its number; the empty archetype is not counted. */
  lemma OrdersAre(ms: seq<RawMetric>, archetype: string)
    ensures Folded(NEW_SESSION, ms).orderCount == |ms|
    ensures var counts, n := Folded(NEW_SESSION, ms).archetypeCounts,
                             |set i | 0 <= i < |ms| && ms[i].archetype == archetype|;
            (archetype in counts ==> archetype != "" && counts[archetype] == n)
            && (archetype !in counts ==> archetype == "" || n == 0)
  {
    var s := FoldedIsSummary(ms);
    CountIs(ms, By(archetype));
    assert Places(ms, By(archetype)) == set i | 0 <= i < |ms| && ms[i].archetype == archetype;
  }

  lemma FirstNameIs(name: string, ms: seq<RawMetric>, i: nat)
    requires FirstName(name, ms) && i < |ms|
    requires ms[i].teamName != "" && forall j :: 0 <= j < i ==> ms[j].teamName == ""
    ensures name == ms[i].teamName
  {
    var k :| 0 <= k < |ms| && ms[k].teamName == name && forall j :: 0 <= j < k ==> ms[j].teamName == "";
    assert k == i;
  }

  /** The team name is the first that is not empty. */
  lemma NamesAre(ms: seq<RawMetric>, i: nat)
    requires i < |ms|
    ensures (forall j :: 0 <= j < i ==> ms[j].teamName == "") && ms[i].teamName != "" ==>
              Folded(NEW_SESSION, ms).teamName == ms[i].teamName
    ensures (forall j :: 0 <= j < |ms| ==> ms[j].teamName == "") ==> Folded(NEW_SESSION, ms).teamName == ""
  {
    var s := FoldedIsSummary(ms);
    if (forall j :: 0 <= j < i ==> ms[j].teamName == "") && ms[i].teamName != "" { FirstNameIs(s.teamName, ms, i); }
  }

  /** The bot count is the largest reported, at least 0. */
  lemma BotsAre(ms: seq<RawMetric>, i: nat)
    requires i < |ms|
    ensures (forall j :: 0 <= j < |ms| ==> ms[j].activeBots <= ms[i].activeBots) && ms[i].activeBots >= 0 ==>
              Folded(NEW_SESSION, ms).maxActiveBots == ms[i].activeBots
    ensures (forall j :: 0 <= j < |ms| ==> ms[j].activeBots <= 0) ==> Folded(NEW_SESSION, ms).maxActiveBots == 0
  {
    var s := FoldedIsSummary(ms);
  }

  /** The latencies given to the two histograms: every positive one as often as it came. */
  lemma LatenciesAre(ms: seq<RawMetric>, t: int)
    ensures multiset(Folded(NEW_SESSION, ms).app)[t] == if t > 0 then multiset(AppTimes(ms))[t] else 0
    ensures multiset(Folded(NEW_SESSION, ms).kernel)[t] == if t > 0 then multiset(KernelTimes(ms))[t] else 0
    ensures forall i :: 0 <= i < |ms| ==> AppTimes(ms)[i] == ms[i].appRttNs && KernelTimes(ms)[i] == ms[i].kernelRttNs
    ensures |AppTimes(ms)| == |KernelTimes(ms)| == |ms|
  {
    var s := FoldedIsSummary(ms);
    PositiveIs(AppTimes(ms), t);
    PositiveIs(KernelTimes(ms), t);
  }

  /** What a record of the kernel probe leaves in its session: an order, and its time if that is
      positive as a signed 64-bit number. */
  lemma KernelRecordLeaves(s: Session, id: string, rttNs: nat)
    requires rttNs < 0x1_0000_0000_0000_0000 && s.maxActiveBots >= 0
    ensures Record(s, KernelMetric(id, rttNs))
         == s.(orderCount := s.orderCount + 1,
               kernel := if 0 < rttNs < 0x8000_0000_0000_0000 then s.kernel + [rttNs] else s.kernel)
    ensures KernelMetric(id, rttNs).sessionId == id
  {
  }
}
