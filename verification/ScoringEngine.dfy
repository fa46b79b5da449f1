/** The telemetry engine. Three readers call it side by side, and each of its changes to the
    sessions is one section under its lock, so a run of the engine is a sequence of such
    sections in any order. */
module ScoringEngine {
  import opened Sequences
  import opened Scoring
  import opened CompositeScore

  const HISTORY_LIMIT := 30

  /** The sections: the recording loop of a delivery, for a batch of the metrics topic or for
      one record of the kernel probe; one score joining its session's history; a chaos event. */
  datatype Section =
    | Recorded(metrics: seq<RawMetric>)
    | KernelRecorded(id: string, rttNs: nat)
    | Scored(id: string, total: real)
    | ChaosEvent(id: string, eventType: string, timestampNs: int, p99: real)

  function MetricsOf(c: Section): seq<RawMetric> {
    match c
    case Recorded(ms) => ms
    case KernelRecorded(id, rttNs) => [KernelMetric(id, rttNs)]
    case _ => []
  }

  /** The last points of a history. */
  function Recent(h: seq<real>): seq<real> {
    if |h| > HISTORY_LIMIT then h[|h| - HISTORY_LIMIT..] else h
  }

  function After(sessions: map<string, Session>, c: Section): map<string, Session> {
    match c
    case Recorded(_) => RecordAll(sessions, MetricsOf(c))
    case KernelRecorded(_, _) => RecordAll(sessions, MetricsOf(c))
    case Scored(id, total) =>
      if id !in sessions then sessions
      else sessions[id := sessions[id].(scoreHistory := Recent(sessions[id].scoreHistory + [total]))]
    case ChaosEvent(id, eventType, timestampNs, p99) =>
      sessions[id := Chaos(GetOrCreate(sessions, id), eventType, timestampNs, p99)]
  }

  function AfterAll(sessions: map<string, Session>, cs: seq<Section>): map<string, Session> {
    if cs == [] then sessions else After(AfterAll(sessions, cs[..|cs| - 1]), cs[|cs| - 1])
  }

  // ---------------------------------------------------------------- a session over any run

  /** All metrics recorded, and those of the metrics topic only. */
  function Stream(cs: seq<Section>): seq<RawMetric> {
    if cs == [] then [] else Stream(cs[..|cs| - 1]) + MetricsOf(cs[|cs| - 1])
  }

  function BotStream(cs: seq<Section>): seq<RawMetric> {
    if cs == [] then []
    else BotStream(cs[..|cs| - 1]) + (if cs[|cs| - 1].Recorded? then cs[|cs| - 1].metrics else [])
  }

  function KernelCount(cs: seq<Section>, id: string): nat {
    if cs == [] then 0
    else
      var c := cs[|cs| - 1];
      KernelCount(cs[..|cs| - 1], id) + (if c.KernelRecorded? && c.id == id then 1 else 0)
  }

  /** Some metric or chaos event of this session has come. */
  predicate Seen(cs: seq<Section>, id: string) { SubStream(Stream(cs), id) != [] || HadChaos(cs, id) }

  predicate HadChaos(cs: seq<Section>, id: string) {
    exists i :: 0 <= i < |cs| && cs[i].ChaosEvent? && cs[i].id == id
  }

  /** The scores given to a session since it exists, in order. */
  function Totals(cs: seq<Section>, id: string): seq<real> {
    if cs == [] then []
    else
      var before, c := cs[..|cs| - 1], cs[|cs| - 1];
      Totals(before, id) + (if c.Scored? && c.id == id && Seen(before, id) then [c.total] else [])
  }

  /** The time and the percentile of the last event of this type, zero when there was none. */
  function LastEvent(cs: seq<Section>, id: string, eventType: string): (int, real) {
    if cs == [] then (0, 0.0)
    else
      var c := cs[|cs| - 1];
      if c.ChaosEvent? && c.id == id && c.eventType == eventType then (c.timestampNs, c.p99)
      else LastEvent(cs[..|cs| - 1], id, eventType)
  }

  lemma HadChaosMore(before: seq<Section>, c: Section, id: string)
    ensures HadChaos(before + [c], id) <==> HadChaos(before, id) || (c.ChaosEvent? && c.id == id)
  {
    var cs := before + [c];
    if HadChaos(before, id) {
      var i :| 0 <= i < |before| && before[i].ChaosEvent? && before[i].id == id;
      assert cs[i] == before[i];
    }
    if c.ChaosEvent? && c.id == id { assert cs[|before|] == c; }
  }

  lemma SeenMore(cs: seq<Section>, id: string)
    requires cs != []
    ensures var c := cs[|cs| - 1];
            Seen(cs, id) <==> Seen(cs[..|cs| - 1], id) || SubStream(MetricsOf(c), id) != []
                              || (c.ChaosEvent? && c.id == id)
  {
    var before, c := cs[..|cs| - 1], cs[|cs| - 1];
    SubStreamConcat(Stream(before), MetricsOf(c), id);
    HadChaosMore(before, c, id);
    assert before + [c] == cs;
  }

  /** What one section does, seen from one session. */
  lemma SectionOnSession(sessions: map<string, Session>, c: Section, id: string)
    ensures var s, s' := GetOrCreate(sessions, id), GetOrCreate(After(sessions, c), id);
            match c
            case Recorded(_) => s' == Folded(s, SubStream(MetricsOf(c), id))
            case KernelRecorded(_, _) => s' == Folded(s, SubStream(MetricsOf(c), id))
            case Scored(k, total) =>
              s' == if k == id && id in sessions then s.(scoreHistory := Recent(s.scoreHistory + [total])) else s
            case ChaosEvent(k, t, ts, p99) => s' == if k == id then Chaos(s, t, ts, p99) else s
    ensures id in After(sessions, c) <==>
            id in sessions || SubStream(MetricsOf(c), id) != [] || (c.ChaosEvent? && c.id == id)
  {
    if c.Recorded? || c.KernelRecorded? { SessionsAreIndependent(sessions, MetricsOf(c), id); }
  }

  /** A session exists exactly when some metric or chaos event of it has come. */
  lemma {:induction false} ExistsIff(cs: seq<Section>, id: string)
    ensures id in AfterAll(map[], cs) <==> Seen(cs, id)
  {
    if cs == [] {
    } else {
      var before := cs[..|cs| - 1];
      ExistsIff(before, id);
      SeenMore(cs, id);
      SectionOnSession(AfterAll(map[], before), cs[|cs| - 1], id);
    }
  }

  /** The bots' part of a session is that of its metrics in the order of their topic, whatever
      deliveries, kernel records, scores and chaos events came between. */
  lemma {:induction false} BotPartIs(cs: seq<Section>, id: string)
    ensures BotPart(GetOrCreate(AfterAll(map[], cs), id))
         == BotPart(Folded(NEW_SESSION, SubStream(BotStream(cs), id)))
  {
    if cs == [] {
    } else {
      var before, c := cs[..|cs| - 1], cs[|cs| - 1];
      var s, own := GetOrCreate(AfterAll(map[], before), id), SubStream(BotStream(before), id);
      BotPartIs(before, id);
      SectionOnSession(AfterAll(map[], before), c, id);
      SubStreamConcat(BotStream(before), if c.Recorded? then c.metrics else [], id);
      if c.Recorded? {
        FoldedBotPart(s, Folded(NEW_SESSION, own), SubStream(c.metrics, id));
        FoldedConcat(NEW_SESSION, own, SubStream(c.metrics, id));
      } else {
        assert own + [] == own;
        if c.KernelRecorded? && c.id == id {
          var t := FoldedIsSummary(own);
          assert s.maxActiveBots == BotPart(s).maxActiveBots == BotPart(t).maxActiveBots == t.maxActiveBots;
          FoldedOne(s, id, c.rttNs);
        }
      }
    }
  }

  lemma FoldedOne(s: Session, id: string, rttNs: nat)
    requires s.maxActiveBots >= 0
    ensures SubStream([KernelMetric(id, rttNs)], id) == [KernelMetric(id, rttNs)]
    ensures BotPart(Folded(s, [KernelMetric(id, rttNs)])) == BotPart(s)
  {
    var m := KernelMetric(id, rttNs);
    assert [m][1..] == [];
    assert Folded(s, [m]) == Folded(Record(s, m), []);
    KernelKeepsBotPart(s, id, rttNs);
  }

  lemma {:induction false} FoldedTraffic(s: Session, earlier: seq<RawMetric>, ms: seq<RawMetric>, all: seq<RawMetric>)
    requires Traffic(s, earlier) && all == earlier + ms
    ensures Traffic(Folded(s, ms), all)
    decreases |ms|
  {
    if ms == [] {
      assert all == earlier;
    } else {
      TimesRecorded(earlier, ms[0]);
      PositiveRecorded(KernelTimes(earlier), ms[0].kernelRttNs);
      assert s.kernel + [] == s.kernel;
      assert all == (earlier + [ms[0]]) + ms[1..];
      FoldedTraffic(Record(s, ms[0]), earlier + [ms[0]], ms[1..], all);
    }
  }

  /** Orders and kernel times count the records of the kernel probe as well. */
  lemma {:induction false} TrafficIs(cs: seq<Section>, id: string)
    ensures Traffic(GetOrCreate(AfterAll(map[], cs), id), SubStream(Stream(cs), id))
  {
    if cs == [] {
    } else {
      var before, c := cs[..|cs| - 1], cs[|cs| - 1];
      TrafficIs(before, id);
      SectionOnSession(AfterAll(map[], before), c, id);
      SubStreamConcat(Stream(before), MetricsOf(c), id);
      FoldedTraffic(GetOrCreate(AfterAll(map[], before), id), SubStream(Stream(before), id),
                    SubStream(MetricsOf(c), id), SubStream(Stream(cs), id));
    }
  }

  lemma {:induction false} StreamSize(cs: seq<Section>, id: string)
    ensures |SubStream(Stream(cs), id)| == |SubStream(BotStream(cs), id)| + KernelCount(cs, id)
  {
    if cs == [] {
    } else {
      var before, c := cs[..|cs| - 1], cs[|cs| - 1];
      StreamSize(before, id);
      SubStreamConcat(Stream(before), MetricsOf(c), id);
      SubStreamConcat(BotStream(before), if c.Recorded? then c.metrics else [], id);
    }
  }

  lemma RecentTwice(h: seq<real>, x: real)
    ensures Recent(Recent(h) + [x]) == Recent(h + [x])
  {
  }

  /** The history of a session is the last points of all scores it was given. */
  lemma {:induction false} HistoryIs(cs: seq<Section>, id: string)
    ensures GetOrCreate(AfterAll(map[], cs), id).scoreHistory == Recent(Totals(cs, id))
  {
    if cs == [] {
    } else {
      var before, c := cs[..|cs| - 1], cs[|cs| - 1];
      var s := GetOrCreate(AfterAll(map[], before), id);
      HistoryIs(before, id);
      ExistsIff(before, id);
      SectionOnSession(AfterAll(map[], before), c, id);
      if c.Scored? {
        RecentTwice(Totals(before, id), c.total);
      } else if c.Recorded? || c.KernelRecorded? {
        FoldedOtherPart(s, SubStream(MetricsOf(c), id));
        assert OtherPart(s).scoreHistory == s.scoreHistory;
      }
      assert Totals(before, id) + [] == Totals(before, id);
    }
  }

  /** Which points a history keeps: the score just given comes last, up to 29 before it stay in
      their order, and older ones go. */
  lemma ScoreJoins(sessions: map<string, Session>, id: string, total: real) returns (h: seq<real>, h': seq<real>)
    requires id in sessions && |sessions[id].scoreHistory| <= 30
    ensures h == sessions[id].scoreHistory && h' == After(sessions, Scored(id, total))[id].scoreHistory
    ensures |h'| == (if |h| < 30 then |h| + 1 else 30) && h'[|h'| - 1] == total
    ensures forall k :: 0 <= k < |h'| - 1 ==> h'[k] == h[|h| - (|h'| - 1) + k]
  {
    h := sessions[id].scoreHistory;
    h' := Recent(h + [total]);
  }

  /** Over any run: of all scores given to a session the history is the last 30. */
  lemma HistoryKeeps(cs: seq<Section>, id: string) returns (all: seq<real>, h: seq<real>)
    ensures all == Totals(cs, id) && h == GetOrCreate(AfterAll(map[], cs), id).scoreHistory
    ensures |h| == if |all| < 30 then |all| else 30
    ensures forall k :: 0 <= k < |h| ==> h[k] == all[|all| - |h| + k]
  {
    HistoryIs(cs, id);
    all, h := Totals(cs, id), Recent(Totals(cs, id));
  }

  /** The chaos fields are those of the last start and the last end. */
  lemma {:induction false} ChaosIs(cs: seq<Section>, id: string)
    ensures var s := GetOrCreate(AfterAll(map[], cs), id);
            && (s.chaosStartNs, s.baselineP99Ns) == LastEvent(cs, id, "chaos_start")
            && (s.chaosEndNs, s.chaosP99Ns) == LastEvent(cs, id, "chaos_end")
  {
    if cs == [] {
    } else {
      var before, c := cs[..|cs| - 1], cs[|cs| - 1];
      var s := GetOrCreate(AfterAll(map[], before), id);
      ChaosIs(before, id);
      SectionOnSession(AfterAll(map[], before), c, id);
      if c.Recorded? || c.KernelRecorded? {
        var s' := Folded(s, SubStream(MetricsOf(c), id));
        FoldedOtherPart(s, SubStream(MetricsOf(c), id));
        assert OtherPart(s').chaosStartNs == s'.chaosStartNs && OtherPart(s').baselineP99Ns == s'.baselineP99Ns;
        assert OtherPart(s').chaosEndNs == s'.chaosEndNs && OtherPart(s').chaosP99Ns == s'.chaosP99Ns;
      }
    }
  }

  /** Section i is the last chaos event of this type for this session. */
  ghost predicate LastAt(cs: seq<Section>, i: nat, id: string, eventType: string) {
    && i < |cs| && cs[i].ChaosEvent? && cs[i].id == id && cs[i].eventType == eventType
    && forall j :: i < j < |cs| ==> !(cs[j].ChaosEvent? && cs[j].id == id && cs[j].eventType == eventType)
  }

  /** No chaos event of this type for this session has come. */
  ghost predicate NoneOf(cs: seq<Section>, id: string, eventType: string) {
    forall j :: 0 <= j < |cs| ==> !(cs[j].ChaosEvent? && cs[j].id == id && cs[j].eventType == eventType)
  }

  lemma {:induction false} LastEventIs(cs: seq<Section>, id: string, eventType: string, i: nat)
    ensures LastAt(cs, i, id, eventType) ==> LastEvent(cs, id, eventType) == (cs[i].timestampNs, cs[i].p99)
    ensures NoneOf(cs, id, eventType) ==> LastEvent(cs, id, eventType) == (0, 0.0)
  {
    if cs == [] {
    } else {
      var n := |cs| - 1;
      LastEventIs(cs[..n], id, eventType, i);
      assert forall j :: 0 <= j < n ==> cs[..n][j] == cs[j];
      if LastAt(cs, i, id, eventType) && i < n { assert LastAt(cs[..n], i, id, eventType); }
    }
  }

  /** The chaos fields in terms of the events: time and percentile of the last start and the
      last end, 0 while there was none. */
  lemma ChaosFieldsAre(cs: seq<Section>, id: string, i: nat)
    ensures var s := GetOrCreate(AfterAll(map[], cs), id);
            && (LastAt(cs, i, id, "chaos_start") ==>
                  s.chaosStartNs == cs[i].timestampNs && s.baselineP99Ns == cs[i].p99)
            && (LastAt(cs, i, id, "chaos_end") ==> s.chaosEndNs == cs[i].timestampNs && s.chaosP99Ns == cs[i].p99)
    ensures var s := GetOrCreate(AfterAll(map[], cs), id);
            && (NoneOf(cs, id, "chaos_start") ==> s.chaosStartNs == 0 && s.baselineP99Ns == 0.0)
            && (NoneOf(cs, id, "chaos_end") ==> s.chaosEndNs == 0 && s.chaosP99Ns == 0.0)
  {
    ChaosIs(cs, id);
    LastEventIs(cs, id, "chaos_start", i);
    LastEventIs(cs, id, "chaos_end", i);
  }

  /** On every interleaving of the three readers: which sessions exist, and what every field
      of a session holds. */
  lemma SessionOverAnyRun(cs: seq<Section>, id: string)
    returns (bots: seq<RawMetric>, all: seq<RawMetric>)
    ensures bots == SubStream(BotStream(cs), id) && all == SubStream(Stream(cs), id)
    ensures id in AfterAll(map[], cs) <==>
            all != [] || exists i :: 0 <= i < |cs| && cs[i].ChaosEvent? && cs[i].id == id
    ensures var s := GetOrCreate(AfterAll(map[], cs), id);
            && BotSummary(s, bots) && Traffic(s, all) && s.orderCount == |bots| + KernelCount(cs, id)
            && s.scoreHistory == Recent(Totals(cs, id))
            && (s.chaosStartNs, s.baselineP99Ns) == LastEvent(cs, id, "chaos_start")
            && (s.chaosEndNs, s.chaosP99Ns) == LastEvent(cs, id, "chaos_end")
  {
    bots, all := SubStream(BotStream(cs), id), SubStream(Stream(cs), id);
    ExistsIff(cs, id);
    BotPartIs(cs, id);
    var t := FoldedIsSummary(bots);
    SameBotSummary(t, GetOrCreate(AfterAll(map[], cs), id), bots);
    TrafficIs(cs, id);
    StreamSize(cs, id);
    HistoryIs(cs, id);
    ChaosIs(cs, id);
  }

  lemma SameBotSummary(s: Session, t: Session, ms: seq<RawMetric>)
    requires BotSummary(s, ms) && BotPart(s) == BotPart(t)
    ensures BotSummary(t, ms)
  {
    var p, q := BotPart(s), BotPart(t);
    assert p.teamName == s.teamName && q.teamName == t.teamName;
    assert p.archetypeCounts == s.archetypeCounts && q.archetypeCounts == t.archetypeCounts;
    assert p.maxActiveBots == s.maxActiveBots && q.maxActiveBots == t.maxActiveBots;
    assert p.app == s.app && q.app == t.app;
    assert p.totalFills == s.totalFills && q.totalFills == t.totalFills;
    assert p.correctFills == s.correctFills && q.correctFills == t.correctFills;
  }

  /** Two runs whose metrics topic brought a session the same metrics in the same order, cut
      into any batches, agree on the bots' part of it; if the kernel probe's records came in
      the same places too, they agree on the order count and the kernel times. */
  lemma BatchingDoesNotMatter(cs: seq<Section>, ds: seq<Section>, id: string)
    requires SubStream(BotStream(cs), id) == SubStream(BotStream(ds), id)
    ensures var s, t := GetOrCreate(AfterAll(map[], cs), id), GetOrCreate(AfterAll(map[], ds), id);
            && BotPart(s) == BotPart(t)
            && (KernelCount(cs, id) == KernelCount(ds, id) <==> s.orderCount == t.orderCount)
            && (SubStream(Stream(cs), id) == SubStream(Stream(ds), id) ==> s.kernel == t.kernel)
  {
    BotPartIs(cs, id);
    BotPartIs(ds, id);
    TrafficIs(cs, id);
    TrafficIs(ds, id);
    StreamSize(cs, id);
    StreamSize(ds, id);
  }

  // ---------------------------------------------------------------- calls

  /** The sessions of a delivery, in order of first appearance. */
  function Touched(ms: seq<RawMetric>, seen: set<string>): seq<string>
    decreases |ms|
  {
    if ms == [] then []
    else if ms[0].sessionId in seen then Touched(ms[1..], seen)
    else [ms[0].sessionId] + Touched(ms[1..], seen + {ms[0].sessionId})
  }

  /** A call of the engine by itself: a delivery, with the scores it came to give before it
      returned, or a chaos event. */
  datatype Call = Handle(recorded: Section, totals: seq<real>) | HandleChaos(event: Section)

  function Ids(c: Call): seq<string>
    requires c.Handle?
  {
    Touched(MetricsOf(c.recorded), {})
  }

  /** A delivery scores its sessions in turn, at least the first, up to the first score that
      cannot be published. */
  predicate Possible(c: Call) {
    match c
    case Handle(r, totals) =>
      (r.Recorded? || r.KernelRecorded?) && |totals| <= |Ids(c)| && (Ids(c) != [] ==> totals != [])
    case HandleChaos(e) => e.ChaosEvent?
  }

  /** All sessions of the delivery were scored. */
  predicate Finished(c: Call) { c.Handle? ==> |c.totals| == |Ids(c)| }

  function Scores(ids: seq<string>, totals: seq<real>): (cs: seq<Section>)
    requires |totals| <= |ids|
    ensures |cs| == |totals|
  {
    seq(|totals|, i requires 0 <= i < |totals| => Scored(ids[i], totals[i]))
  }

  function Sections(c: Call): seq<Section>
    requires Possible(c)
  {
    match c
    case Handle(r, totals) => [r] + Scores(Ids(c), totals)
    case HandleChaos(e) => [e]
  }

  predicate AllPossible(calls: seq<Call>) { forall i :: 0 <= i < |calls| ==> Possible(calls[i]) }

  function SectionsOf(calls: seq<Call>): seq<Section>
    requires AllPossible(calls)
  {
    if calls == [] then [] else SectionsOf(calls[..|calls| - 1]) + Sections(calls[|calls| - 1])
  }

  /** The call gives this session a score. */
  predicate Reaches(c: Call, id: string)
    requires Possible(c)
  {
    c.Handle? && id in Ids(c)[..|c.totals|]
  }

  function ReachCount(calls: seq<Call>, id: string): nat
    requires AllPossible(calls)
  {
    if calls == [] then 0
    else ReachCount(calls[..|calls| - 1], id) + (if Reaches(calls[|calls| - 1], id) then 1 else 0)
  }

  lemma {:induction false} TouchedOnce(ms: seq<RawMetric>, seen: set<string>)
    ensures NoDuplicates(Touched(ms, seen))
    ensures forall id :: id in Touched(ms, seen) <==> id !in seen && SubStream(ms, id) != []
    decreases |ms|
  {
    if ms == [] {
    } else {
      var k := ms[0].sessionId;
      if k in seen {
        TouchedOnce(ms[1..], seen);
      } else {
        TouchedOnce(ms[1..], seen + {k});
      }
    }
  }

  /** The sessions of a delivery come in the order of their first metrics. */
  lemma {:induction false} TouchedInOrder(ms: seq<RawMetric>, seen: set<string>, i: nat, j: nat) returns (a: nat)
    requires i < j < |Touched(ms, seen)|
    ensures a < |ms| && ms[a].sessionId == Touched(ms, seen)[i]
    ensures forall b :: 0 <= b <= a ==> ms[b].sessionId != Touched(ms, seen)[j]
    decreases |ms|
  {
    var k := ms[0].sessionId;
    if k in seen {
      TouchedOnce(ms[1..], seen);
      a := TouchedInOrder(ms[1..], seen, i, j);
      assert Touched(ms, seen)[j] in Touched(ms[1..], seen);
      a := a + 1;
      assert forall b :: 1 <= b <= a ==> ms[b] == ms[1..][b - 1];
    } else {
      TouchedOnce(ms[1..], seen + {k});
      var rest := Touched(ms[1..], seen + {k});
      assert Touched(ms, seen)[j] == rest[j - 1] && rest[j - 1] in rest;
      if i == 0 {
        a := 0;
      } else {
        a := TouchedInOrder(ms[1..], seen + {k}, i - 1, j - 1);
        a := a + 1;
        assert forall b :: 1 <= b <= a ==> ms[b] == ms[1..][b - 1];
      }
    }
  }

  lemma SeenOneMore(cs: seq<Section>, c: Section, id: string)
    requires Seen(cs, id)
    ensures Seen(cs + [c], id)
  {
    assert (cs + [c])[..|cs|] == cs;
    SeenMore(cs + [c], id);
  }

  lemma {:induction false} SeenPrefix(cs: seq<Section>, ds: seq<Section>, id: string)
    requires Seen(cs, id)
    ensures Seen(cs + ds, id)
  {
    if ds == [] {
      assert cs + ds == cs;
    } else {
      var n := |ds| - 1;
      SeenPrefix(cs, ds[..n], id);
      SeenOneMore(cs + ds[..n], ds[n], id);
      assert (cs + ds[..n]) + [ds[n]] == cs + ds;
    }
  }

  lemma TotalsNext(cs: seq<Section>, k: string, total: real, id: string)
    ensures |Totals(cs + [Scored(k, total)], id)| == |Totals(cs, id)| + (if k == id && Seen(cs, id) then 1 else 0)
  {
    assert (cs + [Scored(k, total)])[..|cs|] == cs;
  }

  lemma ScoresNext(ids: seq<string>, totals: seq<real>)
    requires 0 < |totals| <= |ids|
    ensures var n := |totals| - 1;
            Scores(ids, totals) == Scores(ids, totals[..n]) + [Scored(ids[n], totals[n])]
  {
  }

  lemma AmongFirst(ids: seq<string>, n: nat, id: string)
    requires NoDuplicates(ids) && n < |ids|
    ensures id in ids[..n + 1] <==> id in ids[..n] || id == ids[n]
    ensures ids[n] !in ids[..n]
  {
    PrefixStep(ids, n);
  }

  /** Giving scores to distinct sessions adds one point to those among them. */
  lemma {:induction false} TotalsOfScores(cs: seq<Section>, ids: seq<string>, totals: seq<real>, id: string)
    requires |totals| <= |ids| && NoDuplicates(ids) && (id in ids ==> Seen(cs, id))
    ensures |Totals(cs + Scores(ids, totals), id)| == |Totals(cs, id)| + (if id in ids[..|totals|] then 1 else 0)
  {
    if totals == [] {
      assert cs + Scores(ids, totals) == cs;
    } else {
      var n := |totals| - 1;
      var before := cs + Scores(ids, totals[..n]);
      TotalsOfScores(cs, ids, totals[..n], id);
      ScoresNext(ids, totals);
      assert cs + Scores(ids, totals) == before + [Scored(ids[n], totals[n])];
      TotalsNext(before, ids[n], totals[n], id);
      AmongFirst(ids, n, id);
      if id == ids[n] { SeenPrefix(cs, Scores(ids, totals[..n]), id); }
    }
  }

  lemma TotalsOfSection(cs: seq<Section>, c: Section, id: string)
    requires !c.Scored?
    ensures Totals(cs + [c], id) == Totals(cs, id)
  {
    assert (cs + [c])[..|cs|] == cs;
    assert Totals(cs, id) + [] == Totals(cs, id);
  }

  lemma TotalsOfDelivery(cs: seq<Section>, r: Section, totals: seq<real>, id: string)
    requires Possible(Handle(r, totals))
    ensures |Totals(cs + Sections(Handle(r, totals)), id)|
         == |Totals(cs, id)| + (if Reaches(Handle(r, totals), id) then 1 else 0)
  {
    var ids := Touched(MetricsOf(r), {});
    TouchedOnce(MetricsOf(r), {});
    if id in ids { SeenNow(cs, r, id); }
    PrefixMember(ids, |totals|, id);
    TotalsOfSection(cs, r, id);
    TotalsOfScores(cs + [r], ids, totals, id);
    Shift(cs, r, Scores(ids, totals));
  }

  lemma PrefixMember(ids: seq<string>, n: nat, id: string)
    requires n <= |ids|
    ensures id in ids[..n] ==> id in ids
  {
  }

  lemma Shift(cs: seq<Section>, r: Section, ds: seq<Section>)
    ensures cs + ([r] + ds) == (cs + [r]) + ds
  {
  }

  lemma SeenNow(cs: seq<Section>, r: Section, id: string)
    requires SubStream(MetricsOf(r), id) != []
    ensures Seen(cs + [r], id)
  {
    assert (cs + [r])[..|cs|] == cs;
    SeenMore(cs + [r], id);
  }

  lemma TotalsOfCall(cs: seq<Section>, c: Call, id: string)
    requires Possible(c)
    ensures |Totals(cs + Sections(c), id)| == |Totals(cs, id)| + (if Reaches(c, id) then 1 else 0)
  {
    match c {
      case Handle(r, totals) => TotalsOfDelivery(cs, r, totals, id);
      case HandleChaos(e) => TotalsOfSection(cs, e, id);
    }
  }

  lemma {:induction false} TotalsOfCalls(calls: seq<Call>, id: string)
    requires AllPossible(calls)
    ensures |Totals(SectionsOf(calls), id)| == ReachCount(calls, id)
  {
    if calls == [] {
    } else {
      TotalsOfCalls(calls[..|calls| - 1], id);
      TotalsOfCall(SectionsOf(calls[..|calls| - 1]), calls[|calls| - 1], id);
    }
  }

  function HistoryLength(calls: seq<Call>, id: string): nat
    requires AllPossible(calls)
  {
    |GetOrCreate(AfterAll(map[], SectionsOf(calls)), id).scoreHistory|
  }

  /** The score history has one point for each delivery that reached the session, and keeps
      the last 30. */
  lemma HistoryCountsDeliveries(calls: seq<Call>, id: string)
    requires AllPossible(calls)
    ensures HistoryLength(calls, id)
         == if ReachCount(calls, id) < 30 then ReachCount(calls, id) else 30
  {
    HistoryIs(SectionsOf(calls), id);
    TotalsOfCalls(calls, id);
  }

  /** A delivery that was not cut short reaches exactly the sessions it has metrics of. */
  lemma FinishedReaches(c: Call, id: string)
    requires Possible(c) && Finished(c)
    ensures Reaches(c, id) <==> c.Handle? && SubStream(MetricsOf(c.recorded), id) != []
  {
    if c.Handle? {
      TouchedOnce(MetricsOf(c.recorded), {});
      assert Ids(c)[..|c.totals|] == Ids(c);
    }
  }

  /** Exactly when two lists of calls leave score histories of the same length. */
  lemma HistoriesAgreeIff(a: seq<Call>, b: seq<Call>, id: string)
    requires AllPossible(a) && AllPossible(b)
    ensures HistoryLength(a, id) == HistoryLength(b, id)
       <==> ReachCount(a, id) == ReachCount(b, id)
            || (ReachCount(a, id) >= 30 && ReachCount(b, id) >= 30)
  {
    HistoryCountsDeliveries(a, id);
    HistoryCountsDeliveries(b, id);
  }

  /** So batching matters to the history: the same two metrics leave one point when delivered
      together and two when delivered apart. */
  lemma HistoryDependsOnBatching(m: RawMetric, n: RawMetric, x: real, y: real)
    returns (together: seq<Call>, apart: seq<Call>)
    requires m.sessionId == n.sessionId
    ensures AllPossible(together) && AllPossible(apart)
    ensures forall i :: 0 <= i < |together| ==> Finished(together[i])
    ensures forall i :: 0 <= i < |apart| ==> Finished(apart[i])
    ensures BotStream(SectionsOf(together)) == BotStream(SectionsOf(apart)) == [m, n]
    ensures HistoryLength(together, m.sessionId) == 1 && HistoryLength(apart, m.sessionId) == 2
  {
    together := OneMore([], [m, n], x, m.sessionId);
    apart := TwoMore(m, n, x, y, m.sessionId);
    assert [] + [m, n] == [m, n];
    ShortHistory(together, m.sessionId);
    ShortHistory(apart, m.sessionId);
  }

  lemma ShortHistory(calls: seq<Call>, id: string)
    requires AllPossible(calls) && ReachCount(calls, id) < HISTORY_LIMIT
    ensures HistoryLength(calls, id) == ReachCount(calls, id)
  {
    HistoryCountsDeliveries(calls, id);
  }

  lemma TwoMore(m: RawMetric, n: RawMetric, x: real, y: real, id: string) returns (more: seq<Call>)
    requires m.sessionId == n.sessionId == id
    ensures AllPossible(more) && forall i :: 0 <= i < |more| ==> Finished(more[i])
    ensures BotStream(SectionsOf(more)) == [m, n] && ReachCount(more, id) == 2
  {
    var first := OneMore([], [m], x, id);
    more := OneMore(first, [n], y, id);
    assert [] + [m] == [m] && [m] + [n] == [m, n];
  }

  /** One more delivery of one or two metrics of a session. */
  lemma OneMore(calls: seq<Call>, ms: seq<RawMetric>, x: real, id: string) returns (more: seq<Call>)
    requires AllPossible(calls) && forall i :: 0 <= i < |calls| ==> Finished(calls[i])
    requires 0 < |ms| <= 2 && forall i :: 0 <= i < |ms| ==> ms[i].sessionId == id
    ensures AllPossible(more) && forall i :: 0 <= i < |more| ==> Finished(more[i])
    ensures BotStream(SectionsOf(more)) == BotStream(SectionsOf(calls)) + ms
    ensures ReachCount(more, id) == ReachCount(calls, id) + 1
  {
    TouchesOne(ms, id);
    var c := Handle(Recorded(ms), [x]);
    more := calls + [c];
    assert more[..|calls|] == calls && [id][..1] == [id];
    OneCall(SectionsOf(calls), c);
  }

  lemma TouchesOne(ms: seq<RawMetric>, id: string)
    requires 0 < |ms| <= 2 && forall i :: 0 <= i < |ms| ==> ms[i].sessionId == id
    ensures Touched(ms, {}) == [id]
  {
    var seen := {} + {id};
    assert Touched(ms, {}) == [id] + Touched(ms[1..], seen);
    assert |ms| == 2 ==> ms[1..][0] == ms[1] && Touched(ms[1..], seen) == Touched(ms[1..][1..], seen) == [];
  }

  lemma OneCall(cs: seq<Section>, c: Call)
    requires Possible(c) && c.Handle? && c.recorded.Recorded?
    ensures BotStream(cs + Sections(c)) == BotStream(cs) + c.recorded.metrics
  {
    var r := cs + [c.recorded];
    assert r[..|cs|] == cs;
    ScoresBringNothing(r, Ids(c), c.totals);
    assert cs + Sections(c) == r + Scores(Ids(c), c.totals);
  }

  lemma {:induction false} ScoresBringNothing(cs: seq<Section>, ids: seq<string>, totals: seq<real>)
    requires |totals| <= |ids|
    ensures BotStream(cs + Scores(ids, totals)) == BotStream(cs)
  {
    if totals == [] {
      assert cs + Scores(ids, totals) == cs;
    } else {
      var n := |totals| - 1;
      ScoresBringNothing(cs, ids, totals[..n]);
      var all := cs + Scores(ids, totals);
      assert all[..|all| - 1] == cs + Scores(ids, totals[..n]) && all[|all| - 1] == Scored(ids[n], totals[n]);
      assert BotStream(cs) + [] == BotStream(cs);
    }
  }

  // ---------------------------------------------------------------- the engine

  /** What the clock and the histograms say while one score is computed. */
  datatype Readings = Readings(elapsed: real, p99: real)

  /** The total of a session. Nothing ever feeds a session's validator, so its violations are 0. */
  function TotalOf(s: Session, r: Readings, log: real -> real): real
    requires log(BEST_NS) < log(WORST_NS)
  {
    Compute(s, 0, r.elapsed, r.p99, log).total
  }

  /** What a total is made of: with no violations counted, correctness is the share of correct
      fills in percent. */
  lemma TotalIs(s: Session, r: Readings, log: real -> real) returns (c: Score)
    requires log(BEST_NS) < log(WORST_NS) && s.totalFills >= 0
    ensures c == Compute(s, 0, r.elapsed, r.p99, log) && TotalOf(s, r, log) == c.total
    ensures if s.totalFills == 0 then c.correctness == 0.0
            else c.correctness * s.totalFills as real == 100.0 * s.correctFills as real
    ensures TotalOf(s, r, log)
         == 0.30 * c.throughput + 0.30 * c.tailLatency + 0.25 * c.correctness + 0.15 * c.resilience
  {
    c := Compute(s, 0, r.elapsed, r.p99, log);
    if s.totalFills > 0 {
      Quotient(0.0, s.totalFills as real);
      assert FillAccuracy(s) * s.totalFills as real == s.correctFills as real;
    }
  }

  lemma TotalIgnoresHistory(s: Session, t: Session, r: Readings, log: real -> real)
    requires log(BEST_NS) < log(WORST_NS) && s.(scoreHistory := []) == t.(scoreHistory := [])
    ensures TotalOf(s, r, log) == TotalOf(t, r, log)
  {
    assert s == t.(scoreHistory := s.scoreHistory);
  }

  /** What the scoring loop has done: scored the sessions `done`, on the recorded state. */
  ghost predicate ScoredSoFar(recorded: map<string, Session>, done: seq<string>, totals: seq<real>,
                              sessions: map<string, Session>, readings: string -> Readings, log: real -> real)
    requires log(BEST_NS) < log(WORST_NS)
  {
    && |totals| == |done| && sessions == AfterAll(recorded, Scores(done, totals))
    && (forall i :: 0 <= i < |done| ==>
          done[i] in recorded && totals[i] == TotalOf(recorded[done[i]], readings(done[i]), log))
    && sessions.Keys == recorded.Keys
    && forall id :: id in recorded ==> sessions[id].(scoreHistory := []) == recorded[id].(scoreHistory := [])
  }

  lemma ScoredNext(recorded: map<string, Session>, done: seq<string>, totals: seq<real>,
                   sessions: map<string, Session>, readings: string -> Readings, log: real -> real,
                   id: string)
    requires log(BEST_NS) < log(WORST_NS) && ScoredSoFar(recorded, done, totals, sessions, readings, log)
    requires id in recorded
    ensures var total := TotalOf(sessions[id], readings(id), log);
            ScoredSoFar(recorded, done + [id], totals + [total], After(sessions, Scored(id, total)), readings, log)
  {
    var total := TotalOf(sessions[id], readings(id), log);
    TotalIgnoresHistory(sessions[id], recorded[id], readings(id), log);
    ScoresApplied(recorded, done, totals, id, total);
    OnlyHistories(recorded, sessions, id, total);
  }

  /** A score changes a history and nothing else. */
  lemma OnlyHistories(recorded: map<string, Session>, sessions: map<string, Session>, id: string, total: real)
    requires sessions.Keys == recorded.Keys && id in recorded
    requires forall k :: k in recorded ==> sessions[k].(scoreHistory := []) == recorded[k].(scoreHistory := [])
    ensures var after := After(sessions, Scored(id, total));
            && after.Keys == recorded.Keys
            && forall k :: k in recorded ==> after[k].(scoreHistory := []) == recorded[k].(scoreHistory := [])
  {
    assert sessions[id].(scoreHistory := Recent(sessions[id].scoreHistory + [total])).(scoreHistory := [])
        == sessions[id].(scoreHistory := []);
  }

  lemma ScoresApplied(recorded: map<string, Session>, done: seq<string>, totals: seq<real>, id: string, total: real)
    requires |totals| == |done|
    ensures AfterAll(recorded, Scores(done + [id], totals + [total]))
         == After(AfterAll(recorded, Scores(done, totals)), Scored(id, total))
  {
    var all := Scores(done + [id], totals + [total]);
    assert all[..|done|] == Scores(done, totals) && all[|done|] == Scored(id, total);
  }

  lemma {:induction false} AfterAllConcat(sessions: map<string, Session>, a: seq<Section>, b: seq<Section>)
    ensures AfterAll(sessions, a + b) == AfterAll(AfterAll(sessions, a), b)
  {
    if b == [] {
      assert a + b == a;
    } else {
      assert (a + b)[..|a + b| - 1] == a + b[..|b| - 1];
      AfterAllConcat(sessions, a, b[..|b| - 1]);
    }
  }

  /** What a delivery by itself leaves, the scores it gave, and whether all could be published. */
  ghost predicate Delivered(before: map<string, Session>, metrics: seq<RawMetric>, after: map<string, Session>,
                            totals: seq<real>, ok: bool, readings: string -> Readings,
                            published: string -> bool, log: real -> real)
    requires log(BEST_NS) < log(WORST_NS)
  {
    var ids, recorded, call := Touched(metrics, {}), RecordAll(before, metrics), Handle(Recorded(metrics), totals);
    && Possible(call) && after == AfterAll(before, Sections(call))
    && (ok <==> forall i :: 0 <= i < |ids| ==> published(ids[i]))
    && (ok ==> Finished(call))
    && (!ok ==> totals != [] && !published(ids[|totals| - 1])
                && forall i :: 0 <= i < |totals| - 1 ==> published(ids[i]))
    && forall i :: 0 <= i < |totals| ==>
         ids[i] in recorded && totals[i] == TotalOf(recorded[ids[i]], readings(ids[i]), log)
  }

  ghost predicate AllPublished(ids: seq<string>, published: string -> bool) {
    forall i :: 0 <= i < |ids| ==> published(ids[i])
  }

  lemma PublishedUpTo(done: seq<string>, id: string, published: string -> bool)
    requires AllPublished(done, published)
    ensures var ids := done + [id];
            (forall i :: 0 <= i < |ids| - 1 ==> published(ids[i])) && (published(id) ==> AllPublished(ids, published))
  {
  }

  /** The scoring loop ends: `done` was scored, of which all but perhaps the last were
      published, and if the last was, nothing is left to do. */
  lemma DeliveredBy(before: map<string, Session>, metrics: seq<RawMetric>,
                    done: seq<string>, todo: seq<string>, totals: seq<real>, after: map<string, Session>,
                    readings: string -> Readings, published: string -> bool, log: real -> real)
    returns (ok: bool)
    requires log(BEST_NS) < log(WORST_NS) && done + todo == Touched(metrics, {})
    requires ScoredSoFar(RecordAll(before, metrics), done, totals, after, readings, log)
    requires forall i :: 0 <= i < |done| - 1 ==> published(done[i])
    requires (done == [] || published(done[|done| - 1])) ==> todo == []
    ensures ok <==> done == [] || published(done[|done| - 1])
    ensures Delivered(before, metrics, after, totals, ok, readings, published, log)
  {
    ok := done == [] || published(done[|done| - 1]);
    ScoresOfPrefix(done, todo, totals);
    SectionsAfter(before, metrics, totals);
    AllPublishedIff(done, todo, published, ok);
  }

  lemma ScoresOfPrefix(done: seq<string>, todo: seq<string>, totals: seq<real>)
    requires |totals| == |done|
    ensures Scores(done + todo, totals) == Scores(done, totals)
  {
  }

  lemma SectionsAfter(before: map<string, Session>, metrics: seq<RawMetric>, totals: seq<real>)
    requires Possible(Handle(Recorded(metrics), totals))
    ensures AfterAll(before, Sections(Handle(Recorded(metrics), totals)))
         == AfterAll(RecordAll(before, metrics), Scores(Touched(metrics, {}), totals))
  {
    AfterAllConcat(before, [Recorded(metrics)], Scores(Touched(metrics, {}), totals));
    assert [Recorded(metrics)][..0] == [];
  }

  lemma AllPublishedIff(done: seq<string>, todo: seq<string>, published: string -> bool, ok: bool)
    requires forall i :: 0 <= i < |done| - 1 ==> published(done[i])
    requires ok == (done == [] || published(done[|done| - 1])) && (ok ==> todo == [])
    ensures var ids := done + todo;
            ok <==> forall i :: 0 <= i < |ids| ==> published(ids[i])
  {
    if !ok { assert (done + todo)[|done| - 1] == done[|done| - 1]; }
  }

  class Engine {
    var sessions: map<string, Session>

    constructor ()
      ensures sessions == map[]
    {
      sessions := map[];
    }

    /** One delivery by itself: all metrics are recorded, then each session among them is given
        its score on the recorded state, in order of first appearance, until one cannot be
        published. */
    method Handle(metrics: seq<RawMetric>, readings: string -> Readings, published: string -> bool, log: real -> real)
      returns (ok: bool, ghost totals: seq<real>)
      requires log(BEST_NS) < log(WORST_NS)
      modifies this
      ensures Delivered(old(sessions), metrics, sessions, totals, ok, readings, published, log)
    {
      ghost var before := sessions;
      ghost var done, todo;
      RecordBatch(metrics);
      ok, done, todo, totals := ScoreTouched(metrics, readings, published, log);
      ghost var _ := DeliveredBy(before, metrics, done, todo, totals, sessions, readings, published, log);
    }

    /** The scoring loop, over the sessions of a delivery that has been recorded. */
    method ScoreTouched(metrics: seq<RawMetric>, readings: string -> Readings, published: string -> bool,
                        log: real -> real)
      returns (ok: bool, ghost done: seq<string>, ghost todo: seq<string>, ghost totals: seq<real>)
      requires log(BEST_NS) < log(WORST_NS)
      requires forall i :: 0 <= i < |metrics| ==> metrics[i].sessionId in sessions
      modifies this
      ensures done + todo == Touched(metrics, {})
      ensures ScoredSoFar(old(sessions), done, totals, sessions, readings, log)
      ensures forall i :: 0 <= i < |done| - 1 ==> published(done[i])
      ensures ok <==> done == [] || published(done[|done| - 1])
      ensures ok ==> todo == []
    {
      done, totals := [], [];
      var seen: set<string> := {};
      assert metrics[0..] == metrics && [] + Touched(metrics, {}) == Touched(metrics, {});
      for i := 0 to |metrics|
        invariant ScoredSoFar(old(sessions), done, totals, sessions, readings, log)
        invariant done + Touched(metrics[i..], seen) == Touched(metrics, {})
        invariant AllPublished(done, published)
      {
        var id := metrics[i].sessionId;
        TouchedNext(metrics, i, seen, done);
        if id in seen {
          continue;
        }
        totals := ScoreSession(id, old(sessions), done, totals, readings, log);
        PublishedUpTo(done, id, published);
        seen, done := seen + {id}, done + [id];
        if !published(id) {
          return false, done, Touched(metrics[i + 1..], seen), totals;
        }
      }
      return true, done, [], totals;
    }

    /** The recording loop, under the lock. */
    method RecordBatch(metrics: seq<RawMetric>)
      modifies this
      ensures sessions == RecordAll(old(sessions), metrics)
      ensures forall i :: 0 <= i < |metrics| ==> metrics[i].sessionId in sessions
    {
      forall i | 0 <= i < |metrics| ensures metrics[i].sessionId in RecordAll(sessions, metrics) {
        WasRecorded(sessions, metrics, i);
      }
      assert metrics[0..] == metrics;
      for i := 0 to |metrics|
        invariant RecordAll(sessions, metrics[i..]) == RecordAll(old(sessions), metrics)
      {
        var m := metrics[i];
        assert metrics[i..][0] == m && metrics[i..][1..] == metrics[i + 1..];
        sessions := sessions[m.sessionId := Record(GetOrCreate(sessions, m.sessionId), m)];
      }
    }

    /** One turn of the scoring loop: the session's total joins its history. */
    method ScoreSession(id: string, ghost recorded: map<string, Session>, ghost done: seq<string>,
                        ghost totals: seq<real>, readings: string -> Readings, log: real -> real)
      returns (ghost totals': seq<real>)
      requires log(BEST_NS) < log(WORST_NS) && id in recorded
      requires ScoredSoFar(recorded, done, totals, sessions, readings, log)
      modifies this
      ensures ScoredSoFar(recorded, done + [id], totals', sessions, readings, log)
    {
      ScoredNext(recorded, done, totals, sessions, readings, log, id);
      var total := TotalOf(sessions[id], readings(id), log);
      totals' := totals + [total];
      sessions := sessions[id := sessions[id].(scoreHistory := Recent(sessions[id].scoreHistory + [total]))];
    }

    /** A chaos event: it touches its own session only, which it creates if need be, and there
        only the two fields of its type; whatever comes from metrics stays. */
    method HandleChaosEvent(id: string, eventType: string, timestampNs: int, p99: real)
      modifies this
      ensures sessions == After(old(sessions), ChaosEvent(id, eventType, timestampNs, p99))
      ensures sessions.Keys == old(sessions).Keys + {id}
      ensures forall k :: k in old(sessions) && k != id ==> sessions[k] == old(sessions)[k]
      ensures var s, s' := GetOrCreate(old(sessions), id), sessions[id];
              && BotPart(s') == BotPart(s) && s'.orderCount == s.orderCount && s'.kernel == s.kernel
              && s'.scoreHistory == s.scoreHistory
              && (s'.chaosStartNs, s'.baselineP99Ns)
                 == (if eventType == "chaos_start" then (timestampNs, p99) else (s.chaosStartNs, s.baselineP99Ns))
              && (s'.chaosEndNs, s'.chaosP99Ns)
                 == (if eventType == "chaos_end" then (timestampNs, p99) else (s.chaosEndNs, s.chaosP99Ns))
    {
      var s := GetOrCreate(sessions, id);
      if eventType == "chaos_start" {
        s := s.(chaosStartNs := timestampNs, baselineP99Ns := p99);
      } else if eventType == "chaos_end" {
        s := s.(chaosEndNs := timestampNs, chaosP99Ns := p99);
      }
      sessions := sessions[id := s];
    }
  }

  lemma {:induction false} TouchedNext(metrics: seq<RawMetric>, i: nat, seen: set<string>, done: seq<string>)
    requires i < |metrics| && done + Touched(metrics[i..], seen) == Touched(metrics, {})
    ensures var id := metrics[i].sessionId;
            if id in seen then done + Touched(metrics[i + 1..], seen) == Touched(metrics, {})
            else (done + [id]) + Touched(metrics[i + 1..], seen + {id}) == Touched(metrics, {})
  {
    var id := metrics[i].sessionId;
    assert metrics[i..][0] == metrics[i] && metrics[i..][1..] == metrics[i + 1..];
    assert done + ([id] + Touched(metrics[i + 1..], seen + {id}))
        == done + [id] + Touched(metrics[i + 1..], seen + {id});
  }

  lemma WasRecorded(sessions: map<string, Session>, ms: seq<RawMetric>, i: nat)
    requires i < |ms|
    ensures ms[i].sessionId in RecordAll(sessions, ms)
  {
    var id := ms[i].sessionId;
    SubStreamConcat(ms[..i], ms[i..], id);
    assert ms == ms[..i] + ms[i..];
    SessionsAreIndependent(sessions, ms, id);
  }

  // ---------------------------------------------------------------- ranges over any run

  lemma {:induction false} FoldedKeepsCounters(s: Session, ms: seq<RawMetric>)
    requires CountersOk(s)
    ensures CountersOk(Folded(s, ms))
    decreases |ms|
  {
    if ms == [] {
    } else {
      SumBumped(s.archetypeCounts, ms[0].archetype);
      FoldedKeepsCounters(Record(s, ms[0]), ms[1..]);
    }
  }

  ghost predicate PercentilesOk(cs: seq<Section>) {
    forall i :: 0 <= i < |cs| && cs[i].ChaosEvent? ==> cs[i].p99 >= 0.0
  }

  /** On every interleaving the counters of each session stay in order. */
  lemma {:induction false} RunKeepsCounters(cs: seq<Section>, id: string)
    requires PercentilesOk(cs)
    ensures CountersOk(GetOrCreate(AfterAll(map[], cs), id))
  {
    if cs == [] {
    } else {
      var before, c := cs[..|cs| - 1], cs[|cs| - 1];
      RunKeepsCounters(before, id);
      SectionOnSession(AfterAll(map[], before), c, id);
      FoldedKeepsCounters(GetOrCreate(AfterAll(map[], before), id), SubStream(MetricsOf(c), id));
    }
  }

  /** A score computed on a state between two sections has all four components and the total
      between 0 and 100, whatever the validator counts and the clock says. */
  lemma ScoresInRange(cs: seq<Section>, id: string, violations: int, r: Readings, log: real -> real)
    requires PercentilesOk(cs) && violations >= 0 && log(BEST_NS) < log(WORST_NS)
    ensures AllInRange(Compute(GetOrCreate(AfterAll(map[], cs), id), violations, r.elapsed, r.p99, log))
  {
    RunKeepsCounters(cs, id);
    ComputeInRange(GetOrCreate(AfterAll(map[], cs), id), violations, r.elapsed, r.p99, log);
  }

  /** The score as a function of a session and of what is read beside it. */
  function ScoreBy(log: real -> real): (Session, Readings) -> real
    requires log(BEST_NS) < log(WORST_NS)
  {
    (s, r) => TotalOf(s, r, log)
  }

  /** Section i gives a score that was computed on the state after j sections. */
  ghost predicate ComputedAt(cs: seq<Section>, i: nat, j: nat, score: (Session, Readings) -> real) {
    && j <= i < |cs| && cs[i].Scored?
    && exists r :: cs[i].total == score(GetOrCreate(AfterAll(map[], cs[..j]), cs[i].id), r)
  }

  /** Every score given was computed on some earlier state; other sections may have come
      between. */
  ghost predicate Computed(cs: seq<Section>, score: (Session, Readings) -> real) {
    forall i: nat :: i < |cs| && cs[i].Scored? ==> exists j: nat :: ComputedAt(cs, i, j, score)
  }

  lemma ComputedAtPrefix(cs: seq<Section>, ds: seq<Section>, i: nat, j: nat, score: (Session, Readings) -> real)
    requires ComputedAt(cs, i, j, score) && ds <= cs && i < |ds|
    ensures ComputedAt(ds, i, j, score)
  {
    assert ds[..j] == cs[..j];
  }

  lemma ComputedPrefix(cs: seq<Section>, ds: seq<Section>, score: (Session, Readings) -> real)
    requires Computed(cs, score) && ds <= cs
    ensures Computed(ds, score)
  {
    forall i: nat | i < |ds| && ds[i].Scored? ensures exists j: nat :: ComputedAt(ds, i, j, score) {
      var j: nat :| ComputedAt(cs, i, j, score);
      ComputedAtPrefix(cs, ds, i, j, score);
    }
  }

  ghost predicate Bounded(score: (Session, Readings) -> real) {
    forall s, r :: CountersOk(s) ==> InRange(score(s, r))
  }

  lemma ScoreByBounded(log: real -> real)
    requires log(BEST_NS) < log(WORST_NS)
    ensures Bounded(ScoreBy(log))
  {
    forall s, r | CountersOk(s) ensures InRange(ScoreBy(log)(s, r)) {
      ComputeInRange(s, 0, r.elapsed, r.p99, log);
    }
  }

  lemma ComputedInRange(cs: seq<Section>, i: nat, j: nat, score: (Session, Readings) -> real)
    requires PercentilesOk(cs) && ComputedAt(cs, i, j, score) && Bounded(score)
    ensures InRange(cs[i].total)
  {
    RunKeepsCounters(cs[..j], cs[i].id);
  }

  lemma {:induction false} TotalsInRange(cs: seq<Section>, id: string, score: (Session, Readings) -> real)
    requires PercentilesOk(cs) && Computed(cs, score) && Bounded(score)
    ensures forall x :: x in Totals(cs, id) ==> InRange(x)
  {
    if cs == [] {
    } else {
      var n := |cs| - 1;
      ComputedPrefix(cs, cs[..n], score);
      TotalsInRange(cs[..n], id, score);
      if cs[n].Scored? {
        var j: nat :| ComputedAt(cs, n, j, score);
        ComputedInRange(cs, n, j, score);
      }
    }
  }

  /** On every interleaving each point of every score history lies between 0 and 100, provided
      each score was computed on one state of the run. */
  lemma HistoryInRange(cs: seq<Section>, id: string, log: real -> real)
    requires log(BEST_NS) < log(WORST_NS) && PercentilesOk(cs) && Computed(cs, ScoreBy(log))
    ensures forall x :: x in GetOrCreate(AfterAll(map[], cs), id).scoreHistory ==> InRange(x)
  {
    HistoryIs(cs, id);
    ScoreByBounded(log);
    TotalsInRange(cs, id, ScoreBy(log));
  }

  // ---------------------------------------------------------------- reads without the lock

  /** What Compute sees when it reads the fills and, sections later, the correct fills. */
  function TornRead(early: Session, late: Session): Session {
    early.(correctFills := late.correctFills)
  }

  /** The score is computed without the lock. If sections come between its reads, correctness
      stays in range exactly when the correct fills have not overtaken the fills read before. */
  lemma TornReadIff(cs: seq<Section>, n: nat, id: string)
    requires PercentilesOk(cs) && n <= |cs|
    ensures var early, late := GetOrCreate(AfterAll(map[], cs[..n]), id), GetOrCreate(AfterAll(map[], cs), id);
            InRange(Correctness(TornRead(early, late), 0)) ==
              (early.totalFills == 0 || late.correctFills <= early.totalFills)
  {
    RunKeepsCounters(cs[..n], id);
    RunKeepsCounters(cs, id);
    var early, late := GetOrCreate(AfterAll(map[], cs[..n]), id), GetOrCreate(AfterAll(map[], cs), id);
    MixedInRangeIff(TornRead(early, late));
  }

  lemma MixedInRangeIff(s: Session)
    requires s.totalFills >= 0 && s.correctFills >= 0
    ensures InRange(Correctness(s, 0)) <==> s.totalFills == 0 || s.correctFills <= s.totalFills
  {
    if s.totalFills > 0 {
      assert ViolationRate(s, 0) == 0.0;
      PercentInRangeIff(s.correctFills, s.totalFills);
    }
  }

  lemma PercentInRangeIff(c: int, f: int)
    requires c >= 0 && f > 0
    ensures InRange(c as real / f as real * 100.0) <==> c <= f
  {
    var q := c as real / f as real;
    Quotient(c as real, f as real);
    assert q * f as real == c as real;
    if c <= f { RatioInRange(c, f); } else { assert (c - f) as real > 0.0; }
  }

  /** Deliveries of one correct fill each. */
  ghost predicate EachOneFill(cs: seq<Section>, m: RawMetric) {
    m.correct && m.fillQty > 0 && forall i :: 0 <= i < |cs| ==> cs[i] == Recorded([m])
  }

  lemma OneDelivery(sessions: map<string, Session>, m: RawMetric)
    ensures GetOrCreate(After(sessions, Recorded([m])), m.sessionId) == Record(GetOrCreate(sessions, m.sessionId), m)
  {
    var id := m.sessionId;
    assert [m][1..] == [];
    assert RecordAll(sessions, [m]) == RecordAll(sessions[id := Record(GetOrCreate(sessions, id), m)], []);
  }

  predicate AllCorrect(s: Session, n: nat) { s.totalFills == n && s.correctFills == n && s.chaosEndNs == 0 }

  lemma AllCorrectNext(s: Session, m: RawMetric, k: nat, n: nat)
    requires m.correct && m.fillQty > 0 && n == k + 1 && AllCorrect(s, k)
    ensures AllCorrect(Record(s, m), n)
  {
  }

  lemma {:induction false} EachOneFillCounts(cs: seq<Section>, m: RawMetric)
    requires EachOneFill(cs, m)
    ensures AllCorrect(GetOrCreate(AfterAll(map[], cs), m.sessionId), |cs|)
  {
    if cs == [] {
    } else {
      var before := cs[..|cs| - 1];
      EachOneFillCounts(before, m);
      OneDelivery(AfterAll(map[], before), m);
      AllCorrectNext(GetOrCreate(AfterAll(map[], before), m.sessionId), m, |before|, |cs|);
    }
  }

  /** It does overtake, and then nothing bounds the total: with the fills read after the first
      of n such deliveries and the correct fills after the last it is more than 25 times n. */
  lemma TornTotalUnbounded(cs: seq<Section>, m: RawMetric, r: Readings, log: real -> real)
    requires log(BEST_NS) < log(WORST_NS) && EachOneFill(cs, m) && cs != []
    ensures var early, late := GetOrCreate(AfterAll(map[], cs[..1]), m.sessionId),
                               GetOrCreate(AfterAll(map[], cs), m.sessionId);
            TotalOf(TornRead(early, late), r, log) > 25.0 * |cs| as real
  {
    EachOneFillCounts(cs[..1], m);
    EachOneFillCounts(cs, m);
    OneFillMany(GetOrCreate(AfterAll(map[], cs[..1]), m.sessionId), GetOrCreate(AfterAll(map[], cs), m.sessionId),
                |cs|, r, log);
  }

  lemma OneFillMany(early: Session, late: Session, n: nat, r: Readings, log: real -> real)
    requires log(BEST_NS) < log(WORST_NS) && AllCorrect(early, 1) && AllCorrect(late, n)
    ensures TotalOf(TornRead(early, late), r, log) > 25.0 * n as real
  {
    var s := TornRead(early, late);
    var c := Compute(s, 0, r.elapsed, r.p99, log);
    assert FillAccuracy(s) == n as real && ViolationRate(s, 0) == 0.0;
    assert c.correctness == 100.0 * n as real;
    assert c.resilience == 85.0 && c.throughput >= 0.0 && c.tailLatency >= 0.0;
  }
}
