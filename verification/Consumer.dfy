/** The metrics consumer: messages of a topic are decoded, collected, and delivered to the
    scorer in batches. */
module Consumer {
  import opened Sequences
  import opened Scoring
  import opened ScoringEngine

  const BATCH_LIMIT := 64

  /** What one turn of the select loop meets. Cancelled is only the turn in which the select
      itself sees the end of the context; an end that comes while a read is waiting makes that
      read fail. */
  datatype Turn = Cancelled | Tick | ReadFails | Undecodable | Message(m: RawMetric)

  predicate Stops(t: Turn) { t == Cancelled || t == ReadFails }

  predicate HasStop(turns: seq<Turn>) { exists i :: 0 <= i < |turns| && Stops(turns[i]) }

  /** The turn that stops the loop. */
  function StopAt(turns: seq<Turn>): (k: nat)
    requires HasStop(turns)
    ensures k < |turns| && Stops(turns[k]) && forall i :: 0 <= i < k ==> !Stops(turns[i])
  {
    if Stops(turns[0]) then 0
    else
      assert HasStop(turns[1..]) by {
        var i :| 0 <= i < |turns| && Stops(turns[i]);
        assert turns[1..][i - 1] == turns[i];
      }
      1 + StopAt(turns[1..])
  }

  /** The loop stops at the first cancelled select or failed read, and nowhere else: a message
      that cannot be decoded is passed over. */
  lemma StopsAtFirst(turns: seq<Turn>, k: nat)
    requires k < |turns| && turns[k] in {Cancelled, ReadFails}
    requires forall i :: 0 <= i < k ==> turns[i] !in {Cancelled, ReadFails}
    ensures HasStop(turns) && StopAt(turns) == k
  {
    assert Stops(turns[k]);
  }

  /** The decoded messages of some turns. */
  function Messages(ts: seq<Turn>): seq<RawMetric> {
    if ts == [] then []
    else
      var t := ts[|ts| - 1];
      Messages(ts[..|ts| - 1]) + (if t.Message? then [t.m] else [])
  }

  /** Those since the last tick. */
  function SinceTick(ts: seq<Turn>): seq<RawMetric> {
    if ts == [] then []
    else
      match ts[|ts| - 1]
      case Tick => []
      case Message(m) => SinceTick(ts[..|ts| - 1]) + [m]
      case _ => SinceTick(ts[..|ts| - 1])
  }

  /** What is left when full batches are taken off the front. */
  function Rest(ms: seq<RawMetric>): (r: seq<RawMetric>)
    ensures |r| < BATCH_LIMIT
  {
    if |ms| < BATCH_LIMIT then ms else Rest(ms[BATCH_LIMIT..])
  }

  function Tail(ts: seq<Turn>): seq<RawMetric> { Rest(SinceTick(ts)) }

  /** The batches that ticks and full batches deliver. */
  function Batches(ts: seq<Turn>): seq<seq<RawMetric>> {
    if ts == [] then []
    else
      var before := ts[..|ts| - 1];
      match ts[|ts| - 1]
      case Tick => if Tail(before) == [] then Batches(before) else Batches(before) + [Tail(before)]
      case Message(m) =>
        if |Tail(before)| + 1 == BATCH_LIMIT then Batches(before) + [Tail(before) + [m]] else Batches(before)
      case _ => Batches(before)
  }

  /** What has been delivered when the loop stops: a cancelled select flushes, a failed read
      does not. */
  function Deliveries(turns: seq<Turn>): seq<seq<RawMetric>>
    requires HasStop(turns)
  {
    Final(turns[..StopAt(turns)], turns[StopAt(turns)] == Cancelled)
  }

  function Final(ts: seq<Turn>, flushed: bool): seq<seq<RawMetric>> {
    if flushed && Tail(ts) != [] then Batches(ts) + [Tail(ts)] else Batches(ts)
  }

  /** Deliveries hold between one metric and a full batch. */
  ghost predicate Sized(delivered: seq<seq<RawMetric>>) {
    forall i :: 0 <= i < |delivered| ==> 0 < |delivered[i]| <= BATCH_LIMIT
  }

  lemma {:induction false} RestAppend(ms: seq<RawMetric>, m: RawMetric)
    ensures Rest(ms + [m]) == if |Rest(ms)| + 1 == BATCH_LIMIT then [] else Rest(ms) + [m]
  {
    var all := ms + [m];
    if |ms| < BATCH_LIMIT - 1 {
    } else if |ms| == BATCH_LIMIT - 1 {
      assert all[BATCH_LIMIT..] == [];
    } else {
      RestAppend(ms[BATCH_LIMIT..], m);
      assert all[BATCH_LIMIT..] == ms[BATCH_LIMIT..] + [m];
    }
  }

  lemma ModuloStep(n: int)
    requires n >= BATCH_LIMIT
    ensures n % BATCH_LIMIT == (n - BATCH_LIMIT) % BATCH_LIMIT
  {
  }

  lemma {:induction false} RestSize(ms: seq<RawMetric>)
    ensures |Rest(ms)| == |ms| % BATCH_LIMIT
  {
    if |ms| < BATCH_LIMIT {
    } else {
      RestSize(ms[BATCH_LIMIT..]);
      ModuloStep(|ms|);
    }
  }

  lemma TailAfter(ts: seq<Turn>, t: Turn)
    ensures Tail(ts + [t]) == match t
              case Tick => []
              case Message(m) => if |Tail(ts)| + 1 == BATCH_LIMIT then [] else Tail(ts) + [m]
              case _ => Tail(ts)
  {
    assert (ts + [t])[..|ts|] == ts;
    if t.Message? { RestAppend(SinceTick(ts), t.m); }
  }

  lemma BatchesAfter(ts: seq<Turn>, t: Turn)
    ensures Batches(ts + [t]) == match t
              case Tick => if Tail(ts) == [] then Batches(ts) else Batches(ts) + [Tail(ts)]
              case Message(m) =>
                if |Tail(ts)| + 1 == BATCH_LIMIT then Batches(ts) + [Tail(ts) + [m]] else Batches(ts)
              case _ => Batches(ts)
  {
    assert (ts + [t])[..|ts|] == ts;
  }

  /** One turn moves metrics from the tail to the batches, or takes one in. */
  lemma TurnKeeps<T>(held: seq<seq<T>>, tail: seq<T>, m: T)
    ensures Flatten(held + [tail]) + [] == Flatten(held) + tail
    ensures Flatten(held + [tail + [m]]) + [] == Flatten(held) + tail + [m] == Flatten(held) + (tail + [m])
  {
    FlattenAppend(held, tail);
    FlattenAppend(held, tail + [m]);
  }

  lemma MessagesAfter(ts: seq<Turn>, t: Turn)
    ensures Messages(ts + [t]) == if t.Message? then Messages(ts) + [t.m] else Messages(ts)
  {
    assert (ts + [t])[..|ts|] == ts;
  }

  /** One more turn keeps the account. */
  lemma AccountAfter(ts: seq<Turn>, t: Turn)
    requires Flatten(Batches(ts)) + Tail(ts) == Messages(ts) && Sized(Batches(ts))
    ensures Flatten(Batches(ts + [t])) + Tail(ts + [t]) == Messages(ts + [t]) && Sized(Batches(ts + [t]))
  {
    TailAfter(ts, t);
    BatchesAfter(ts, t);
    MessagesAfter(ts, t);
    if t.Message? {
      TurnKeeps(Batches(ts), Tail(ts), t.m);
    } else if t.Tick? {
      FlattenAppend(Batches(ts), Tail(ts));
      if Tail(ts) == [] { assert Flatten(Batches(ts)) + [] == Flatten(Batches(ts)); }
      AppendNothing(Flatten(Batches(ts)) + Tail(ts));
    }
  }

  lemma AppendNothing<T>(s: seq<T>)
    ensures s + [] == s
  {
  }

  /** Nothing decoded is lost or reordered while the loop runs. */
  lemma {:induction false} BatchesAndTail(ts: seq<Turn>)
    ensures Flatten(Batches(ts)) + Tail(ts) == Messages(ts) && Sized(Batches(ts))
  {
    if ts == [] {
    } else {
      BatchesAndTail(ts[..|ts| - 1]);
      AccountAfter(ts[..|ts| - 1], ts[|ts| - 1]);
      assert ts[..|ts| - 1] + [ts[|ts| - 1]] == ts;
    }
  }

  lemma AppendsNothingIff<T>(a: seq<T>, b: seq<T>)
    ensures a == a + b <==> |b| == 0
  {
    assert |a + b| == |a| + |b|;
  }

  /** When the loop stops, nothing decoded is lost if and only if the select saw the
      cancellation, or a multiple of 64 messages was decoded since the last tick. What is lost
      otherwise is exactly the tail behind the last full batch. */
  lemma LosslessIff(turns: seq<Turn>)
    requires HasStop(turns)
    ensures var k := StopAt(turns);
            var kept, decoded := Flatten(Deliveries(turns)), Messages(turns[..k]);
            && (forall i :: 0 <= i < |Deliveries(turns)| ==> 1 <= |Deliveries(turns)[i]| <= 64)
            && (kept == decoded <==> turns[k] == Cancelled || |SinceTick(turns[..k])| % 64 == 0)
            && (turns[k] == ReadFails ==> kept + Tail(turns[..k]) == decoded)
  {
    FinalKeeps(turns[..StopAt(turns)], turns[StopAt(turns)] == Cancelled);
  }

  lemma FinalKeeps(ts: seq<Turn>, flushed: bool)
    ensures Sized(Final(ts, flushed))
    ensures Flatten(Final(ts, flushed)) == Messages(ts) <==> flushed || |SinceTick(ts)| % BATCH_LIMIT == 0
    ensures !flushed ==> Flatten(Final(ts, flushed)) + Tail(ts) == Messages(ts)
  {
    BatchesAndTail(ts);
    RestSize(SinceTick(ts));
    FlattenAppend(Batches(ts), Tail(ts));
    AppendsNothingIff(Flatten(Batches(ts)), Tail(ts));
  }

  lemma {:induction false} MessagesConcat(ts: seq<Turn>, us: seq<Turn>)
    ensures Messages(ts + us) == Messages(ts) + Messages(us)
  {
    if us == [] {
      assert ts + us == ts;
      AppendNothing(Messages(ts));
    } else {
      var n := |us| - 1;
      assert (ts + us)[..|ts + us| - 1] == ts + us[..n];
      MessagesConcat(ts, us[..n]);
    }
  }

  /** What is decoded: of every turn with a message that message, of any other nothing. */
  lemma MessagesAre(ts: seq<Turn>, t: Turn, us: seq<Turn>)
    ensures Messages(ts + [t] + us) == Messages(ts) + (if t.Message? then [t.m] else []) + Messages(us)
  {
    MessagesConcat(ts + [t], us);
    MessagesAfter(ts, t);
    AppendNothing(Messages(ts));
  }

  lemma {:induction false} SinceTickIs(ts: seq<Turn>, us: seq<Turn>)
    requires (ts == [] || ts[|ts| - 1] == Tick) && forall i :: 0 <= i < |us| ==> us[i] != Tick
    ensures SinceTick(ts + us) == Messages(us)
  {
    if us == [] {
      assert ts + us == ts;
    } else {
      var n := |us| - 1;
      assert (ts + us)[..|ts + us| - 1] == ts + us[..n];
      SinceTickIs(ts, us[..n]);
      AppendNothing(Messages(us[..n]));
    }
  }

  /** A tick delivers everything decoded so far; of the messages after it, whole batches of 64
      are delivered and the rest waits. */
  lemma TickDelivers(ts: seq<Turn>, us: seq<Turn>) returns (waiting: nat)
    requires forall i :: 0 <= i < |us| ==> us[i] != Tick
    ensures Flatten(Batches(ts + [Tick])) == Messages(ts)
    ensures waiting == |Messages(us)| % 64
    ensures Flatten(Batches(ts + [Tick] + us)) + Tail(ts + [Tick] + us) == Messages(ts) + Messages(us)
    ensures |Tail(ts + [Tick] + us)| == waiting
  {
    BatchesAndTail(ts + [Tick]);
    TailAfter(ts, Tick);
    MessagesAre(ts, Tick, []);
    assert ts + [Tick] + [] == ts + [Tick];
    BatchesAndTail(ts + [Tick] + us);
    MessagesAre(ts, Tick, us);
    AppendNothing(Messages(ts));
    AppendNothing(Flatten(Batches(ts + [Tick])));
    SinceTickIs(ts + [Tick], us);
    RestSize(SinceTick(ts + [Tick] + us));
    waiting := |Messages(us)| % 64;
  }

  /** The smallest loss: a message, then a read that fails, be it for a cancellation. */
  lemma FailedReadLoses(m: RawMetric)
    ensures var turns := [Message(m), ReadFails];
            HasStop(turns) && Messages(turns[..StopAt(turns)]) == [m] && Deliveries(turns) == []
  {
    var turns := [Message(m), ReadFails];
    assert Stops(turns[1]) && !Stops(turns[0]);
    var k := StopAt(turns);
    assert k == 1 && turns[..1] == [] + [Message(m)];
    BatchesAfter([], Message(m));
    assert Messages([Message(m)]) == Messages([Message(m)][..0]) + [m];
    assert [Message(m)][..0] == [] && [] + [m] == [m];
  }

  /** What turn n does to the tail and the batches. */
  lemma TurnTaken(turns: seq<Turn>, n: nat)
    requires n < |turns|
    ensures var tail, held := Tail(turns[..n]), Batches(turns[..n]);
            (Tail(turns[..n + 1]), Batches(turns[..n + 1])) == match turns[n]
              case Tick => ([], if tail == [] then held else held + [tail])
              case Message(m) => if |tail| + 1 == BATCH_LIMIT then ([], held + [tail + [m]]) else (tail + [m], held)
              case _ => (tail, held)
  {
    PrefixStep(turns, n);
    TailAfter(turns[..n], turns[n]);
    BatchesAfter(turns[..n], turns[n]);
  }

  class MetricsConsumer {
    var batch: seq<RawMetric>
    var delivered: seq<seq<RawMetric>>  // the calls made to Handle, in order

    constructor ()
      ensures batch == [] && delivered == []
    {
      batch, delivered := [], [];
    }

    /** An error of Handle is logged only: the batch counts as delivered either way. */
    method Flush()
      modifies this
      ensures batch == []
      ensures delivered == if old(batch) == [] then old(delivered) else old(delivered) + [old(batch)]
    {
      if |batch| == 0 {
        return;
      }
      delivered := delivered + [batch];
      batch := [];
    }

    /** The loop over the turns, up to the one that stops it. Exactly the batches of the
        specification are delivered; the tail stays behind when a read fails. */
    method ReadMetrics(turns: seq<Turn>)
      requires batch == [] && delivered == [] && HasStop(turns)
      modifies this
      ensures delivered == Deliveries(turns)
      ensures batch == if turns[StopAt(turns)] == Cancelled then [] else Tail(turns[..StopAt(turns)])
    {
      var n := 0;
      while true
        invariant n <= StopAt(turns)
        invariant delivered == Batches(turns[..n]) && batch == Tail(turns[..n])
        decreases |turns| - n
      {
        TurnTaken(turns, n);
        match turns[n] {
          case Cancelled =>
            Flush();
            return;
          case ReadFails =>
            return;
          case Tick =>
            Flush();
          case Undecodable =>
          case Message(m) =>
            batch := batch + [m];
            if |batch| >= BATCH_LIMIT {
              Flush();
            }
        }
        n := n + 1;
      }
    }
  }

  /** The deliveries of the metrics topic in a run of the engine. */
  function BatchesIn(cs: seq<Section>): seq<seq<RawMetric>> {
    if cs == [] then []
    else BatchesIn(cs[..|cs| - 1]) + (if cs[|cs| - 1].Recorded? then [cs[|cs| - 1].metrics] else [])
  }

  lemma {:induction false} BatchesAreStream(cs: seq<Section>)
    ensures Flatten(BatchesIn(cs)) == BotStream(cs)
  {
    if cs == [] {
    } else {
      var before, c := cs[..|cs| - 1], cs[|cs| - 1];
      BatchesAreStream(before);
      if c.Recorded? {
        FlattenAppend(BatchesIn(before), c.metrics);
      } else {
        assert BatchesIn(before) + [] == BatchesIn(before) && BotStream(before) + [] == BotStream(before);
      }
    }
  }

  /** Consumer and engine together, with the kernel probe's records and chaos events arriving
      in between anywhere: each session's name, fills, largest bot count, archetype counts and
      app times are those of its decoded metrics; if a failed read stopped the loop, those
      before the tail. */
  lemma DeliveredAsDecoded(turns: seq<Turn>, cs: seq<Section>, id: string)
    returns (kept: seq<RawMetric>)
    requires HasStop(turns) && BatchesIn(cs) == Deliveries(turns)
    ensures var decoded := Messages(turns[..StopAt(turns)]);
            if turns[StopAt(turns)] == Cancelled then kept == decoded
            else kept + Tail(turns[..StopAt(turns)]) == decoded
    ensures BotSummary(GetOrCreate(AfterAll(map[], cs), id), SubStream(kept, id))
    ensures GetOrCreate(AfterAll(map[], cs), id).orderCount == |SubStream(kept, id)| + KernelCount(cs, id)
  {
    kept := Flatten(Deliveries(turns));
    LosslessIff(turns);
    BatchesAreStream(cs);
    var bots, all := SessionOverAnyRun(cs, id);
  }
}
