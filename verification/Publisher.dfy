/** The fleet's metrics publisher: every metric taken off the channel becomes a pair of
    messages, one per topic, and messages are handed to the writer in batches. */
module Publisher {

  /** A price as the fleet sees it; one that is not finite cannot be marshalled. */
  datatype Price = Finite(value: real) | NotFinite

  datatype Metric = Metric(orderId: string, appRttNs: int, correct: bool, fillPrice: Price, fillQty: int)

  /** A metric together with the active-bot count read while it is processed. */
  datatype Received = Received(metric: Metric, activeBots: int)

  datatype Payload = Payload(metric: Metric, replaySeq: nat, activeBots: int)

  /** A message for the metrics topic, keyed by session, or for the replay topic, keyed by
      the replay sequence number. */
  datatype Message = ForMetrics(payload: Payload) | ForReplay(key: nat, payload: Payload)

  const BATCH_LIMIT := 256

  predicate Marshals(m: Metric) { m.fillPrice.Finite? }

  /** The pair of messages for the n-th metric; none when it does not marshal. */
  function Messages(r: Received, n: nat): seq<Message> {
    if Marshals(r.metric) then
      var p := Payload(r.metric, n, r.activeBots);
      [ForMetrics(p), ForReplay(n, p)]
    else []
  }

  /** All messages for a list of metrics, numbered 1, 2, ... in order. */
  function Published(rs: seq<Received>): seq<Message> {
    if rs == [] then [] else Published(rs[..|rs| - 1]) + Messages(rs[|rs| - 1], |rs|)
  }

  /** When every metric marshals, metric i is the pair at 2i and 2i+1, numbered i+1 with no gap. */
  lemma {:induction false} PublishedExactly(rs: seq<Received>, i: nat)
    requires AllMarshal(rs) && i < |rs|
    ensures |Published(rs)| == 2 * |rs|
    ensures var p := Payload(rs[i].metric, i + 1, rs[i].activeBots);
            Published(rs)[2 * i] == ForMetrics(p) && Published(rs)[2 * i + 1] == ForReplay(i + 1, p)
  {
    CompleteIff(rs);
    var n := |rs| - 1;
    if i < n {
      PublishedExactly(rs[..n], i);
    } else {
      CompleteIff(rs[..n]);
    }
  }

  /** Every price is finite. */
  ghost predicate AllMarshal(rs: seq<Received>) { forall j :: 0 <= j < |rs| ==> rs[j].metric.fillPrice.Finite? }

  lemma AllMarshalNext(rs: seq<Received>, r: Received)
    ensures AllMarshal(rs + [r]) <==> AllMarshal(rs) && Marshals(r.metric)
  {
    var all := rs + [r];
    if AllMarshal(all) {
      assert all[|rs|] == r && forall j :: 0 <= j < |rs| ==> rs[j] == all[j];
    }
  }

  lemma PublishedNext(rs: seq<Received>, r: Received)
    ensures |Published(rs + [r])| == |Published(rs)| + (if Marshals(r.metric) then 2 else 0)
  {
    assert (rs + [r])[..|rs|] == rs;
  }

  /** The count of messages is complete exactly when every metric marshals. */
  lemma {:induction false} CompleteIff(rs: seq<Received>)
    ensures |Published(rs)| <= 2 * |rs| && |Published(rs)| % 2 == 0
    ensures |Published(rs)| == 2 * |rs| <==> AllMarshal(rs)
  {
    if rs == [] {
    } else {
      var before, r := rs[..|rs| - 1], rs[|rs| - 1];
      CompleteIff(before);
      AllMarshalNext(before, r);
      PublishedNext(before, r);
      assert before + [r] == rs;
    }
  }

  /** Which of the first n metrics have a finite price. */
  ghost function FiniteOnes(rs: seq<Received>, n: nat): (js: set<int>)
    requires n <= |rs|
    ensures forall j :: j in js <==> 0 <= j < n && rs[j].metric.fillPrice.Finite?
  {
    set j | 0 <= j < n && rs[j].metric.fillPrice.Finite?
  }

  lemma FiniteOnesNext(rs: seq<Received>, n: nat, m: nat)
    requires m == n + 1 <= |rs|
    ensures |FiniteOnes(rs, m)| == |FiniteOnes(rs, n)| + (if rs[n].metric.fillPrice.Finite? then 1 else 0)
  {
    assert FiniteOnes(rs, m) == FiniteOnes(rs, n) + (if rs[n].metric.fillPrice.Finite? then {n as int} else {});
  }

  lemma {:induction false} PublishedSize(rs: seq<Received>, n: nat)
    requires n <= |rs|
    ensures |Published(rs[..n])| == 2 * |FiniteOnes(rs, n)|
  {
    if n == 0 {
      assert FiniteOnes(rs, 0) == {};
    } else {
      PublishedSize(rs, n - 1);
      PublishedNext(rs[..n - 1], rs[n - 1]);
      assert rs[..n] == rs[..n - 1] + [rs[n - 1]];
      FiniteOnesNext(rs, n - 1, n);
    }
  }

  lemma {:induction false} PublishedPrefix(rs: seq<Received>, n: nat)
    requires n <= |rs|
    ensures Published(rs[..n]) <= Published(rs)
    decreases |rs| - n
  {
    if n == |rs| {
      assert rs[..n] == rs;
    } else {
      PublishedPrefix(rs, n + 1);
      assert rs[..n + 1][..n] == rs[..n];
    }
  }

  /** Whatever other metrics cannot be marshalled: a metric with a finite price becomes a pair of
      messages behind those of the finite ones before it, numbered by its place among all. */
  lemma PublishedAt(rs: seq<Received>, i: nat) returns (k: nat)
    requires i < |rs| && rs[i].metric.fillPrice.Finite?
    ensures k == |set j | 0 <= j < i && rs[j].metric.fillPrice.Finite?|
    ensures |Published(rs)| >= 2 * k + 2
    ensures var p := Payload(rs[i].metric, i + 1, rs[i].activeBots);
            Published(rs)[2 * k] == ForMetrics(p) && Published(rs)[2 * k + 1] == ForReplay(i + 1, p)
  {
    k := |FiniteOnes(rs, i)|;
    assert FiniteOnes(rs, i) == set j | 0 <= j < i && rs[j].metric.fillPrice.Finite?;
    PublishedSize(rs, i);
    PublishedPrefix(rs, i + 1);
    assert rs[..i + 1][..i] == rs[..i] && rs[..i + 1][i] == rs[i];
  }

  /** What the publisher has taken in, holds, and has handed to the writer. */
  datatype State = State(received: seq<Received>, batch: seq<Message>, written: seq<Message>)

  const START := State([], [], [])

  function Flushed(s: State): State { s.(batch := [], written := s.written + s.batch) }

  function Taken(s: State, r: Received): State {
    var t := s.(received := s.received + [r], batch := s.batch + Messages(r, |s.received| + 1));
    if |t.batch| >= BATCH_LIMIT then Flushed(t) else t
  }

  /** Nothing is lost or reordered, and the batch is even and below the limit. */
  ghost predicate Exact(s: State) {
    s.written + s.batch == Published(s.received) && |s.batch| % 2 == 0 && |s.batch| < BATCH_LIMIT
  }

  lemma TakenKeepsExact(s: State, r: Received)
    requires Exact(s)
    ensures Exact(Taken(s, r)) && |s.batch + Messages(r, |s.received| + 1)| <= BATCH_LIMIT
  {
    var rs, n := s.received + [r], |s.received|;
    assert rs[..n] == s.received;
    var b := s.batch + Messages(r, n + 1);
    assert s.written + b == Published(rs);
    if |b| >= BATCH_LIMIT { assert s.written + b + [] == s.written + b; }
  }

  /** When a receive flushes: when it fills the batch up to 256 messages. All else stays in the
      batch for the next flush. */
  lemma FlushesAt256(s: State, r: Received)
    requires Exact(s)
    ensures var t := Taken(s, r);
            && t.received == s.received + [r] && |s.batch| <= 254
            && if r.metric.fillPrice.Finite? && |s.batch| == 254 then
                 t.batch == [] && |t.written| == |s.written| + 256
               else
                 t.written == s.written
                 && |t.batch| == |s.batch| + (if r.metric.fillPrice.Finite? then 2 else 0)
  {
  }

  lemma FlushedKeepsExact(s: State)
    requires Exact(s)
    ensures Exact(Flushed(s)) && Flushed(s).written == Published(s.received)
  {
    assert s.written + s.batch + [] == s.written + s.batch;
  }

  /** What the select statement of the loop comes back with. */
  datatype Event = Metrics(r: Received) | Tick | Closed

  /** The metrics a loop over these events takes in: those before the first close. */
  ghost function TakenIn(events: seq<Event>): seq<Received> {
    if events == [] || events[0] == Closed then []
    else (if events[0].Metrics? then [events[0].r] else []) + TakenIn(events[1..])
  }

  /** That is: ticks bring nothing and end nothing, a metric comes in, the close ends it. */
  lemma {:induction false} TakenInIs(before: seq<Event>, e: Event, behind: seq<Event>)
    requires forall i :: 0 <= i < |before| ==> before[i] != Closed
    ensures TakenIn(before + [e] + behind) == TakenIn(before) +
              (match e
               case Closed => []
               case Tick => TakenIn(behind)
               case Metrics(r) => [r] + TakenIn(behind))
    decreases |before|
  {
    var all := before + [e] + behind;
    if before == [] {
      assert all[0] == e && all[1..] == behind;
      if e.Tick? { assert [] + TakenIn(behind) == TakenIn(behind); }
    } else {
      assert all[0] == before[0] && all[1..] == before[1..] + [e] + behind;
      TakenInIs(before[1..], e, behind);
    }
  }

  /** Event n of a loop that has taken in `received` so far. */
  lemma {:induction false} TakesIn(events: seq<Event>, n: nat, received: seq<Received>)
    requires n < |events| && received + TakenIn(events[n..]) == TakenIn(events)
    ensures match events[n]
      case Closed => received == TakenIn(events)
      case Metrics(r) => received + [r] + TakenIn(events[n + 1..]) == TakenIn(events)
      case Tick => received + TakenIn(events[n + 1..]) == TakenIn(events)
  {
    assert events[n..][0] == events[n] && events[n..][1..] == events[n + 1..];
    match events[n] {
      case Closed => assert received + [] == received;
      case Metrics(r) =>
        assert received + ([r] + TakenIn(events[n + 1..])) == received + [r] + TakenIn(events[n + 1..]);
      case Tick => assert [] + TakenIn(events[n + 1..]) == TakenIn(events[n + 1..]);
    }
  }

  class MetricsPublisher {
    var batch: seq<Message>
    var ordersSent: int
    var replaySeq: int
    var written: seq<Message>       // handed to the Kafka writer so far
    ghost var received: seq<Received>

    ghost function Abs(): State
      reads this
    {
      State(received, batch, written)
    }

    ghost predicate Valid()
      reads this
    {
      ordersSent == replaySeq == |received| && Exact(Abs())
    }

    constructor ()
      ensures Valid() && Abs() == START
    {
      batch, ordersSent, replaySeq, written, received := [], 0, 0, [], [];
    }

    /** Whether or not the write succeeds, the batch is handed over once and emptied. */
    method Flush()
      requires ordersSent == replaySeq == |received|
      modifies `batch, `written
      ensures Abs() == Flushed(old(Abs()))
    {
      if |batch| == 0 {
        return;
      }
      written := written + batch;
      batch := [];
    }

    method Receive(r: Received)
      requires Valid()
      modifies this
      ensures Valid() && Abs() == Taken(old(Abs()), r)
    {
      TakenKeepsExact(Abs(), r);
      ordersSent := ordersSent + 1;
      replaySeq := replaySeq + 1;
      received := received + [r];
      if !Marshals(r.metric) {
        assert old(batch) + [] == old(batch);
        return;
      }
      var payload := Payload(r.metric, replaySeq, r.activeBots);
      batch := batch + [ForMetrics(payload), ForReplay(replaySeq, payload)];
      if |batch| >= BATCH_LIMIT {
        Flush();
      }
    }

    /** The publishing loop over one sequence of select outcomes, up to the close. */
    method PublishMetrics(events: seq<Event>)
      requires Valid() && Abs() == START
      requires events != [] && events[|events| - 1] == Closed
      modifies this
      ensures Valid() && received == TakenIn(events)
      ensures batch == [] && written == Published(TakenIn(events))
    {
      var n := 0;
      assert events[n..] == events;
      while true
        invariant 0 <= n < |events| && events[|events| - 1] == Closed
        invariant Valid()
        invariant received + TakenIn(events[n..]) == TakenIn(events)
        decreases |events| - n
      {
        TakesIn(events, n, received);
        FlushedKeepsExact(Abs());
        match events[n] {
          case Closed =>
            Flush();
            return;
          case Metrics(r) =>
            Receive(r);
          case Tick =>
            Flush();
        }
        n := n + 1;
      }
    }
  }
}
