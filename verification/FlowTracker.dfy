/** The kernel flow tracker: ingress packets stamp a table, egress packets of the reverse
    flow take the stamp out and emit an event. Hook executions are atomic, entries of the
    table may be evicted at any time, and the event buffer may be full. */
module FlowTracker {
  import opened Options

  datatype Flow = Flow(saddr: bv32, daddr: bv32, sport: bv16, dport: bv16, proto: bv8)

  datatype Event = Event(flow: Flow, rttNs: int, ingressNs: int, egressNs: int)

  /** A packet seen by one of the hooks, with the clock reading, or an eviction. `room` says
      whether the event buffer has space. Packets that do not parse leave no trace. */
  datatype Action =
    | Ingress(flow: Flow, now: int)
    | Egress(flow: Flow, now: int, room: bool)
    | Evict(flow: Flow)

  const TWO_64: int := 0x1_0000_0000_0000_0000
  const STALE_NS := 5_000_000_000

  /** The response flow is the reverse of the request flow. */
  function Reverse(f: Flow): Flow { Flow(f.daddr, f.saddr, f.dport, f.sport, f.proto) }

  /** Unsigned 64-bit difference. */
  function Rtt(now: int, ingress: int): int { (now - ingress) % TWO_64 }

  /** The event an action emits on a table. */
  function Emits(table: map<Flow, int>, a: Action): Option<Event> {
    if a.Egress? && Reverse(a.flow) in table && a.room && Rtt(a.now, table[Reverse(a.flow)]) <= STALE_NS then
      var key := Reverse(a.flow);
      Some(Event(key, Rtt(a.now, table[key]), table[key], a.now))
    else None
  }

  /** The table after an action: a full event buffer leaves the entry in place. */
  function After(table: map<Flow, int>, a: Action): map<Flow, int> {
    match a
    case Ingress(f, now) => table[f := now]
    case Evict(f) => table - {f}
    case Egress(f, now, room) =>
      var key := Reverse(f);
      if key in table && (room || Rtt(now, table[key]) > STALE_NS) then table - {key} else table
  }

  class Tracker {
    var ingressTs: map<Flow, int>
    var events: seq<Event>

    constructor ()
      ensures ingressTs == map[] && events == []
    {
      ingressTs, events := map[], [];
    }

    method TcIngress(flow: Flow, now: int)
      modifies this
      ensures ingressTs == After(old(ingressTs), Ingress(flow, now)) && events == old(events)
    {
      ingressTs := ingressTs[flow := now];
    }

    method TcEgress(flow: Flow, now: int, room: bool)
      modifies this
      ensures ingressTs == After(old(ingressTs), Egress(flow, now, room))
      ensures events == match Emits(old(ingressTs), Egress(flow, now, room))
                        case None => old(events)
                        case Some(e) => old(events) + [e]
    {
      var key := Reverse(flow);
      if key !in ingressTs {
        return;
      }
      var rtt := Rtt(now, ingressTs[key]);
      if rtt > STALE_NS {
        ingressTs := ingressTs - {key};
        return;
      }
      if !room {
        return;
      }
      events := events + [Event(key, rtt, ingressTs[key], now)];
      ingressTs := ingressTs - {key};
    }
  }

  // ---------------------------------------------------------------- traces

  function Table(trace: seq<Action>, n: nat): map<Flow, int>
    requires n <= |trace|
  {
    if n == 0 then map[] else After(Table(trace, n - 1), trace[n - 1])
  }

  /** The event emitted by action i of a trace. */
  function Emitted(trace: seq<Action>, i: nat): Option<Event>
    requires i < |trace|
  {
    Emits(Table(trace, i), trace[i])
  }

  /** Clock readings are 64-bit and never go back. */
  ghost predicate Monotonic(trace: seq<Action>) {
    && (forall i :: 0 <= i < |trace| && !trace[i].Evict? ==> 0 <= trace[i].now < TWO_64)
    && (forall i, j :: 0 <= i < j < |trace| && !trace[i].Evict? && !trace[j].Evict? ==> trace[i].now <= trace[j].now)
  }

  /** Action k ends what ingress j of flow f started: a new ingress, an eviction, an event for
      f, or an egress that finds the stamp stale. */
  ghost predicate Ends(trace: seq<Action>, f: Flow, j: nat, k: nat)
    requires j < k < |trace| && trace[j].Ingress?
  {
    match trace[k]
    case Ingress(g, _) => g == f
    case Evict(g) => g == f
    case Egress(g, now, _) =>
      Reverse(g) == f && (Emitted(trace, k).Some? || Rtt(now, trace[j].now) > STALE_NS)
  }

  /** j is an ingress of f that nothing has ended before action n. */
  ghost predicate Live(trace: seq<Action>, f: Flow, j: nat, n: nat)
    requires n <= |trace|
  {
    && j < n && trace[j].Ingress? && trace[j].flow == f
    && forall k :: j < k < n ==> !Ends(trace, f, j, k)
  }

  /** The table holds exactly the live ingresses: one stamp for each flow that has one. */
  lemma {:induction false} TableIsLive(trace: seq<Action>, f: Flow, n: nat) returns (j: nat)
    requires n <= |trace| && f in Table(trace, n)
    ensures Live(trace, f, j, n) && Table(trace, n)[f] == trace[j].now
  {
    var a := trace[n - 1];
    if a.Ingress? && a.flow == f {
      j := n - 1;
    } else {
      j := TableIsLive(trace, f, n - 1);
    }
  }

  lemma {:induction false} LiveIsInTable(trace: seq<Action>, f: Flow, j: nat, n: nat)
    requires n <= |trace| && Live(trace, f, j, n)
    ensures f in Table(trace, n) && Table(trace, n)[f] == trace[j].now
  {
    if j < n - 1 {
      LiveIsInTable(trace, f, j, n - 1);
      assert !Ends(trace, f, j, n - 1);
    }
  }

  /** Every event pairs with the latest ingress of its flow, which nothing ended in between:
      no eviction, no other event. Its round trip is the time between the two, at most 5 s. */
  lemma EventPairs(trace: seq<Action>, i: nat) returns (j: nat)
    requires Monotonic(trace) && i < |trace| && Emitted(trace, i).Some?
    ensures var e := Emitted(trace, i).value;
            && var Flow(saddr, daddr, sport, dport, proto) := trace[i].flow;
            && trace[i].Egress? && e.flow == Flow(daddr, saddr, dport, sport, proto) && e.egressNs == trace[i].now
            && Live(trace, e.flow, j, i) && e.ingressNs == trace[j].now
            && e.rttNs == e.egressNs - e.ingressNs && 0 <= e.rttNs <= 5_000_000_000
  {
    j := TableIsLive(trace, Reverse(trace[i].flow), i);
    assert 0 <= trace[i].now - trace[j].now < TWO_64;
  }

  /** No ingress yields two events: the ingress of a later event of the same flow comes
      after the earlier event. */
  lemma OneEventPerIngress(trace: seq<Action>, f: Flow, i: nat, i': nat, j': nat)
    requires i < i' < |trace|
    requires Emitted(trace, i).Some? && Emitted(trace, i).value.flow == f
    requires Live(trace, f, j', i')
    ensures i < j'
  {
    assert j' < i ==> Ends(trace, f, j', i);
  }

  /** An egress emits an event exactly when some ingress of the reverse flow is live, is at
      most 5 s old, and the event buffer has room. */
  lemma EmitsIff(trace: seq<Action>, i: nat)
    requires Monotonic(trace) && i < |trace| && trace[i].Egress?
    ensures Emitted(trace, i).Some? <==>
            var Flow(saddr, daddr, sport, dport, proto) := trace[i].flow;
            trace[i].room && exists j: nat :: Live(trace, Flow(daddr, saddr, dport, sport, proto), j, i)
                                      && trace[i].now - trace[j].now <= 5_000_000_000
  {
    var f := Reverse(trace[i].flow);
    if Emitted(trace, i).Some? {
      var j := EventPairs(trace, i);
      assert Live(trace, f, j, i);
    }
    if trace[i].room && exists j: nat :: Live(trace, f, j, i) && trace[i].now - trace[j].now <= STALE_NS {
      var j: nat :| Live(trace, f, j, i) && trace[i].now - trace[j].now <= STALE_NS;
      LiveIsInTable(trace, f, j, i);
      assert 0 <= trace[i].now - trace[j].now < TWO_64;
    }
  }

  // ---------------------------------------------------------------- in terms of packets

  /** Nothing between j and i takes the stamp of the request at j away: no request of the same
      flow, no eviction, and no response to it that is emitted or comes more than 5 s late. */
  ghost predicate StampStays(trace: seq<Action>, request: Flow, response: Flow, j: nat, i: nat)
    requires j < i <= |trace| && trace[j].Ingress?
  {
    forall k :: j < k < i ==>
      && !(trace[k].Ingress? && trace[k].flow == request) && trace[k] != Evict(request)
      && !(trace[k].Egress? && trace[k].flow == response
           && (trace[k].room || trace[k].now - trace[j].now > 5_000_000_000))
  }

  /** The event e says how long the response at i came after the request at j. */
  ghost predicate Times(trace: seq<Action>, i: nat, j: nat, request: Flow, e: Event)
    requires i < |trace| && trace[i].Egress?
  {
    && j < i && trace[j].Ingress? && trace[j].flow == request && StampStays(trace, request, trace[i].flow, j, i)
    && trace[i].now - trace[j].now <= 5_000_000_000
    && e == Event(request, trace[i].now - trace[j].now, trace[j].now, trace[i].now)
  }

  /** What an egress does that meets a live ingress of the reverse flow. */
  lemma MeetsLive(trace: seq<Action>, f: Flow, j: nat, i: nat)
    requires Monotonic(trace) && i < |trace| && Live(trace, f, j, i)
    requires trace[i].Egress? && trace[i].flow == Flow(f.daddr, f.saddr, f.dport, f.sport, f.proto)
    ensures var d := trace[i].now - trace[j].now;
            Emitted(trace, i) == if trace[i].room && d <= 5_000_000_000
                                 then Some(Event(f, d, trace[j].now, trace[i].now)) else None
    ensures Rtt(trace[i].now, trace[j].now) == trace[i].now - trace[j].now
  {
    LiveIsInTable(trace, f, j, i);
    assert 0 <= trace[i].now - trace[j].now < TWO_64;
  }

  lemma {:induction false} StampIsLive(trace: seq<Action>, f: Flow, j: nat, i: nat)
    requires Monotonic(trace) && j < i <= |trace| && trace[j].Ingress? && trace[j].flow == f
    ensures StampStays(trace, f, Flow(f.daddr, f.saddr, f.dport, f.sport, f.proto), j, i) <==> Live(trace, f, j, i)
  {
    if i > j + 1 {
      StampIsLive(trace, f, j, i - 1);
      var response := Flow(f.daddr, f.saddr, f.dport, f.sport, f.proto);
      assert StampStays(trace, f, response, j, i) ==> StampStays(trace, f, response, j, i - 1);
      assert Live(trace, f, j, i) <==> Live(trace, f, j, i - 1) && !Ends(trace, f, j, i - 1);
      if Live(trace, f, j, i - 1) && trace[i - 1].Egress? && trace[i - 1].flow == response {
        MeetsLive(trace, f, j, i - 1);
      }
    }
  }

  /** Over every trace with evictions and full buffers anywhere: a response is timed against a
      request exactly when addresses and ports are swapped, the stamp of the request is still
      there, at most 5 s lie between, and the buffer has room; and the event says so. */
  lemma TimedIff(trace: seq<Action>, i: nat, saddr: bv32, daddr: bv32, sport: bv16, dport: bv16, proto: bv8, e: Event)
    requires Monotonic(trace) && i < |trace|
    requires trace[i].Egress? && trace[i].flow == Flow(daddr, saddr, dport, sport, proto)
    ensures Emitted(trace, i) == Some(e) <==>
            trace[i].room && exists j: nat :: Times(trace, i, j, Flow(saddr, daddr, sport, dport, proto), e)
  {
    var f := Flow(saddr, daddr, sport, dport, proto);
    if Emitted(trace, i) == Some(e) {
      var j := EventPairs(trace, i);
      StampIsLive(trace, f, j, i);
      MeetsLive(trace, f, j, i);
      assert Times(trace, i, j, f, e);
    }
    if j: nat :| Times(trace, i, j, f, e) {
      StampIsLive(trace, f, j, i);
      MeetsLive(trace, f, j, i);
    }
  }
}
