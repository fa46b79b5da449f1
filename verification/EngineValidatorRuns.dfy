/** Runs of engine and validator together: every list of orders has one, and two lists whose
    runs the validator rejects. */
module EngineValidatorRuns {
  import opened Sequences
  import opened Matching
  import opened EngineMeetsValidator
  import opened EngineVerdicts
  import P = PriceTime

  // ---------------------------------------------------------------- runs exist

  /** A place for x in a sorted side: behind everything it is not before. */
  lemma {:induction false} PlaceFor(side: seq<Lot>, x: Lot, bids: bool, n: nat) returns (k: nat)
    requires n <= |side| && forall i :: n <= i < |side| ==> Before(bids, x, side[i])
    ensures k <= |side| && (k > 0 ==> !Before(bids, x, side[k - 1]))
    ensures forall i :: k <= i < |side| ==> Before(bids, x, side[i])
  {
    if n == 0 || !Before(bids, x, side[n - 1]) {
      k := n;
    } else {
      k := PlaceFor(side, x, bids, n - 1);
    }
  }

  /** Every match has an outcome. */
  lemma MatchExists(b: Book, o: Submission) returns (b': Book)
    requires BookOk(b)
    ensures Matched(b, o, b') && BookOk(b')
  {
    var s, own := Outcome(b, o), b.Side(o.buy);
    var left := o.lot.(qty := s.left);
    if left.qty > 0 {
      var k := PlaceFor(own, left, o.buy, |own|);
      InsertKeepsSorted(own, left, k, o.buy);
      InsertMultiset(own, left, k);
      own := own[..k] + [left] + own[k..];
    }
    b' := if o.buy then Book(own, s.rest) else Book(s.rest, own);
    MatchKeepsBook(b, o, b');
  }

  lemma {:induction false} RankFor(side: seq<P.Pending>, x: P.Pending, n: nat) returns (k: nat)
    requires n <= |side| && forall i :: n <= i < |side| ==> P.Ahead(x, side[i])
    ensures k <= |side| && (k > 0 ==> !P.Ahead(x, side[k - 1]))
    ensures forall i :: k <= i < |side| ==> P.Ahead(x, side[i])
  {
    if n == 0 || !P.Ahead(x, side[n - 1]) {
      k := n;
    } else {
      k := RankFor(side, x, n - 1);
    }
  }

  /** Every order can be recorded. */
  lemma RecordExists(s: P.Shadow, o: Submission) returns (s': P.Shadow)
    requires P.ShadowOk(s)
    ensures P.Recorded(s, o.lot.id, o.lot.price, o.buy, s') && P.ShadowOk(s')
  {
    var x, side := P.Pending(o.lot.id, o.lot.price, o.buy, s.seqNo + 1, false), s.Side(o.buy);
    var k := RankFor(side, x, |side|);
    P.InsertKeepsRanked(side, x, k);
    InsertMultiset(side, x, k);
    s' := s.(seqNo := s.seqNo + 1).WithSide(o.buy, side[..k] + [x] + side[k..]);
    P.RecordKeepsShadow(s, o.lot.id, o.lot.price, o.buy, s');
  }

  lemma {:induction false} ReportKeepsShadow(s: P.Shadow, ids: seq<string>)
    requires P.ShadowOk(s)
    ensures P.ShadowOk(Report(s, ids))
    decreases |ids|
  {
    if ids == [] {
    } else {
      P.FillKeepsShadow(s, ids[0]);
      ReportKeepsShadow(P.AfterFill(s, ids[0]), ids[1..]);
    }
  }

  lemma StepExists(st: State, o: Submission, takerFirst: string -> bool) returns (st': State)
    requires BookOk(st.book) && P.ShadowOk(st.shadow)
    ensures Step(st, o, st', takerFirst) && BookOk(st'.book) && P.ShadowOk(st'.shadow)
  {
    var b := MatchExists(st.book, o);
    var recorded := RecordExists(st.shadow, o);
    var ids := ReportIds(o.lot.id, Outcome(st.book, o).fills, takerFirst);
    ReportKeepsShadow(recorded, ids);
    st' := State(b, Report(recorded, ids));
  }

  lemma RunExtends(states: seq<State>, orders: seq<Submission>, choices: seq<string -> bool>,
                   o: Submission, takerFirst: string -> bool, st: State)
    requires JointRun(states, orders, choices) && Step(states[|orders|], o, st, takerFirst)
    ensures JointRun(states + [st], orders + [o], choices + [takerFirst])
  {
    var ss, os, cs := states + [st], orders + [o], choices + [takerFirst];
    forall i: nat | i < |os| ensures StepAt(ss, os, cs, i) {
      if i < |orders| {
        assert StepAt(states, orders, choices, i);
        assert ss[i] == states[i] && ss[i + 1] == states[i + 1];
      }
    }
  }

  /** Every list of orders, with any choice of reporting orders, has a run: the theorems about
      runs speak of something. */
  lemma {:induction false} RunExists(orders: seq<Submission>, choices: seq<string -> bool>) returns (states: seq<State>)
    requires |choices| == |orders|
    ensures JointRun(states, orders, choices)
    ensures BookOk(states[|orders|].book) && P.ShadowOk(states[|orders|].shadow)
  {
    if orders == [] {
      states := [START];
    } else {
      var n := |orders| - 1;
      var before := RunExists(orders[..n], choices[..n]);
      var st := StepExists(before[n], orders[n], choices[n]);
      RunExtends(before, orders[..n], choices[..n], orders[n], choices[n], st);
      assert orders[..n] + [orders[n]] == orders && choices[..n] + [choices[n]] == choices;
      states := before + [st];
    }
  }

  // ---------------------------------------------------------------- where it fails

  lemma OnlyMember<T>(s: seq<T>, t: seq<T>)
    requires |s| == 1 && multiset(s) == multiset(t)
    ensures s == t
  {
    assert |multiset(t)| == 1;
    PermutationMembers(s, t, t[0]);
  }

  /** What an order leaves behind that meets nothing on the opposite side. */
  lemma QuietStep(st: State, o: Submission, st': State, takerFirst: string -> bool)
    requires Step(st, o, st', takerFirst) && o.lot.qty > 0 && !Trades(st, o)
    ensures st'.book.Side(!o.buy) == st.book.Side(!o.buy) && st'.shadow.Side(!o.buy) == st.shadow.Side(!o.buy)
    ensures multiset(st'.book.Side(o.buy)) == multiset(st.book.Side(o.buy) + [o.lot])
    ensures Sorted(st'.book.Side(o.buy), o.buy)
    ensures var n := P.Pending(o.lot.id, o.lot.price, o.buy, st.shadow.seqNo + 1, false);
            multiset(st'.shadow.Side(o.buy)) == multiset(st.shadow.Side(o.buy) + [n])
    ensures st'.shadow.seqNo == st.shadow.seqNo + 1
  {
    assert Outcome(st.book, o) == Swept(st.book.Side(!o.buy), o.lot.qty, []);
    assert o.lot.(qty := o.lot.qty) == o.lot;
  }

  /** A limit bid, a limit ask, and a market buy that trades while the bid rests. */
  const MARKET_ORDERS := [Submission(true, Lot("A", 10.0, 1, 1)), Submission(false, Lot("B", 12.0, 1, 2)),
                          Submission(true, Lot("C", 0.0, 1, 3))]

  /** What an order leaves behind that is the first on its side and meets nothing. */
  lemma FirstStep(st: State, o: Submission, st': State, takerFirst: string -> bool)
    requires Step(st, o, st', takerFirst) && o.lot.qty > 0 && !Trades(st, o)
    requires st.book.Side(o.buy) == [] && st.shadow.Side(o.buy) == []
    ensures st'.book.Side(!o.buy) == st.book.Side(!o.buy) && st'.shadow.Side(!o.buy) == st.shadow.Side(!o.buy)
    ensures st'.book.Side(o.buy) == [o.lot] && st'.shadow.seqNo == st.shadow.seqNo + 1
    ensures st'.shadow.Side(o.buy) == [P.Pending(o.lot.id, o.lot.price, o.buy, st.shadow.seqNo + 1, false)]
  {
    QuietStep(st, o, st', takerFirst);
    var n := P.Pending(o.lot.id, o.lot.price, o.buy, st.shadow.seqNo + 1, false);
    assert [] + [o.lot] == [o.lot] && [] + [n] == [n];
    OnlyMember([o.lot], st'.book.Side(o.buy));
    OnlyMember([n], st'.shadow.Side(o.buy));
  }

  ghost function Open(o: Submission, seqNo: int): P.Pending { P.Pending(o.lot.id, o.lot.price, o.buy, seqNo, false) }

  /** The first order of a run. */
  lemma StartStep(o: Submission, st: State, f: string -> bool)
    requires o.lot.qty > 0 && Step(START, o, st, f)
    ensures !Trades(START, o) && st.shadow.seqNo == 1
    ensures st.book.Side(o.buy) == [o.lot] && st.book.Side(!o.buy) == []
    ensures st.shadow.Side(o.buy) == [Open(o, 1)] && st.shadow.Side(!o.buy) == []
  {
    FirstStep(START, o, st, f);
  }

  /** The first two orders of a run, on different sides, that do not meet. */
  lemma TwoSides(o: Submission, st: State, q: Submission, st': State, f: string -> bool, g: string -> bool)
    requires q.buy == !o.buy && o.lot.qty > 0 && q.lot.qty > 0 && !Accepts(q.buy, q.lot.price, o.lot.price)
    requires Step(START, o, st, f) && Step(st, q, st', g)
    ensures !Trades(START, o) && !Trades(st, q)
    ensures st'.book.Side(o.buy) == [o.lot] && st'.book.Side(q.buy) == [q.lot]
    ensures st'.shadow.Side(o.buy) == [Open(o, 1)] && st'.shadow.Side(q.buy) == [Open(q, 2)]
  {
    StartStep(o, st, f);
    SecondStep(o, st, q, st', g);
  }

  lemma SecondStep(o: Submission, st: State, q: Submission, st': State, g: string -> bool)
    requires q.buy == !o.buy && q.lot.qty > 0 && !Accepts(q.buy, q.lot.price, o.lot.price)
    requires Step(st, q, st', g) && st.shadow.seqNo == 1
    requires st.book.Side(o.buy) == [o.lot] && st.book.Side(q.buy) == []
    requires st.shadow.Side(o.buy) == [Open(o, 1)] && st.shadow.Side(q.buy) == []
    ensures !Trades(st, q)
    ensures st'.book.Side(o.buy) == [o.lot] && st'.book.Side(q.buy) == [q.lot]
    ensures st'.shadow.Side(o.buy) == [Open(o, 1)] && st'.shadow.Side(q.buy) == [Open(q, 2)]
  {
    assert !q.buy == o.buy;
    FirstStep(st, q, st', g);
  }

  /** The first two orders of a run, on the same side. */
  lemma OneSide(o: Submission, st: State, q: Submission, st': State, f: string -> bool, g: string -> bool)
    requires o.buy == q.buy && o.lot.qty > 0 && q.lot.qty > 0
    requires Step(START, o, st, f) && Step(st, q, st', g)
    ensures st'.book.Side(!o.buy) == [] && st'.shadow.Side(!o.buy) == []
    ensures multiset(st'.book.Side(o.buy)) == multiset([o.lot] + [q.lot]) && Sorted(st'.book.Side(o.buy), o.buy)
    ensures multiset(st'.shadow.Side(o.buy)) == multiset([Open(o, 1)] + [Open(q, 2)])
  {
    StartStep(o, st, f);
    QuietStep(st, q, st', g);
  }

  /** Both limit orders rest when the market order comes. */
  lemma BeforeMarketOrder(states: seq<State>, choices: seq<string -> bool>)
    requires JointRun(states, MARKET_ORDERS, choices)
    ensures !Trades(states[0], MARKET_ORDERS[0]) && !Trades(states[1], MARKET_ORDERS[1])
    ensures states[2].book.asks == [MARKET_ORDERS[1].lot]
    ensures states[2].shadow.bids == [Open(MARKET_ORDERS[0], 1)]
    ensures states[2].shadow.asks == [Open(MARKET_ORDERS[1], 2)]
  {
    StepOf(states, MARKET_ORDERS, choices, 0, 1);
    StepOf(states, MARKET_ORDERS, choices, 1, 2);
    TwoSides(MARKET_ORDERS[0], states[1], MARKET_ORDERS[1], states[2], choices[0], choices[1]);
  }

  lemma QuietIsHarmless(st: State, o: Submission)
    requires !Trades(st, o)
    ensures Rejects(st, o) == 0
  {
    TradesIff(st, o);
  }

  /** Its maker is fair, but its own report is rejected. */
  lemma MarketOrderRejects(st: State)
    requires st.book.asks == [MARKET_ORDERS[1].lot]
    requires st.shadow.bids == [Open(MARKET_ORDERS[0], 1)]
    requires st.shadow.asks == [Open(MARKET_ORDERS[1], 2)]
    ensures Rejects(st, MARKET_ORDERS[2]) == 1
  {
    var o, asks := MARKET_ORDERS[2], st.book.asks;
    assert Accepts(true, 0.0, 12.0) && UseHead(asks, 1) == [];
    assert Outcome(st.book, o) == Resumed([Fill("B", 12.0, 1)], Sweep([], 0, true, 0.0));
    assert |Outcome(st.book, o).fills| == 1;
    assert !Better(true, 0.0, st.shadow.Side(true)[0].price);
    assert P.IndexOf(st.shadow.asks, "B") == 0 && P.IndexOf(st.shadow.bids, "B") == 1;
    assert Fair(st.shadow, false, asks, 0);
    FairFromAll(st.shadow, false, asks, 0, 1);
  }

  /** On every such run the market order's report is the one violation, and there is such a run. */
  lemma MarketOrderRejected(choices: seq<string -> bool>) returns (states: seq<State>)
    requires |choices| == 3
    ensures History(MARKET_ORDERS) && InOrder(MARKET_ORDERS) && JointRun(states, MARKET_ORDERS, choices)
    ensures forall ss: seq<State> :: JointRun(ss, MARKET_ORDERS, choices) ==> ss[3].shadow.violations == 1
  {
    ThreeOrders(MARKET_ORDERS);
    states := RunExists(MARKET_ORDERS, choices);
    forall ss: seq<State> | JointRun(ss, MARKET_ORDERS, choices) ensures ss[3].shadow.violations == 1 {
      MarketRunRejected(ss, choices);
    }
  }

  lemma MarketRunRejected(states: seq<State>, choices: seq<string -> bool>)
    requires JointRun(states, MARKET_ORDERS, choices)
    ensures states[3].shadow.violations == 1
  {
    var orders := MARKET_ORDERS;
    ThreeOrders(orders);
    BeforeMarketOrder(states, choices);
    QuietIsHarmless(states[0], orders[0]);
    QuietIsHarmless(states[1], orders[1]);
    MarketOrderRejects(states[2]);
    RejectedNext(states, orders, 0);
    RejectedNext(states, orders, 1);
    RejectedNext(states, orders, 2);
    var open := RunVerdicts(states, orders, choices, 3);
  }

  lemma ThreeOrders(h: seq<Submission>)
    requires |h| == 3 && h[0].lot.id != h[1].lot.id && h[0].lot.id != h[2].lot.id && h[1].lot.id != h[2].lot.id
    ensures History(h)
    ensures h[0].lot.arrivedAt < h[1].lot.arrivedAt < h[2].lot.arrivedAt ==> InOrder(h)
  {
    forall i, j | Earlier(h, i, j) ensures h[i].lot.id != h[j].lot.id {
      assert (i == 0 && j == 1) || (i == 0 && j == 2) || (i == 1 && j == 2);
    }
    forall i, j | Earlier(h, i, j)
      ensures h[0].lot.arrivedAt < h[1].lot.arrivedAt < h[2].lot.arrivedAt ==> h[i].lot.arrivedAt < h[j].lot.arrivedAt
    {
      assert (i == 0 && j == 1) || (i == 0 && j == 2) || (i == 1 && j == 2);
    }
  }

  /** Two equal asks, stamped in the other order than they are matched in, and a buy. */
  const SWAPPED_ORDERS := [Submission(false, Lot("A", 10.0, 1, 2)), Submission(false, Lot("B", 10.0, 1, 1)),
                           Submission(true, Lot("C", 10.0, 1, 3))]

  /** The engine has B at its head, while the validator has A open, recorded earlier. */
  lemma BeforeSwapped(states: seq<State>, choices: seq<string -> bool>)
    requires JointRun(states, SWAPPED_ORDERS, choices)
    ensures |states[2].book.asks| == 2 && states[2].book.asks[0] == SWAPPED_ORDERS[1].lot
    ensures states[2].shadow.bids == []
    ensures multiset(states[2].shadow.asks) == multiset([Open(SWAPPED_ORDERS[0], 1)] + [Open(SWAPPED_ORDERS[1], 2)])
  {
    StepOf(states, SWAPPED_ORDERS, choices, 0, 1);
    StepOf(states, SWAPPED_ORDERS, choices, 1, 2);
    OneSide(SWAPPED_ORDERS[0], states[1], SWAPPED_ORDERS[1], states[2], choices[0], choices[1]);
    LaterStampFirst(states[2].book.asks, SWAPPED_ORDERS[0].lot, SWAPPED_ORDERS[1].lot);
  }

  lemma SwappedIsHarmful(st: State)
    requires |st.book.asks| == 2 && st.book.asks[0] == SWAPPED_ORDERS[1].lot && st.shadow.bids == []
    requires multiset(st.shadow.asks) == multiset([Open(SWAPPED_ORDERS[0], 1)] + [Open(SWAPPED_ORDERS[1], 2)])
    ensures !Harmless(st, SWAPPED_ORDERS[2])
  {
    UnfairHead(st.shadow, st.book.asks, Open(SWAPPED_ORDERS[0], 1), Open(SWAPPED_ORDERS[1], 2));
    assert !Fair(st.shadow, false, st.book.asks, 0);
    assert st.book.asks[..0] == [];
    assert Consumes(st.book.asks, 1, true, 10.0, 0);
  }

  /** A limit order's maker can be rejected too: the engine goes by the stamp, the validator by
      the record. */
  lemma SwappedStampsRejected(choices: seq<string -> bool>) returns (states: seq<State>)
    requires |choices| == 3
    ensures History(SWAPPED_ORDERS) && Limits(SWAPPED_ORDERS) && JointRun(states, SWAPPED_ORDERS, choices)
    ensures forall ss: seq<State> :: JointRun(ss, SWAPPED_ORDERS, choices) ==> ss[3].shadow.violations != 0
  {
    ThreeOrders(SWAPPED_ORDERS);
    states := RunExists(SWAPPED_ORDERS, choices);
    forall ss: seq<State> | JointRun(ss, SWAPPED_ORDERS, choices) ensures ss[3].shadow.violations != 0 {
      BeforeSwapped(ss, choices);
      SwappedIsHarmful(ss[2]);
      NoViolationIff(ss, SWAPPED_ORDERS, choices, 3);
    }
  }

  lemma LaterStampFirst(asks: seq<Lot>, a: Lot, b: Lot)
    requires multiset(asks) == multiset([a] + [b]) && Sorted(asks, false)
    requires a.price == b.price && b.arrivedAt < a.arrivedAt
    ensures |asks| == 2 && asks[0] == b
  {
    assert |asks| == |multiset(asks)| == 2;
    PermutationMembers(asks, [a] + [b], asks[0]);
    PermutationMembers(asks, [a] + [b], b);
    assert ([a] + [b])[1] == b;
    var i :| 0 <= i < |asks| && asks[i] == b;
    NotBehind(asks, i);
  }

  /** What is sorted before the head is the head. */
  lemma NotBehind(asks: seq<Lot>, i: nat)
    requires i < |asks| && Sorted(asks, false)
    ensures i == 0 || !Before(false, asks[i], asks[0])
  {
  }

  lemma UnfairHead(s: P.Shadow, opp: seq<Lot>, a: P.Pending, b: P.Pending)
    requires multiset(s.asks) == multiset([a] + [b]) && P.Ahead(a, b) && !a.filled && a.id != b.id
    requires opp != [] && opp[0].id == b.id && P.IndexOf(s.bids, b.id) == |s.bids|
    ensures !Fair(s, false, opp, 0)
  {
    PermutationMembers(s.asks, [a] + [b], a);
    assert ([a] + [b])[0] == a;
    var x :| 0 <= x < |s.asks| && s.asks[x] == a;
    if P.Known(s, b.id) {
      var m := P.Attributed(s, b.id);
      PermutationMembers(s.asks, [a] + [b], m);
      assert m == b;
    }
  }
}
