/** When the validator finds no violation in what the engine does, over all runs of both. */
module EngineVerdicts {
  import opened Sequences
  import opened Matching
  import opened EngineMeetsValidator
  import P = PriceTime

  /** The guards of the matching loop let at least one fill happen. */
  ghost predicate Trades(st: State, o: Submission) {
    var opp := st.book.Side(!o.buy);
    o.lot.qty > 0 && opp != [] && Accepts(o.buy, o.lot.price, opp[0].price)
  }

  lemma TradesIff(st: State, o: Submission)
    ensures Trades(st, o) <==> Outcome(st.book, o).fills != []
  {
  }

  /** The makers an order is about to consume, as the loop's own tests pick them before the
      call, are fair. */
  ghost predicate MakersFair(st: State, o: Submission) {
    FairConsumed(st.shadow, st.book.Side(!o.buy), o.lot.qty, o.buy, o.lot.price)
  }

  ghost predicate FairConsumed(s: P.Shadow, opp: seq<Lot>, qty: int, buy: bool, limit: real) {
    forall i: nat :: Consumes(opp, qty, buy, limit, i) ==> Fair(s, !buy, opp, i)
  }

  lemma MakersFairIff(st: State, o: Submission)
    requires BookOk(st.book)
    ensures MakersFair(st, o) <==> AllFair(st.shadow, !o.buy, st.book.Side(!o.buy), 0, |Outcome(st.book, o).fills|)
  {
    var maker, opp, n := !o.buy, st.book.Side(!o.buy), |Outcome(st.book, o).fills|;
    if MakersFair(st, o) {
      forall k | 0 <= k < n ensures Fair(st.shadow, maker, opp, k) {
        ConsumesIff(opp, o.lot.qty, o.buy, o.lot.price, k);
      }
    }
    if AllFair(st.shadow, maker, opp, 0, n) {
      forall k: nat | Consumes(opp, o.lot.qty, o.buy, o.lot.price, k) ensures Fair(st.shadow, maker, opp, k) {
        ConsumesIff(opp, o.lot.qty, o.buy, o.lot.price, k);
      }
    }
  }

  /** No harm in an order: it does not trade, or it is the best on its own side and consumes
      only fair makers. */
  ghost predicate Harmless(st: State, o: Submission) {
    Trades(st, o) ==> BestOnOwnSide(st.shadow, o) && MakersFair(st, o)
  }

  lemma HarmlessIff(st: State, o: Submission)
    requires BookOk(st.book)
    ensures Rejects(st, o) == 0 <==> Harmless(st, o)
  {
    TradesIff(st, o);
    MakersFairIff(st, o);
    FairFromAll(st.shadow, !o.buy, st.book.Side(!o.buy), 0, |Outcome(st.book, o).fills|);
  }

  lemma BookOfRun(states: seq<State>, orders: seq<Submission>, choices: seq<string -> bool>, i: nat)
    requires JointRun(states, orders, choices) && History(orders) && i <= |orders|
    ensures BookOk(states[i].book)
  {
    var open := RunVerdicts(states, orders, choices, i);
  }

  lemma RejectedIff(states: seq<State>, orders: seq<Submission>, choices: seq<string -> bool>, n: nat)
    requires JointRun(states, orders, choices) && History(orders) && n <= |orders|
    ensures Rejected(states, orders, n) == 0 <==> forall i :: 0 <= i < n ==> Harmless(states[i], orders[i])
  {
    SumZeroIff(RejectList(states, orders, n));
    forall i | 0 <= i < n
      ensures RejectList(states, orders, n)[i] == 0 <==> Harmless(states[i], orders[i])
    {
      BookOfRun(states, orders, choices, i);
      HarmlessIff(states[i], orders[i]);
    }
  }

  /** For every run, of arbitrary prices, quantities and stamps: the validator finds no
      violation if and only if every order that trades has a price strictly better than all
      orders the validator has open on its own side, and consumes makers in the validator's
      order. */
  lemma NoViolationIff(states: seq<State>, orders: seq<Submission>, choices: seq<string -> bool>, n: nat)
    requires JointRun(states, orders, choices) && History(orders) && n <= |orders|
    ensures states[n].shadow.violations == 0 <==> forall i :: 0 <= i < n ==> Harmless(states[i], orders[i])
  {
    var open := RunVerdicts(states, orders, choices, n);
    RejectedIff(states, orders, choices, n);
  }

  // ---------------------------------------------------------------- limit orders

  ghost predicate Limits(orders: seq<Submission>) {
    forall i :: 0 <= i < |orders| ==> orders[i].lot.price > 0.0 && orders[i].lot.qty > 0
  }

  /** A limit order that trades is the best on its own side: what rests there is worse than
      every opposite price, which the limit reaches. */
  lemma LimitOrderIsBest(h: seq<Submission>, st: State, open: set<int>, o: Submission)
    requires Linked(h, st, open) && Limits(h)
    requires o.lot.price > 0.0 && Trades(st, o)
    ensures BestOnOwnSide(st.shadow, o)
  {
    var own, opp, side := st.book.Side(o.buy), st.book.Side(!o.buy), st.shadow.Side(o.buy);
    forall i | 0 <= i < |side| && !side[i].filled ensures Better(o.buy, o.lot.price, side[i].price) {
      var k := side[i].seqNo - 1;
      assert Rests(h, own, k);
      var r :| 0 <= r < |own| && Is(h, own[r], k);
      assert Better(o.buy, opp[0].price, own[r].price);
    }
  }

  /** Among limit orders the validator finds no violation if and only if makers are consumed in
      its order, that is, unless stamps that disagree with the order of matching decide. */
  lemma LimitOrdersIff(states: seq<State>, orders: seq<Submission>, choices: seq<string -> bool>, n: nat)
    requires JointRun(states, orders, choices) && History(orders) && n <= |orders| && Limits(orders)
    ensures states[n].shadow.violations == 0 <==>
            forall i :: 0 <= i < n ==> MakersFair(states[i], orders[i])
  {
    NoViolationIff(states, orders, choices, n);
    forall i | 0 <= i < n ensures Harmless(states[i], orders[i]) <==> MakersFair(states[i], orders[i]) {
      LimitIsHarmlessIff(states, orders, choices, i);
    }
  }

  lemma LimitIsHarmlessIff(states: seq<State>, orders: seq<Submission>, choices: seq<string -> bool>, i: nat)
    requires JointRun(states, orders, choices) && History(orders) && i < |orders| && Limits(orders)
    ensures Harmless(states[i], orders[i]) <==> MakersFair(states[i], orders[i])
  {
    var open := RunVerdicts(states, orders, choices, i);
    if Trades(states[i], orders[i]) {
      LimitOrderIsBest(orders[..i], states[i], open, orders[i]);
    } else {
      TradesIff(states[i], orders[i]);
      MakersFairIff(states[i], orders[i]);
    }
  }

  lemma InOrderAgainst(h: seq<Submission>, st: State, open: set<int>, buy: bool, i: nat, k: int, x: nat)
    requires Linked(h, st, open) && Limits(h) && InOrder(h) && i < |st.book.Side(buy)|
    requires Is(h, st.book.Side(buy)[i], k) && h[k].buy == buy
    requires x < |st.shadow.Side(buy)| && !st.shadow.Side(buy)[x].filled
    requires !UsedBefore(st.book.Side(buy), i, st.shadow.Side(buy)[x].id)
    ensures 0 <= st.shadow.Side(buy)[x].seqNo - 1 < |h| && !Prior(h, st.shadow.Side(buy)[x].seqNo - 1, k)
  {
    var opp := st.book.Side(buy);
    assert OpenRest(h, opp, buy, open);
    var j := UnfilledIsOpen(h, st.shadow, open, buy, x);
    assert Rests(h, opp, j);
    var r :| 0 <= r < |opp| && Is(h, opp[r], j);
    RestsBehind(h, opp, buy, i, k, r, j);
  }

  lemma InOrderNotAhead(h: seq<Submission>, st: State, open: set<int>, buy: bool, i: nat, k: int, m: P.Pending, x: nat)
    requires Linked(h, st, open) && Limits(h) && InOrder(h) && i < |st.book.Side(buy)|
    requires Is(h, st.book.Side(buy)[i], k) && h[k].buy == buy
    requires m.seqNo == k + 1 && m.price == h[k].lot.price && m.buy == h[k].buy
    requires x < |st.shadow.Side(buy)| && !st.shadow.Side(buy)[x].filled
    requires !UsedBefore(st.book.Side(buy), i, st.shadow.Side(buy)[x].id)
    ensures !P.Ahead(st.shadow.Side(buy)[x], m)
  {
    InOrderAgainst(h, st, open, buy, i, k, x);
    assert TracksSide(h, st.shadow.Side(buy), buy, open);
  }

  /** Stamps in the order of matching make every maker fair. */
  lemma InOrderIsFair(h: seq<Submission>, st: State, open: set<int>, buy: bool, i: nat)
    requires Linked(h, st, open) && Limits(h) && InOrder(h) && i < |st.book.Side(buy)|
    ensures Fair(st.shadow, buy, st.book.Side(buy), i)
  {
    var opp, side := st.book.Side(buy), st.shadow.Side(buy);
    var k := FromHistory(h, opp, buy, i);
    var m := AttributedMaker(h, st.shadow, open, opp, i, k);
    forall x | 0 <= x < |side| && !side[x].filled && !UsedBefore(opp, i, side[x].id) ensures !P.Ahead(side[x], m) {
      InOrderNotAhead(h, st, open, buy, i, k, m, x);
    }
  }

  lemma RestsBehind(h: seq<Submission>, opp: seq<Lot>, buy: bool, i: nat, k: int, r: nat, j: int)
    requires History(h) && InOrder(h) && Sorted(opp, buy) && i <= r < |opp|
    requires Is(h, opp[i], k) && Is(h, opp[r], j) && h[k].buy == buy
    ensures !Prior(h, j, k)
  {
    if i == r {
      DistinctIds(h, j, k);
    } else {
      assert !Before(buy, opp[r], opp[i]);
      assert Earlier(h, j, k) ==> h[j].lot.arrivedAt < h[k].lot.arrivedAt;
    }
  }

  lemma InOrderPrefix(h: seq<Submission>, n: nat)
    requires InOrder(h) && n <= |h|
    ensures InOrder(h[..n])
  {
    forall i, j | Earlier(h[..n], i, j) ensures h[..n][i].lot.arrivedAt < h[..n][j].lot.arrivedAt {
      assert Earlier(h, i, j);
    }
  }

  lemma InOrderMakersFair(states: seq<State>, orders: seq<Submission>, choices: seq<string -> bool>, i: nat)
    requires JointRun(states, orders, choices) && History(orders) && i < |orders|
    requires Limits(orders) && InOrder(orders)
    ensures MakersFair(states[i], orders[i])
  {
    var open := RunVerdicts(states, orders, choices, i);
    InOrderPrefix(orders, i);
    var o, opp := orders[i], states[i].book.Side(!orders[i].buy);
    forall m: nat | Consumes(opp, o.lot.qty, o.buy, o.lot.price, m) ensures Fair(states[i].shadow, !o.buy, opp, m) {
      InOrderIsFair(orders[..i], states[i], open, !o.buy, m);
    }
  }

  /** Every fill the engine makes among limit orders stamped in the order of matching is
      accepted, for both parties. */
  lemma LimitOrdersAccepted(states: seq<State>, orders: seq<Submission>, choices: seq<string -> bool>, n: nat)
    requires JointRun(states, orders, choices) && History(orders) && n <= |orders|
    requires Limits(orders) && InOrder(orders)
    ensures states[n].shadow.violations == 0
    ensures states[n].shadow.correct == 2 * FillCount(states, orders, n)
  {
    LimitOrdersIff(states, orders, choices, n);
    forall i | 0 <= i < n ensures MakersFair(states[i], orders[i]) {
      InOrderMakersFair(states, orders, choices, i);
    }
    RejectedIff(states, orders, choices, n);
    var open := RunVerdicts(states, orders, choices, n);
  }
}
