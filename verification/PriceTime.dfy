/** The price-time priority validator on values: its shadow book and what recording an
    order or a fill does to it. A fill is judged here by its definition, against the whole
    side; module Validators shows that the early-exit scan decides the same. */
module PriceTime {
  import opened Sequences

  datatype Pending = Pending(id: string, price: real, buy: bool, seqNo: int, filled: bool)

  datatype Shadow = Shadow(bids: seq<Pending>, asks: seq<Pending>, seqNo: int,
                           total: int, correct: int, violations: int) {
    function Side(buy: bool): seq<Pending> { if buy then bids else asks }
    function WithSide(buy: bool, side: seq<Pending>): Shadow {
      if buy then this.(bids := side) else this.(asks := side)
    }
  }

  const EMPTY_SHADOW := Shadow([], [], 0, 0, 0, 0)

  /** Strictly better priority on the side of a: better price, then earlier arrival. */
  predicate Ahead(a: Pending, b: Pending) {
    (if a.buy then a.price > b.price else a.price < b.price)
    || (a.price == b.price && a.seqNo < b.seqNo)
  }

  ghost predicate Ranked(side: seq<Pending>) {
    forall i, j {:trigger Ahead(side[i], side[j])} :: 0 <= i < j < |side| ==> Ahead(side[i], side[j])
  }

  ghost predicate ShadowOk(s: Shadow) {
    && Ranked(s.bids) && Ranked(s.asks)
    && (forall i :: 0 <= i < |s.bids| ==> s.bids[i].buy && s.bids[i].seqNo <= s.seqNo)
    && (forall i :: 0 <= i < |s.asks| ==> !s.asks[i].buy && s.asks[i].seqNo <= s.seqNo)
  }

  /** Recording an order: it joins its side with the next sequence number and the side
      stays ranked (which leaves one way only to place it). */
  ghost predicate Recorded(s: Shadow, id: string, price: real, buy: bool, s': Shadow) {
    var o := Pending(id, price, buy, s.seqNo + 1, false);
    && s' == s.(seqNo := s.seqNo + 1).WithSide(buy, s'.Side(buy))
    && multiset(s'.Side(buy)) == multiset(s.Side(buy) + [o])
    && Ranked(s'.Side(buy))
  }

  /** The first order with this id on a side, |side| when there is none. */
  function IndexOf(side: seq<Pending>, id: string): (i: nat)
    ensures i <= |side|
    ensures i < |side| ==> side[i].id == id
    ensures forall j :: 0 <= j < i ==> side[j].id != id
  {
    if side == [] then 0
    else if side[0].id == id then 0
    else
      var i := IndexOf(side[1..], id);
      assert forall j :: 1 <= j < i + 1 ==> side[j] == side[1..][j - 1];
      i + 1
  }

  /** Nothing unfilled anywhere on the side has better priority than o. */
  ghost predicate NextToFill(side: seq<Pending>, o: Pending) {
    forall i :: 0 <= i < |side| && !side[i].filled ==> !Ahead(side[i], o)
  }

  ghost predicate Known(s: Shadow, id: string) {
    IndexOf(s.bids, id) < |s.bids| || IndexOf(s.asks, id) < |s.asks|
  }

  /** Bids are searched before asks. */
  ghost predicate OnBids(s: Shadow, id: string) {
    IndexOf(s.bids, id) < |s.bids|
  }

  /** The order a fill is attributed to. */
  ghost function Attributed(s: Shadow, id: string): Pending
    requires Known(s, id)
  {
    s.Side(OnBids(s, id))[IndexOf(s.Side(OnBids(s, id)), id)]
  }

  /** The definition of a valid fill. */
  ghost predicate ValidFill(s: Shadow, id: string) {
    Known(s, id) && NextToFill(s.Side(OnBids(s, id)), Attributed(s, id))
  }

  function MarkFilled(side: seq<Pending>, i: nat): seq<Pending>
    requires i < |side|
  {
    side[i := side[i].(filled := true)]
  }

  /** Recording a fill: counted as correct or as a violation, and a known order is marked. */
  ghost function AfterFill(s: Shadow, id: string): Shadow {
    var t := if ValidFill(s, id) then s.(total := s.total + 1, correct := s.correct + 1)
             else s.(total := s.total + 1, violations := s.violations + 1);
    if !Known(s, id) then t
    else
      var buy := OnBids(s, id);
      t.WithSide(buy, MarkFilled(s.Side(buy), IndexOf(s.Side(buy), id)))
  }

  lemma MarkKeepsRanked(side: seq<Pending>, i: nat)
    requires i < |side| && Ranked(side)
    ensures Ranked(MarkFilled(side, i))
  {
    forall j, k | 0 <= j < k < |side| ensures Ahead(MarkFilled(side, i)[j], MarkFilled(side, i)[k]) {
      assert Ahead(side[j], side[k]);
    }
  }

  lemma FillKeepsShadow(s: Shadow, id: string)
    requires ShadowOk(s)
    ensures ShadowOk(AfterFill(s, id))
  {
    if Known(s, id) {
      var buy := OnBids(s, id);
      MarkKeepsRanked(s.Side(buy), IndexOf(s.Side(buy), id));
    }
  }

  /** A fill for an id that was never recorded is a violation and changes nothing else. */
  lemma UnknownFill(s: Shadow, id: string)
    requires forall i :: 0 <= i < |s.bids| ==> s.bids[i].id != id
    requires forall i :: 0 <= i < |s.asks| ==> s.asks[i].id != id
    ensures AfterFill(s, id) == s.(total := s.total + 1, violations := s.violations + 1)
  {
  }

  lemma FirstWithId(side: seq<Pending>, id: string, i: nat)
    requires i < |side| && side[i].id == id && forall j :: 0 <= j < i ==> side[j].id != id
    ensures IndexOf(side, id) == i
  {
  }

  /** The verdict on a fill of bid i, the first with this id: correct exactly when no unfilled
      bid has a higher price, or the same price and an earlier number. The bid is marked either
      way. */
  lemma BidFill(s: Shadow, i: nat)
    requires ShadowOk(s) && i < |s.bids| && forall j :: 0 <= j < i ==> s.bids[j].id != s.bids[i].id
    ensures var o := s.bids[i];
            var ok := forall j :: 0 <= j < |s.bids| && !s.bids[j].filled ==>
                        s.bids[j].price < o.price || (s.bids[j].price == o.price && s.bids[j].seqNo >= o.seqNo);
            AfterFill(s, o.id) == s.(bids := s.bids[i := o.(filled := true)], total := s.total + 1,
                                     correct := if ok then s.correct + 1 else s.correct,
                                     violations := if ok then s.violations else s.violations + 1)
  {
    FirstWithId(s.bids, s.bids[i].id, i);
    assert forall j :: 0 <= j < |s.bids| ==> s.bids[j].buy;
  }

  /** The same for an ask, whose id no bid has: lower prices come first. */
  lemma AskFill(s: Shadow, i: nat)
    requires ShadowOk(s) && i < |s.asks| && forall j :: 0 <= j < i ==> s.asks[j].id != s.asks[i].id
    requires forall j :: 0 <= j < |s.bids| ==> s.bids[j].id != s.asks[i].id
    ensures var o := s.asks[i];
            var ok := forall j :: 0 <= j < |s.asks| && !s.asks[j].filled ==>
                        s.asks[j].price > o.price || (s.asks[j].price == o.price && s.asks[j].seqNo >= o.seqNo);
            AfterFill(s, o.id) == s.(asks := s.asks[i := o.(filled := true)], total := s.total + 1,
                                     correct := if ok then s.correct + 1 else s.correct,
                                     violations := if ok then s.violations else s.violations + 1)
  {
    FirstWithId(s.asks, s.asks[i].id, i);
    assert forall j :: 0 <= j < |s.asks| ==> !s.asks[j].buy;
  }

  lemma RecordKeepsShadow(s: Shadow, id: string, price: real, buy: bool, s': Shadow)
    requires ShadowOk(s) && Recorded(s, id, price, buy, s')
    ensures ShadowOk(s')
  {
    var o := Pending(id, price, buy, s.seqNo + 1, false);
    forall i | 0 <= i < |s'.Side(buy)|
      ensures s'.Side(buy)[i].buy == buy && s'.Side(buy)[i].seqNo <= s'.seqNo
    {
      PermutationMembers(s.Side(buy) + [o], s'.Side(buy), s'.Side(buy)[i]);
    }
  }

  lemma InsertKeepsRanked(side: seq<Pending>, o: Pending, k: nat)
    requires Ranked(side) && k <= |side|
    requires k > 0 ==> !Ahead(o, side[k - 1])
    requires forall i :: 0 <= i < |side| ==> side[i].buy == o.buy && side[i].seqNo < o.seqNo
    requires forall i :: k <= i < |side| ==> Ahead(o, side[i])
    ensures Ranked(side[..k] + [o] + side[k..])
  {
    var t := side[..k] + [o] + side[k..];
    forall i, j | 0 <= i < j < |t| ensures Ahead(t[i], t[j]) {
      if j == k && i < k - 1 { assert Ahead(side[i], side[k - 1]); }
      if i < k && j < k { assert Ahead(side[i], side[j]); }
      if i < k < j { assert Ahead(side[i], side[j - 1]); }
      if k < i { assert Ahead(side[i - 1], side[j - 1]); }
    }
  }

  // ---------------------------------------------------------------- runs

  datatype Event = Order(id: string, price: real, buy: bool) | Fill(id: string)

  ghost predicate Step(s: Shadow, e: Event, s': Shadow) {
    match e
    case Order(id, price, buy) => Recorded(s, id, price, buy, s')
    case Fill(id) => s' == AfterFill(s, id)
  }

  ghost predicate Run(states: seq<Shadow>, events: seq<Event>) {
    && |states| == |events| + 1
    && states[0] == EMPTY_SHADOW
    && forall i {:trigger events[i]} :: 0 <= i < |events| ==> Step(states[i], events[i], states[i + 1])
  }

  /** How many orders were recorded by the first n events. */
  ghost function OrderCount(events: seq<Event>, n: nat): nat
    requires n <= |events|
  {
    if n == 0 then 0 else OrderCount(events, n - 1) + (if events[n - 1].Order? then 1 else 0)
  }

  /** The orders recorded on one side by the first n events, numbered as they arrived. */
  ghost function OrdersOn(events: seq<Event>, n: nat, buy: bool): seq<Pending>
    requires n <= |events|
  {
    if n == 0 then [] else
      var earlier := OrdersOn(events, n - 1, buy);
      match events[n - 1]
      case Order(id, price, b) =>
        if b == buy then earlier + [Pending(id, price, b, OrderCount(events, n), false)] else earlier
      case Fill(_) => earlier
  }

  /** A side with its filled marks cleared. */
  function Unmarked(side: seq<Pending>): (r: seq<Pending>)
    ensures |r| == |side|
  {
    seq(|side|, i requires 0 <= i < |side| => side[i].(filled := false))
  }

  lemma {:induction false} UnmarkedPermutation(s: seq<Pending>, t: seq<Pending>)
    requires multiset(s) == multiset(t)
    ensures multiset(Unmarked(s)) == multiset(Unmarked(t))
    decreases |s|
  {
    if s == [] {
      assert |multiset(t)| == 0;
    } else {
      var i := PermutationIndex(s, t);
      UnmarkedPermutation(s[1..], t[..i] + t[i + 1..]);
      assert Unmarked(s) == [s[0].(filled := false)] + Unmarked(s[1..]);
      assert Unmarked(t[..i] + t[i + 1..]) == Unmarked(t)[..i] + Unmarked(t)[i + 1..];
      RemoveMultiset(Unmarked(t), i);
    }
  }

  lemma UnmarkedInsert(side: seq<Pending>, o: Pending, side': seq<Pending>, earlier: seq<Pending>)
    requires !o.filled && multiset(side') == multiset(side + [o])
    requires multiset(Unmarked(side)) == multiset(earlier)
    ensures multiset(Unmarked(side')) == multiset(earlier + [o])
  {
    UnmarkedPermutation(side', side + [o]);
    assert Unmarked(side + [o]) == Unmarked(side) + [o];
  }

  /** The shadow book against the history: both sides strictly ranked, each a rearrangement
      of all orders ever recorded on it, and every fill counted once. */
  ghost predicate Accounts(s: Shadow, events: seq<Event>, n: nat)
    requires n <= |events|
  {
    && ShadowOk(s)
    && s.seqNo == OrderCount(events, n)
    && multiset(Unmarked(s.bids)) == multiset(OrdersOn(events, n, true))
    && multiset(Unmarked(s.asks)) == multiset(OrdersOn(events, n, false))
    && s.total == s.correct + s.violations == n - OrderCount(events, n)
  }

  /** A fill changes nothing but marks. */
  lemma FillUnmarked(s: Shadow, id: string)
    ensures var s' := AfterFill(s, id);
            Unmarked(s'.bids) == Unmarked(s.bids) && Unmarked(s'.asks) == Unmarked(s.asks)
  {
    if Known(s, id) {
      var side := s.Side(OnBids(s, id));
      assert Unmarked(MarkFilled(side, IndexOf(side, id))) == Unmarked(side);
    }
  }

  lemma FillAccounts(s: Shadow, events: seq<Event>, k: nat, n: nat)
    requires n == k + 1 <= |events| && events[k].Fill? && Accounts(s, events, k)
    ensures Accounts(AfterFill(s, events[k].id), events, n)
  {
    FillKeepsShadow(s, events[k].id);
    FillUnmarked(s, events[k].id);
  }

  lemma CountNext(events: seq<Event>, k: nat, n: nat)
    requires n == k + 1 <= |events| && events[k].Order?
    ensures OrderCount(events, n) == OrderCount(events, k) + 1
  {
  }

  lemma OwnOrdersNext(events: seq<Event>, k: nat, n: nat, o: Pending)
    requires n == k + 1 <= |events| && events[k] == Order(o.id, o.price, o.buy)
    requires o.seqNo == OrderCount(events, n) && !o.filled
    ensures OrdersOn(events, n, o.buy) == OrdersOn(events, k, o.buy) + [o]
  {
  }

  lemma OtherOrdersNext(events: seq<Event>, k: nat, n: nat, buy: bool)
    requires n == k + 1 <= |events| && events[k].Order? && events[k].buy != buy
    ensures OrdersOn(events, n, buy) == OrdersOn(events, k, buy)
  {
  }

  lemma SideAccounts(s: Shadow, events: seq<Event>, k: nat, n: nat, s': Shadow, any: bool)
    requires n == k + 1 <= |events| && events[k].Order? && s.seqNo == OrderCount(events, k)
    requires Recorded(s, events[k].id, events[k].price, events[k].buy, s')
    requires multiset(Unmarked(s.Side(any))) == multiset(OrdersOn(events, k, any))
    ensures multiset(Unmarked(s'.Side(any))) == multiset(OrdersOn(events, n, any))
  {
    if any == events[k].buy {
      var o := Pending(events[k].id, events[k].price, any, s.seqNo + 1, false);
      CountNext(events, k, n);
      OwnOrdersNext(events, k, n, o);
      UnmarkedInsert(s.Side(any), o, s'.Side(any), OrdersOn(events, k, any));
    } else {
      OtherOrdersNext(events, k, n, any);
    }
  }

  lemma OrderAccounts(s: Shadow, events: seq<Event>, k: nat, n: nat, s': Shadow)
    requires n == k + 1 <= |events| && events[k].Order? && Accounts(s, events, k)
    requires Step(s, events[k], s')
    ensures Accounts(s', events, n)
  {
    RecordKeepsShadow(s, events[k].id, events[k].price, events[k].buy, s');
    SideAccounts(s, events, k, n, s', true);
    SideAccounts(s, events, k, n, s', false);
    CountNext(events, k, n);
  }

  lemma NextAccounts(states: seq<Shadow>, events: seq<Event>, k: nat, n: nat)
    requires Run(states, events) && n == k + 1 <= |events| && Accounts(states[k], events, k)
    ensures Accounts(states[n], events, n)
  {
    assert Step(states[k], events[k], states[n]);
    if events[k].Fill? {
      FillAccounts(states[k], events, k, n);
    } else {
      OrderAccounts(states[k], events, k, n, states[n]);
    }
  }

  lemma StartAccounts(events: seq<Event>)
    ensures Accounts(EMPTY_SHADOW, events, 0)
  {
  }

  /** Over all runs, duplicate ids included, the shadow book accounts for the history. */
  lemma {:induction false} RunKeepsShadow(states: seq<Shadow>, events: seq<Event>, n: nat)
    requires Run(states, events) && n <= |events|
    ensures Accounts(states[n], events, n)
  {
    if n == 0 {
      StartAccounts(events);
    } else {
      RunKeepsShadow(states, events, n - 1);
      NextAccounts(states, events, n - 1, n);
    }
  }

  /** That is: after any run bids fall and asks rise in price, strictly, or by order of record. */
  lemma RunIsRanked(states: seq<Shadow>, events: seq<Event>, n: nat, i: nat, j: nat)
    requires Run(states, events) && n <= |events| && i < j
    ensures var b := states[n].bids;
            j < |b| ==> b[i].price > b[j].price || (b[i].price == b[j].price && b[i].seqNo < b[j].seqNo)
    ensures var a := states[n].asks;
            j < |a| ==> a[i].price < a[j].price || (a[i].price == a[j].price && a[i].seqNo < a[j].seqNo)
  {
    RunKeepsShadow(states, events, n);
    var b, a := states[n].bids, states[n].asks;
    if j < |b| { assert Ahead(b[i], b[j]); }
    if j < |a| { assert Ahead(a[i], a[j]); }
  }
}
