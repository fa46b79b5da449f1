/** The order book as the engine keeps it: order objects whose open quantity is counted
    down in place, and a book whose two sides are resliced and sorted. Each method is
    proved against the value-level step of module Matching. */
module OrderBooks {
  import opened Matching
  import opened Sequences

  const BUY := "BUY"

  class Order {
    const id: string
    const price: real
    const side: string
    const arrivedAt: int
    var qty: int

    constructor (id: string, price: real, qty: int, side: string, arrivedAt: int)
      ensures this.id == id && this.price == price && this.qty == qty
      ensures this.side == side && this.arrivedAt == arrivedAt
    {
      this.id, this.price, this.qty, this.side, this.arrivedAt := id, price, qty, side, arrivedAt;
    }

    function AsLot(): Lot
      reads this
    {
      Lot(id, price, qty, arrivedAt)
    }

    /** Any side other than BUY takes the sell branch. */
    function AsSubmission(): Submission
      reads this
    {
      Submission(side == BUY, AsLot())
    }
  }

  /** The values a list of order objects currently holds. */
  ghost predicate Holds(orders: seq<Order>, lots: seq<Lot>)
    reads orders
  {
    |orders| == |lots| && forall i :: 0 <= i < |orders| ==> lots[i] == orders[i].AsLot()
  }

  /** Stands for the library sort: an ordered rearrangement, of which callers know no more
      (the library sort is not stable). */
  method SortSlice(side: seq<Order>, bids: bool, ghost lots: seq<Lot>)
    returns (sorted: seq<Order>, ghost sortedLots: seq<Lot>)
    requires Holds(side, lots)
    ensures Holds(sorted, sortedLots)
    ensures multiset(sorted) == multiset(side)
    ensures multiset(sortedLots) == multiset(lots)
    ensures Sorted(sortedLots, bids)
  {
    sorted, sortedLots := [], [];
    for n := 0 to |side|
      invariant Holds(sorted, sortedLots)
      invariant multiset(sorted) == multiset(side[..n])
      invariant multiset(sortedLots) == multiset(lots[..n])
      invariant Sorted(sortedLots, bids)
    {
      assert side[..n + 1] == side[..n] + [side[n]];
      assert lots[..n + 1] == lots[..n] + [lots[n]];
      sorted, sortedLots := InsertSorted(sorted, side[n], bids, sortedLots);
    }
    assert side[..|side|] == side && lots[..|lots|] == lots;
  }

  method PlaceSorted(s: seq<Order>, o: Order, bids: bool, ghost lots: seq<Lot>) returns (k: nat)
    requires Holds(s, lots)
    ensures k <= |s|
    ensures k > 0 ==> !Before(bids, o.AsLot(), lots[k - 1])
    ensures forall i :: k <= i < |s| ==> Before(bids, o.AsLot(), lots[i])
  {
    k := |s|;
    while k > 0 && Before(bids, o.AsLot(), s[k - 1].AsLot())
      invariant k <= |s|
      invariant forall i :: k <= i < |s| ==> Before(bids, o.AsLot(), lots[i])
    {
      k := k - 1;
    }
  }

  method InsertSorted(s: seq<Order>, o: Order, bids: bool, ghost lots: seq<Lot>)
    returns (t: seq<Order>, ghost tlots: seq<Lot>)
    requires Holds(s, lots) && Sorted(lots, bids)
    ensures Holds(t, tlots)
    ensures multiset(t) == multiset(s + [o])
    ensures multiset(tlots) == multiset(lots + [o.AsLot()])
    ensures Sorted(tlots, bids)
  {
    var k := PlaceSorted(s, o, bids, lots);
    t := s[..k] + [o] + s[k..];
    tlots := lots[..k] + [o.AsLot()] + lots[k..];
    HoldsInserted(s, lots, o, k);
    InsertKeepsSorted(lots, o.AsLot(), k, bids);
    InsertMultiset(s, o, k);
    InsertMultiset(lots, o.AsLot(), k);
  }

  lemma HoldsInserted(s: seq<Order>, lots: seq<Lot>, o: Order, k: nat)
    requires Holds(s, lots) && k <= |s|
    ensures Holds(s[..k] + [o] + s[k..], lots[..k] + [o.AsLot()] + lots[k..])
  {
  }

  /** A list of distinct orders, all from `from`, that hold the given values. */
  ghost predicate Queue(queue: seq<Order>, lots: seq<Lot>, from: seq<Order>)
    reads queue
  {
    Holds(queue, lots) && NoDuplicates(queue) && forall x :: x in queue ==> x in from
  }

  /** Appends an order to its side and sorts the side. */
  method RestOn(side: seq<Order>, o: Order, bids: bool, ghost lots: seq<Lot>)
    returns (side': seq<Order>, ghost lots': seq<Lot>)
    requires Holds(side, lots) && NoDuplicates(side) && o !in side
    ensures Holds(side', lots') && NoDuplicates(side')
    ensures forall x :: x in side' <==> x in side || x == o
    ensures multiset(lots') == multiset(lots + [o.AsLot()]) && Sorted(lots', bids)
  {
    NoDuplicatesConcat(side, [o]);
    side', lots' := SortSlice(side + [o], bids, lots + [o.AsLot()]);
    NoDuplicatesPermutation(side + [o], side');
  }

  lemma QueueFrom(queue: seq<Order>, lots: seq<Lot>, from: seq<Order>, first: seq<Order>)
    requires Queue(queue, lots, from) && forall x :: x in from ==> x in first
    ensures Queue(queue, lots, first)
  {
  }

  /** The queue after its head has traded. */
  lemma HeadTraded(queue: seq<Order>, lots: seq<Lot>, fill: int, queue': seq<Order>, lots': seq<Lot>)
    requires |queue| == |lots| > 0 && NoDuplicates(queue)
    requires queue[0].AsLot() == lots[0].(qty := lots[0].qty - fill)
    requires forall i :: 1 <= i < |queue| ==> queue[i].AsLot() == lots[i]
    requires queue' == (if queue[0].qty == 0 then queue[1..] else queue) && lots' == UseHead(lots, fill)
    ensures Queue(queue', lots', queue)
  {
  }

  /** Trades the taker against the order at the head, which is dropped once used up. */
  method TradeHead(queue: seq<Order>, o: Order, ghost buy: bool, ghost lots: seq<Lot>)
    returns (queue': seq<Order>, fill: int, ghost lots': seq<Lot>)
    requires queue != [] && Holds(queue, lots) && NoDuplicates(queue) && o !in queue
    requires o.qty > 0 && Accepts(buy, o.price, queue[0].price)
    modifies o`qty, queue[0]
    ensures fill == Min(old(o.qty), old(queue[0].qty)) && o.qty == old(o.qty) - fill
    ensures if old(queue[0].qty) == fill then queue' == queue[1..] else queue' == queue && o.qty == 0
    ensures Queue(queue', lots', queue)
    ensures Sweep(lots, old(o.qty), buy, o.price)
         == Resumed([Fill(queue[0].id, queue[0].price, fill)], Sweep(lots', o.qty, buy, o.price))
  {
    var best := queue[0];
    ghost var q := o.qty;
    fill := Min(o.qty, best.qty);
    o.qty := o.qty - fill;
    best.qty := best.qty - fill;
    if best.qty == 0 {
      queue' := queue[1..];
    } else {
      queue' := queue;
    }
    lots' := UseHead(lots, fill);
    forall i | 1 <= i < |queue| ensures queue[i].AsLot() == lots[i] {
      assert queue[i] != queue[0] && queue[i] in queue;
    }
    HeadTraded(queue, lots, fill, queue', lots');
    SweepStep(lots, q, buy, o.price, lots', Fill(best.id, best.price, fill));
  }

  /** One turn of the matching loop that started on lots0 and has made `fills` so far. */
  method SweepOnce(queue: seq<Order>, o: Order, ghost buy: bool, ghost lots: seq<Lot>, ghost lots0: seq<Lot>,
                   ghost qty0: int, ghost fills: seq<Fill>, ghost fillPrice: real, ghost fillQty: int)
    returns (queue': seq<Order>, fill: int, ghost lots': seq<Lot>, ghost fills': seq<Fill>)
    requires queue != [] && Holds(queue, lots) && NoDuplicates(queue) && o !in queue
    requires o.qty > 0 && Accepts(buy, o.price, queue[0].price)
    requires Midway(lots0, qty0, buy, o.price, fills, lots, o.qty, fillPrice, fillQty)
    modifies o`qty, queue[0]
    ensures |queue'| < |queue| || (queue' == queue && o.qty == 0)
    ensures Queue(queue', lots', queue)
    ensures Midway(lots0, qty0, buy, o.price, fills', lots', o.qty, queue[0].price, fillQty + fill)
  {
    ghost var q := o.qty;
    queue', fill, lots' := TradeHead(queue, o, buy, lots);
    ghost var f := Fill(queue[0].id, queue[0].price, fill);
    MidwayStep(lots0, qty0, buy, o.price, fills, lots, q, fillPrice, fillQty, f, lots');
    fills' := fills + [f];
  }

  /** The matching loop of either branch: on the asks for a buy order, on the bids otherwise. */
  method SweepQueue(queue0: seq<Order>, o: Order, buy: bool, ghost lots0: seq<Lot>)
    returns (queue: seq<Order>, fillPrice: real, fillQty: int, ghost lots: seq<Lot>)
    requires Queue(queue0, lots0, queue0) && o !in queue0
    modifies o`qty, queue0
    ensures Queue(queue, lots, queue0)
    ensures var s := Sweep(lots0, old(o.qty), buy, o.price);
            && lots == s.rest && o.qty == s.left
            && fillPrice == FillPrice(s.fills) && fillQty == FillQty(s.fills)
  {
    queue, lots, fillPrice, fillQty := queue0, lots0, 0.0, 0;
    ghost var fills: seq<Fill> := [];
    while |queue| > 0 && o.qty > 0
      invariant Queue(queue, lots, queue0)
      invariant Midway(lots0, old(o.qty), buy, o.price, fills, lots, o.qty, fillPrice, fillQty)
      decreases |queue|, o.qty
    {
      var best := queue[0];
      assert best in queue;
      if !Accepts(buy, o.price, best.price) {
        break;
      }
      var fill;
      ghost var before := queue;
      queue, fill, lots, fills := SweepOnce(queue, o, buy, lots, lots0, old(o.qty), fills, fillPrice, fillQty);
      QueueFrom(queue, lots, before, queue0);
      fillPrice := best.price;
      fillQty := fillQty + fill;
    }
    MidwayDone(lots0, old(o.qty), buy, o.price, fills, lots, o.qty, fillPrice, fillQty);
  }

  /** Either branch of match: sweep the opposite side, rest what is left on the own side. */
  method MatchSides(own0: seq<Order>, opp0: seq<Order>, o: Order, buy: bool, ghost b: Book)
    returns (own: seq<Order>, opp: seq<Order>, fillPrice: real, fillQty: int, ghost b': Book)
    requires Holds(own0, b.Side(buy)) && Holds(opp0, b.Side(!buy))
    requires NoDuplicates(own0) && NoDuplicates(opp0) && forall x :: x in own0 ==> x !in opp0
    requires o !in own0 && o !in opp0 && buy == (o.side == BUY)
    modifies o`qty, opp0
    ensures Holds(own, b'.Side(buy)) && Holds(opp, b'.Side(!buy))
    ensures NoDuplicates(own) && NoDuplicates(opp) && forall x :: x in own ==> x !in opp
    ensures forall x :: x in own ==> x in own0 || x == o
    ensures forall x :: x in opp ==> x in opp0
    ensures Matched(b, old(o.AsSubmission()), b')
    ensures var s := Outcome(b, old(o.AsSubmission()));
            Reports(s, fillPrice, fillQty) && o.qty == s.left
  {
    ghost var lots, rest := b.Side(buy), [];
    own := own0;
    opp, fillPrice, fillQty, rest := SweepQueue(opp0, o, buy, b.Side(!buy));
    assert forall i :: 0 <= i < |own0| ==> own0[i] in own0;
    if o.qty > 0 {
      own, lots := RestOn(own0, o, buy, lots);
    }
    b' := if buy then Book(lots, rest) else Book(rest, lots);
  }

  /** The two lists hold the two sides of a well-formed book, no order object twice. */
  ghost predicate Shows(bids: seq<Order>, asks: seq<Order>, b: Book)
    reads bids, asks
  {
    && Holds(bids, b.bids) && Holds(asks, b.asks)
    && NoDuplicates(bids) && NoDuplicates(asks) && (forall x :: x in bids ==> x !in asks)
    && BookOk(b)
  }

  /** The list work of match. */
  method MatchLists(bids0: seq<Order>, asks0: seq<Order>, o: Order, ghost b: Book)
    returns (bids: seq<Order>, asks: seq<Order>, fillPrice: real, fillQty: int, ghost b': Book)
    requires Shows(bids0, asks0, b) && o !in bids0 && o !in asks0
    modifies o`qty, bids0, asks0
    ensures Shows(bids, asks, b')
    ensures forall x :: x in bids || x in asks ==> x in bids0 || x in asks0 || x == o
    ensures Matched(b, old(o.AsSubmission()), b')
    ensures var s := Outcome(b, old(o.AsSubmission()));
            Reports(s, fillPrice, fillQty) && o.qty == s.left
  {
    if o.side == BUY {
      bids, asks, fillPrice, fillQty, b' := MatchSides(bids0, asks0, o, true, b);
    } else {
      asks, bids, fillPrice, fillQty, b' := MatchSides(asks0, bids0, o, false, b);
    }
    MatchKeepsBook(b, old(o.AsSubmission()), b');
  }

  class OrderBook {
    var bids: seq<Order>
    var asks: seq<Order>
    ghost var book: Book  // the values the two sides hold

    ghost function Orders(): set<Order>
      reads this
    {
      (set x | x in bids) + (set x | x in asks)
    }

    ghost predicate Valid()
      reads this, bids, asks
    {
      Shows(bids, asks, book)
    }

    constructor ()
      ensures Valid() && book == EMPTY_BOOK && bids == [] && asks == []
    {
      bids, asks, book := [], [], EMPTY_BOOK;
    }

    method Store(newBids: seq<Order>, newAsks: seq<Order>, ghost b: Book)
      requires Shows(newBids, newAsks, b)
      modifies this
      ensures Valid() && bids == newBids && asks == newAsks && book == b
    {
      bids, asks, book := newBids, newAsks, b;
    }

    /** One order against the book. The returned price and amount, the amount left on the
        order and both sides of the book are exactly those of the value-level step; the price
        is 0 when nothing was filled, and the price of some opposite order otherwise. */
    method Match(o: Order) returns (fillPrice: real, fillQty: int)
      requires Valid()
      requires o !in bids && o !in asks
      modifies this, o`qty, bids, asks
      ensures Valid()
      ensures Matched(old(book), old(o.AsSubmission()), book)
      ensures var s := Outcome(old(book), old(o.AsSubmission()));
              Reports(s, fillPrice, fillQty) && o.qty == s.left
      ensures fillQty == old(o.qty) - o.qty >= 0
      ensures fillQty == 0 ==> fillPrice == 0.0
      ensures fillQty > 0 ==> var opp := if o.side == BUY then old(book.asks) else old(book.bids);
                              exists i :: 0 <= i < |opp| && fillPrice == opp[i].price
      ensures Orders() <= old(Orders()) + {o}
    {
      var newBids, newAsks;
      ghost var newBook;
      ghost var submission := o.AsSubmission();
      newBids, newAsks, fillPrice, fillQty, newBook := MatchLists(bids, asks, o, book);
      ghost var opp, n := CallReturns(book, submission, fillPrice, fillQty);
      SweepConserves(opp, submission.lot.qty, submission.buy, submission.lot.price);
      Store(newBids, newAsks, newBook);
    }
  }
}
