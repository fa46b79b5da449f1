/** Price-time matching on values: what one call of OrderBook.match does to the two
    sides of a book, and what every run of such calls keeps.

    The flag `bids` says which side a list is; `buy` says which side the incoming order
    is on, so an incoming order meets the side `!buy`. Prices are reals. */
module Matching {
  import opened Sequences

  /** An order as the book holds it at some moment. */
  datatype Lot = Lot(id: string, price: real, qty: int, arrivedAt: int)

  datatype Book = Book(bids: seq<Lot>, asks: seq<Lot>) {
    function Side(bids: bool): seq<Lot> { if bids then this.bids else asks }
  }

  /** An incoming order. */
  datatype Submission = Submission(buy: bool, lot: Lot)

  /** One iteration of the matching loop: the resting order met, its price, the amount. */
  datatype Fill = Fill(maker: string, price: real, qty: int)

  /** What the matching loop leaves: the opposite side, the taker's open amount, its fills. */
  datatype Swept = Swept(rest: seq<Lot>, left: int, fills: seq<Fill>)

  const EMPTY_BOOK := Book([], [])

  /** The loop's result, seen from the middle of the loop: fills made so far, then the
      result of the remaining iterations. */
  function Resumed(done: seq<Fill>, s: Swept): Swept {
    s.(fills := done + s.fills)
  }

  function Min(a: int, b: int): int { if a < b then a else b }
  function Max(a: int, b: int): int { if a > b then a else b }

  /** Is p a strictly better price than q for an order resting on that side? */
  predicate Better(bids: bool, p: real, q: real) { if bids then p > q else p < q }

  /** The comparators of sortBids and sortAsks. */
  predicate Before(bids: bool, x: Lot, y: Lot) {
    if x.price != y.price then Better(bids, x.price, y.price) else x.arrivedAt < y.arrivedAt
  }

  /** The matching loop does not break on a best opposite price `best`; a limit of zero or
      less accepts every price. */
  predicate Accepts(buy: bool, limit: real, best: real) {
    !(Better(buy, best, limit) && limit > 0.0)
  }

  /** A side after a fill against its head, which is dropped once it is used up. */
  function UseHead(opp: seq<Lot>, fill: int): seq<Lot>
    requires opp != []
  {
    if opp[0].qty - fill == 0 then opp[1..] else [opp[0].(qty := opp[0].qty - fill)] + opp[1..]
  }

  function Sweep(opp: seq<Lot>, qty: int, buy: bool, limit: real): Swept {
    if opp == [] || qty <= 0 || !Accepts(buy, limit, opp[0].price) then
      Swept(opp, qty, [])
    else
      var best := opp[0];
      var fill := Min(qty, best.qty);
      var opp' := UseHead(opp, fill);
      if best.qty - fill == 0 then
        Resumed([Fill(best.id, best.price, fill)], Sweep(opp', qty - fill, buy, limit))
      else
        Swept(opp', qty - fill, [Fill(best.id, best.price, fill)])
  }

  function FillQty(fills: seq<Fill>): int {
    if fills == [] then 0 else fills[0].qty + FillQty(fills[1..])
  }

  function FillPrice(fills: seq<Fill>): real {
    if fills == [] then 0.0 else fills[|fills| - 1].price
  }

  /** The price and the amount match returns for a sweep. */
  predicate Reports(s: Swept, fillPrice: real, fillQty: int) {
    fillPrice == FillPrice(s.fills) && fillQty == FillQty(s.fills)
  }

  function Quantity(side: seq<Lot>): int {
    if side == [] then 0 else side[0].qty + Quantity(side[1..])
  }

  /** The whole quantity of a side that a taker with this limit would accept. */
  function AcceptableQty(side: seq<Lot>, buy: bool, limit: real): int {
    if side == [] then 0
    else (if Accepts(buy, limit, side[0].price) then side[0].qty else 0) + AcceptableQty(side[1..], buy, limit)
  }

  ghost predicate Sorted(side: seq<Lot>, bids: bool) {
    forall i, j {:trigger Before(bids, side[j], side[i])} :: 0 <= i < j < |side| ==> !Before(bids, side[j], side[i])
  }

  ghost predicate Positive(side: seq<Lot>) {
    forall i :: 0 <= i < |side| ==> side[i].qty > 0
  }

  /** Every bid price is strictly below every ask price. */
  ghost predicate Uncrossed(b: Book) {
    forall i, j :: 0 <= i < |b.bids| && 0 <= j < |b.asks| ==> b.bids[i].price < b.asks[j].price
  }

  ghost predicate BookOk(b: Book) {
    && Sorted(b.bids, true) && Sorted(b.asks, false)
    && Positive(b.bids) && Positive(b.asks)
    && Uncrossed(b)
  }

  function Outcome(b: Book, o: Submission): Swept {
    Sweep(b.Side(!o.buy), o.lot.qty, o.buy, o.lot.price)
  }

  /** What is left of the taker joins its own side, which is then sorted by an unstable
      sort: any ordered rearrangement may come out. */
  ghost predicate Rested(own: seq<Lot>, o: Lot, own': seq<Lot>, bids: bool) {
    if o.qty > 0 then multiset(own') == multiset(own + [o]) && Sorted(own', bids) else own' == own
  }

  /** One call of match. */
  ghost predicate Matched(b: Book, o: Submission, b': Book) {
    var s := Outcome(b, o);
    && b'.Side(!o.buy) == s.rest
    && Rested(b.Side(o.buy), o.lot.(qty := s.left), b'.Side(o.buy), o.buy)
  }

  /** A run of match calls on one book that starts empty. */
  ghost predicate Run(states: seq<Book>, orders: seq<Submission>) {
    && |states| == |orders| + 1
    && states[0] == EMPTY_BOOK
    && forall i {:trigger orders[i]} :: 0 <= i < |orders| ==> Matched(states[i], orders[i], states[i + 1])
  }

  // ---------------------------------------------------------------- the loop

  /** A turn of the loop that uses its order up. */
  lemma HeadUsedUp(opp: seq<Lot>, qty: int, buy: bool, limit: real) returns (f: Fill, t: Swept)
    requires opp != [] && qty > 0 && Accepts(buy, limit, opp[0].price) && opp[0].qty <= qty
    ensures f == Fill(opp[0].id, opp[0].price, opp[0].qty) && t == Sweep(opp[1..], qty - opp[0].qty, buy, limit)
    ensures Sweep(opp, qty, buy, limit) == Resumed([f], t)
  {
    f, t := Fill(opp[0].id, opp[0].price, opp[0].qty), Sweep(opp[1..], qty - opp[0].qty, buy, limit);
  }

  /** A turn of the loop that does not: it is the last one. */
  lemma HeadUsedPartly(opp: seq<Lot>, qty: int, buy: bool, limit: real) returns (f: Fill)
    requires opp != [] && qty > 0 && Accepts(buy, limit, opp[0].price) && qty < opp[0].qty
    ensures f == Fill(opp[0].id, opp[0].price, qty)
    ensures Sweep(opp, qty, buy, limit) == Swept(UseHead(opp, qty), 0, [f])
  {
    f := Fill(opp[0].id, opp[0].price, qty);
  }

  lemma {:induction false} NothingAcceptable(side: seq<Lot>, buy: bool, limit: real)
    requires forall i :: 0 <= i < |side| ==> !Accepts(buy, limit, side[i].price)
    ensures AcceptableQty(side, buy, limit) == 0
  {
    if side == [] {
    } else {
      NothingAcceptable(side[1..], buy, limit);
    }
  }

  lemma {:induction false} AcceptableNonNegative(side: seq<Lot>, buy: bool, limit: real)
    requires Positive(side)
    ensures AcceptableQty(side, buy, limit) >= 0
  {
    if side == [] {
    } else {
      AcceptableNonNegative(side[1..], buy, limit);
    }
  }

  lemma AcceptsBetter(buy: bool, limit: real, x: Lot, y: Lot)
    requires !Before(!buy, y, x)
    requires Accepts(buy, limit, y.price)
    ensures Accepts(buy, limit, x.price)
  {
  }

  /** The amount filled is the smaller of what was asked for and what the whole opposite
      side offers at acceptable prices. */
  lemma {:induction false} SweepFillsExactly(opp: seq<Lot>, qty: int, buy: bool, limit: real)
    requires Sorted(opp, !buy) && Positive(opp)
    ensures var s := Sweep(opp, qty, buy, limit);
            && FillQty(s.fills) == Min(Max(qty, 0), AcceptableQty(opp, buy, limit))
            && s.left == qty - FillQty(s.fills)
  {
    AcceptableNonNegative(opp, buy, limit);
    if opp == [] || qty <= 0 {
    } else if !Accepts(buy, limit, opp[0].price) {
      forall i | 0 <= i < |opp| ensures !Accepts(buy, limit, opp[i].price) {
        if i > 0 && Accepts(buy, limit, opp[i].price) { AcceptsBetter(buy, limit, opp[0], opp[i]); }
      }
      NothingAcceptable(opp, buy, limit);
    } else {
      AcceptableNonNegative(opp[1..], buy, limit);
      var fill := Min(qty, opp[0].qty);
      if opp[0].qty - fill == 0 {
        SweepFillsExactly(opp[1..], qty - fill, buy, limit);
        var s := Sweep(opp[1..], qty - fill, buy, limit);
        var f := Fill(opp[0].id, opp[0].price, fill);
        assert ([f] + s.fills)[1..] == s.fills;
      }
    }
  }

  /** The fills are against the first resting orders, at their prices. */
  ghost predicate FillsOf(opp: seq<Lot>, fills: seq<Fill>) {
    && |fills| <= |opp|
    && forall i :: 0 <= i < |fills| ==> fills[i].maker == opp[i].id && fills[i].price == opp[i].price
  }

  /** Each of these is used up, except perhaps the last. */
  ghost predicate UsesUp(opp: seq<Lot>, fills: seq<Fill>)
    requires FillsOf(opp, fills)
  {
    var n := |fills|;
    && (forall i :: 0 <= i < n - 1 ==> fills[i].qty == opp[i].qty)
    && (n > 0 ==> 0 < fills[n - 1].qty <= opp[n - 1].qty)
  }

  /** What they leave of the side. */
  ghost function Remaining(opp: seq<Lot>, fills: seq<Fill>): seq<Lot>
    requires FillsOf(opp, fills)
  {
    var n := |fills|;
    if n > 0 && fills[n - 1].qty < opp[n - 1].qty
    then [opp[n - 1].(qty := opp[n - 1].qty - fills[n - 1].qty)] + opp[n..]
    else opp[n..]
  }

  ghost predicate TakesPrefix(opp: seq<Lot>, s: Swept) {
    FillsOf(opp, s.fills) && UsesUp(opp, s.fills) && s.rest == Remaining(opp, s.fills)
  }

  /** The orders consumed are a prefix of the opposite side, each used up except possibly
      the last, which stays at the head with the remainder. */
  lemma {:induction false} SweepTakesPrefix(opp: seq<Lot>, qty: int, buy: bool, limit: real)
    requires Positive(opp)
    ensures TakesPrefix(opp, Sweep(opp, qty, buy, limit))
  {
    if opp == [] || qty <= 0 || !Accepts(buy, limit, opp[0].price) {
    } else if opp[0].qty <= qty {
      var f, t := HeadUsedUp(opp, qty, buy, limit);
      SweepTakesPrefix(opp[1..], qty - opp[0].qty, buy, limit);
      TakesOneMore(opp, f, t);
    } else {
      var f := HeadUsedPartly(opp, qty, buy, limit);
      TakesPart(opp, f, 0);
    }
  }

  lemma TakesPart(opp: seq<Lot>, f: Fill, left: int)
    requires opp != [] && 0 < f.qty < opp[0].qty
    requires f == Fill(opp[0].id, opp[0].price, f.qty)
    ensures TakesPrefix(opp, Swept(UseHead(opp, f.qty), left, [f]))
  {
  }

  lemma FillsOfOneMore(opp: seq<Lot>, f: Fill, fills: seq<Fill>)
    requires opp != [] && FillsOf(opp[1..], fills) && f.maker == opp[0].id && f.price == opp[0].price
    ensures FillsOf(opp, [f] + fills)
  {
    forall i | 0 < i <= |fills| ensures ([f] + fills)[i] == fills[i - 1] && opp[i] == opp[1..][i - 1] {}
  }

  lemma UsesUpOneMore(opp: seq<Lot>, f: Fill, fills: seq<Fill>)
    requires opp != [] && FillsOf(opp[1..], fills) && FillsOf(opp, [f] + fills)
    requires UsesUp(opp[1..], fills) && f.qty == opp[0].qty > 0
    ensures UsesUp(opp, [f] + fills)
  {
    forall i | 0 < i <= |fills| ensures ([f] + fills)[i] == fills[i - 1] && opp[i] == opp[1..][i - 1] {}
  }

  lemma RemainingOneMore(opp: seq<Lot>, f: Fill, fills: seq<Fill>)
    requires opp != [] && FillsOf(opp[1..], fills) && FillsOf(opp, [f] + fills) && f.qty == opp[0].qty
    ensures Remaining(opp, [f] + fills) == Remaining(opp[1..], fills)
  {
    var n := |fills|;
    assert opp[1..][n..] == opp[n + 1..];
    if n > 0 { assert ([f] + fills)[n] == fills[n - 1] && opp[n] == opp[1..][n - 1]; }
  }

  lemma TakesOneMore(opp: seq<Lot>, f: Fill, t: Swept)
    requires opp != [] && opp[0].qty > 0 && TakesPrefix(opp[1..], t)
    requires f == Fill(opp[0].id, opp[0].price, opp[0].qty)
    ensures TakesPrefix(opp, Resumed([f], t))
  {
    FillsOfOneMore(opp, f, t.fills);
    UsesUpOneMore(opp, f, t.fills);
    RemainingOneMore(opp, f, t.fills);
  }

  lemma NoneAcceptableAfter(side: seq<Lot>, buy: bool, limit: real)
    requires Sorted(side, !buy)
    requires side == [] || !Accepts(buy, limit, side[0].price)
    ensures forall i :: 0 <= i < |side| ==> !Accepts(buy, limit, side[i].price)
  {
    forall i | 0 <= i < |side| ensures !Accepts(buy, limit, side[i].price) {
      if i > 0 && Accepts(buy, limit, side[i].price) { AcceptsBetter(buy, limit, side[0], side[i]); }
    }
  }

  /** When the taker is left with something, nothing acceptable remains opposite. */
  lemma {:induction false} SweepStopsRight(opp: seq<Lot>, qty: int, buy: bool, limit: real)
    requires Sorted(opp, !buy) && Positive(opp)
    ensures var s := Sweep(opp, qty, buy, limit);
            s.left > 0 ==> forall i :: 0 <= i < |s.rest| ==> !Accepts(buy, limit, s.rest[i].price)
  {
    if opp == [] || qty <= 0 {
    } else if !Accepts(buy, limit, opp[0].price) {
      NoneAcceptableAfter(opp, buy, limit);
    } else if opp[0].qty <= qty {
      var f, t := HeadUsedUp(opp, qty, buy, limit);
      SweepStopsRight(opp[1..], qty - opp[0].qty, buy, limit);
    } else {
      var f := HeadUsedPartly(opp, qty, buy, limit);
    }
  }

  /** Only acceptable prices are touched. */
  lemma {:induction false} SweepTouchesAcceptable(opp: seq<Lot>, qty: int, buy: bool, limit: real, i: nat)
    requires Positive(opp)
    requires i < |Sweep(opp, qty, buy, limit).fills|
    ensures Accepts(buy, limit, Sweep(opp, qty, buy, limit).fills[i].price)
  {
    if i == 0 {
    } else {
      SweepTouchesAcceptable(opp[1..], qty - opp[0].qty, buy, limit, i - 1);
    }
  }

  /** The reported price is the worst one touched. */
  lemma SweepReportsWorst(opp: seq<Lot>, s: Swept, buy: bool)
    requires Sorted(opp, !buy) && TakesPrefix(opp, s)
    ensures forall i :: 0 <= i < |s.fills| ==> !Better(buy, s.fills[i].price, FillPrice(s.fills))
  {
    forall i | 0 <= i < |s.fills| ensures !Better(buy, s.fills[i].price, FillPrice(s.fills)) {
      if i < |s.fills| - 1 { assert !Before(!buy, opp[|s.fills| - 1], opp[i]); }
    }
  }

  /** The loop comes to opp[i] with something left to fill and does not break there. */
  predicate Consumes(opp: seq<Lot>, qty: int, buy: bool, limit: real, i: nat) {
    i < |opp| && Accepts(buy, limit, opp[i].price) && Quantity(opp[..i]) < qty
  }

  lemma {:induction false} QuantityNonNegative(side: seq<Lot>)
    requires Positive(side)
    ensures Quantity(side) >= 0
  {
    if side == [] {
    } else {
      QuantityNonNegative(side[1..]);
    }
  }

  lemma QuantityOfPrefix(opp: seq<Lot>, i: nat)
    requires 0 < i <= |opp| && Positive(opp)
    ensures Quantity(opp[..i]) == opp[0].qty + Quantity(opp[1..][..i - 1]) && Quantity(opp[1..][..i - 1]) >= 0
  {
    assert opp[..i][1..] == opp[1..][..i - 1];
    QuantityNonNegative(opp[1..][..i - 1]);
  }

  /** Which orders a matching loop consumes, told before the call: the acceptable ones before
      which less is offered than the taker asks for. */
  lemma {:induction false} ConsumesIff(opp: seq<Lot>, qty: int, buy: bool, limit: real, i: nat)
    requires Sorted(opp, !buy) && Positive(opp)
    ensures i < |Sweep(opp, qty, buy, limit).fills| <==> Consumes(opp, qty, buy, limit, i)
    decreases |opp|
  {
    if i >= |opp| {
      SweepTakesPrefix(opp, qty, buy, limit);
    } else if i == 0 {
      assert opp[..0] == [];
    } else {
      QuantityOfPrefix(opp, i);
      if !Accepts(buy, limit, opp[0].price) {
        NoneAcceptableAfter(opp, buy, limit);
      } else if 0 < opp[0].qty <= qty {
        ConsumesIff(opp[1..], qty - opp[0].qty, buy, limit, i - 1);
      }
    }
  }

  /** Every match: exact amount, worst price, prefix of the opposite side. */
  lemma MatchFillsExactly(b: Book, o: Submission)
    requires BookOk(b)
    ensures var s := Outcome(b, o);
            var opp := b.Side(!o.buy);
            && FillQty(s.fills) == Min(Max(o.lot.qty, 0), AcceptableQty(opp, o.buy, o.lot.price))
            && TakesPrefix(opp, s)
            && (forall i :: 0 <= i < |s.fills| ==>
                  && Accepts(o.buy, o.lot.price, s.fills[i].price)
                  && !Better(o.buy, s.fills[i].price, FillPrice(s.fills)))
  {
    var opp := b.Side(!o.buy);
    SweepFillsExactly(opp, o.lot.qty, o.buy, o.lot.price);
    SweepTakesPrefix(opp, o.lot.qty, o.buy, o.lot.price);
    forall i | 0 <= i < |Outcome(b, o).fills|
      ensures Accepts(o.buy, o.lot.price, Outcome(b, o).fills[i].price)
    {
      SweepTouchesAcceptable(opp, o.lot.qty, o.buy, o.lot.price, i);
    }
    SweepReportsWorst(opp, Outcome(b, o), o.buy);
  }

  lemma {:induction false} PositiveFills(fills: seq<Fill>)
    requires forall i :: 0 <= i < |fills| ==> fills[i].qty > 0
    ensures FillQty(fills) >= 0 && (FillQty(fills) == 0 <==> fills == [])
  {
    if fills == [] {
    } else {
      PositiveFills(fills[1..]);
    }
  }

  /** What a call returns, told before it: the price of the last order the loop consumes, and
      price and amount 0 when it consumes none. */
  lemma CallReturns(b: Book, o: Submission, p: real, q: int) returns (opp: seq<Lot>, n: nat)
    requires BookOk(b) && Reports(Outcome(b, o), p, q)
    ensures opp == (if o.buy then b.asks else b.bids) && n <= |opp|
    ensures forall i: nat :: i < n <==> Consumes(opp, o.lot.qty, o.buy, o.lot.price, i)
    ensures p == if n == 0 then 0.0 else opp[n - 1].price
    ensures q >= 0 && (q == 0 <==> n == 0)
  {
    opp := b.Side(!o.buy);
    var s := Outcome(b, o);
    n := |s.fills|;
    SweepTakesPrefix(opp, o.lot.qty, o.buy, o.lot.price);
    PositiveFills(s.fills);
    forall i: nat ensures i < n <==> Consumes(opp, o.lot.qty, o.buy, o.lot.price, i) {
      ConsumesIff(opp, o.lot.qty, o.buy, o.lot.price, i);
    }
  }

  lemma {:induction false} AllAcceptable(side: seq<Lot>, buy: bool, limit: real)
    requires limit <= 0.0
    ensures AcceptableQty(side, buy, limit) == Quantity(side)
  {
    if side == [] {
    } else {
      AllAcceptable(side[1..], buy, limit);
    }
  }

  /** A market order, which has a limit of zero or less, takes all it asked for or all there
      is, at any price. */
  lemma MarketOrderTakesAll(b: Book, o: Submission)
    requires BookOk(b) && o.lot.price <= 0.0
    ensures var all := Quantity(b.Side(!o.buy));
            FillQty(Outcome(b, o).fills) == if o.lot.qty <= 0 then 0 else if o.lot.qty < all then o.lot.qty else all
  {
    SweepFillsExactly(b.Side(!o.buy), o.lot.qty, o.buy, o.lot.price);
    AllAcceptable(b.Side(!o.buy), o.buy, o.lot.price);
    QuantityNonNegative(b.Side(!o.buy));
  }

  /** A limit buy order pays at most its limit, and when something is left of it every ask left
      is above the limit. */
  lemma LimitBuyKept(b: Book, o: Submission, b': Book)
    requires BookOk(b) && Matched(b, o, b') && o.buy && o.lot.price > 0.0
    ensures var s := Outcome(b, o);
            && (forall i :: 0 <= i < |s.fills| ==> s.fills[i].price <= o.lot.price)
            && (s.left > 0 ==> forall i :: 0 <= i < |b'.asks| ==> b'.asks[i].price > o.lot.price)
  {
    MatchFillsExactly(b, o);
    SweepStopsRight(b.asks, o.lot.qty, true, o.lot.price);
    assert forall p :: Accepts(true, o.lot.price, p) <==> p <= o.lot.price;
  }

  /** A limit sell order gets at least its limit, and when something is left of it every bid
      left is below the limit. */
  lemma LimitSellKept(b: Book, o: Submission, b': Book)
    requires BookOk(b) && Matched(b, o, b') && !o.buy && o.lot.price > 0.0
    ensures var s := Outcome(b, o);
            && (forall i :: 0 <= i < |s.fills| ==> s.fills[i].price >= o.lot.price)
            && (s.left > 0 ==> forall i :: 0 <= i < |b'.bids| ==> b'.bids[i].price < o.lot.price)
  {
    MatchFillsExactly(b, o);
    SweepStopsRight(b.bids, o.lot.qty, false, o.lot.price);
    assert forall p :: Accepts(false, o.lot.price, p) <==> p >= o.lot.price;
  }

  lemma {:induction false} FillQtyAppend(fills: seq<Fill>, f: Fill)
    ensures FillQty(fills + [f]) == FillQty(fills) + f.qty
  {
    if fills == [] {
      assert fills + [f] == [f];
    } else {
      assert (fills + [f])[1..] == fills[1..] + [f];
      FillQtyAppend(fills[1..], f);
    }
  }

  /** One iteration: a fill against the head, then the remaining iterations. */
  lemma SweepStep(opp: seq<Lot>, qty: int, buy: bool, limit: real, opp': seq<Lot>, f: Fill)
    requires opp != [] && qty > 0 && Accepts(buy, limit, opp[0].price)
    requires f == Fill(opp[0].id, opp[0].price, Min(qty, opp[0].qty))
    requires opp' == UseHead(opp, f.qty)
    ensures Sweep(opp, qty, buy, limit) == Resumed([f], Sweep(opp', qty - f.qty, buy, limit))
  {
  }

  /** The loop that started on (opp0, qty0) has made the fills `done`, reports their price
      and amount, and still has (opp, qty) before it. */
  ghost predicate Midway(opp0: seq<Lot>, qty0: int, buy: bool, limit: real, done: seq<Fill>,
                         opp: seq<Lot>, qty: int, fillPrice: real, fillQty: int)
  {
    && Sweep(opp0, qty0, buy, limit) == Resumed(done, Sweep(opp, qty, buy, limit))
    && fillPrice == FillPrice(done) && fillQty == FillQty(done)
  }

  lemma ResumedTwice(done: seq<Fill>, f: Fill, s: Swept)
    ensures Resumed(done, Resumed([f], s)) == Resumed(done + [f], s)
  {
    assert done + ([f] + s.fills) == done + [f] + s.fills;
  }

  lemma MidwayStep(opp0: seq<Lot>, qty0: int, buy: bool, limit: real, done: seq<Fill>,
                   opp: seq<Lot>, qty: int, fillPrice: real, fillQty: int,
                   f: Fill, opp': seq<Lot>)
    requires Midway(opp0, qty0, buy, limit, done, opp, qty, fillPrice, fillQty)
    requires Sweep(opp, qty, buy, limit) == Resumed([f], Sweep(opp', qty - f.qty, buy, limit))
    ensures Midway(opp0, qty0, buy, limit, done + [f], opp', qty - f.qty, f.price, fillQty + f.qty)
  {
    ResumedTwice(done, f, Sweep(opp', qty - f.qty, buy, limit));
    FillQtyAppend(done, f);
  }

  lemma MidwayDone(opp0: seq<Lot>, qty0: int, buy: bool, limit: real, done: seq<Fill>,
                   opp: seq<Lot>, qty: int, fillPrice: real, fillQty: int)
    requires Midway(opp0, qty0, buy, limit, done, opp, qty, fillPrice, fillQty)
    requires opp == [] || qty <= 0 || !Accepts(buy, limit, opp[0].price)
    ensures Sweep(opp0, qty0, buy, limit) == Swept(opp, qty, done)
  {
    assert done + [] == done;
  }

  // ---------------------------------------------------------------- the book

  /** Membership survives a rearrangement. */
  lemma RestedMembers(own: seq<Lot>, o: Lot, own': seq<Lot>, bids: bool, x: Lot)
    requires Rested(own, o, own', bids)
    ensures x in own' <==> x in own || (o.qty > 0 && x == o)
  {
    if o.qty > 0 { PermutationMembers(own', own + [o], x); }
  }

  /** Each order left on the opposite side was there before, possibly with more quantity. */
  lemma SweptMembers(opp: seq<Lot>, qty: int, buy: bool, limit: real, i: nat)
    requires Positive(opp)
    requires i < |Sweep(opp, qty, buy, limit).rest|
    ensures var s := Sweep(opp, qty, buy, limit);
            var k := i + |opp| - |s.rest|;
            && 0 <= k < |opp|
            && s.rest[i].(qty := 0) == opp[k].(qty := 0)
            && 0 < s.rest[i].qty <= opp[k].qty
            && (i > 0 ==> s.rest[i] == opp[k])
  {
    SweepTakesPrefix(opp, qty, buy, limit);
    PrefixMembers(opp, Sweep(opp, qty, buy, limit), i);
  }

  lemma PrefixMembers(opp: seq<Lot>, s: Swept, i: nat)
    requires Positive(opp) && TakesPrefix(opp, s) && i < |s.rest|
    ensures var k := i + |opp| - |s.rest|;
            && 0 <= k < |opp|
            && s.rest[i].(qty := 0) == opp[k].(qty := 0)
            && 0 < s.rest[i].qty <= opp[k].qty
            && (i > 0 ==> s.rest[i] == opp[k])
  {
  }

  lemma UseHeadKeepsSide(opp: seq<Lot>, fill: int, bids: bool)
    requires opp != [] && fill <= opp[0].qty && Sorted(opp, bids) && Positive(opp)
    ensures Sorted(UseHead(opp, fill), bids) && Positive(UseHead(opp, fill))
  {
    var rest, d := UseHead(opp, fill), if opp[0].qty - fill == 0 then 1 else 0;
    forall i, j | 0 <= i < j < |rest| ensures !Before(bids, rest[j], rest[i]) {
      assert !Before(bids, opp[j + d], opp[i + d]);
    }
  }

  lemma {:induction false} SweepKeepsSide(opp: seq<Lot>, qty: int, buy: bool, limit: real)
    requires Sorted(opp, !buy) && Positive(opp)
    ensures var s := Sweep(opp, qty, buy, limit);
            Sorted(s.rest, !buy) && Positive(s.rest)
    decreases |opp|
  {
    if opp == [] || qty <= 0 || !Accepts(buy, limit, opp[0].price) {
    } else {
      var fill := Min(qty, opp[0].qty);
      UseHeadKeepsSide(opp, fill, !buy);
      if opp[0].qty - fill == 0 {
        SweepKeepsSide(opp[1..], qty - fill, buy, limit);
      }
    }
  }

  lemma RestedKeepsPositive(own: seq<Lot>, o: Lot, own': seq<Lot>, bids: bool)
    requires Rested(own, o, own', bids) && Positive(own)
    ensures Positive(own')
  {
    forall i | 0 <= i < |own'| ensures own'[i].qty > 0 { RestedMembers(own, o, own', bids, own'[i]); }
  }

  lemma InsertKeepsSorted(l: seq<Lot>, x: Lot, k: nat, bids: bool)
    requires Sorted(l, bids) && k <= |l|
    requires k > 0 ==> !Before(bids, x, l[k - 1])
    requires forall i :: k <= i < |l| ==> Before(bids, x, l[i])
    ensures Sorted(l[..k] + [x] + l[k..], bids)
  {
    var t := l[..k] + [x] + l[k..];
    forall i, j | 0 <= i < j < |t| ensures !Before(bids, t[j], t[i]) {
      if j == k && i < k - 1 { assert !Before(bids, l[k - 1], l[i]); }
    }
  }

  /** One side's prices against the other, in the orientation of the incoming order. */
  lemma MatchKeepsUncrossed(b: Book, o: Submission, b': Book)
    requires BookOk(b) && Matched(b, o, b')
    ensures Uncrossed(b')
  {
    var s := Outcome(b, o);
    var opp := b.Side(!o.buy);
    SweepStopsRight(opp, o.lot.qty, o.buy, o.lot.price);
    forall i, j | 0 <= i < |b'.bids| && 0 <= j < |b'.asks|
      ensures b'.bids[i].price < b'.asks[j].price
    {
      var mine := if o.buy then b'.bids[i] else b'.asks[j];
      var k := if o.buy then j else i;
      SweptMembers(opp, o.lot.qty, o.buy, o.lot.price, k);
      RestedMembers(b.Side(o.buy), o.lot.(qty := s.left), b'.Side(o.buy), o.buy, mine);
    }
  }

  /** Every call keeps the book invariant, whatever the order's price or quantity: market
      orders (price 0), negative prices and quantities of zero or less included. */
  lemma MatchKeepsBook(b: Book, o: Submission, b': Book)
    requires BookOk(b) && Matched(b, o, b')
    ensures BookOk(b')
  {
    MatchKeepsUncrossed(b, o, b');
    var s := Outcome(b, o);
    SweepKeepsSide(b.Side(!o.buy), o.lot.qty, o.buy, o.lot.price);
    RestedKeepsPositive(b.Side(o.buy), o.lot.(qty := s.left), b'.Side(o.buy), o.buy);
  }

  /** Over all runs both sides stay sorted, quantities positive, and the book uncrossed. */
  lemma {:induction false} RunKeepsBook(states: seq<Book>, orders: seq<Submission>, n: nat)
    requires Run(states, orders) && n < |states|
    ensures BookOk(states[n])
  {
    if n == 0 {
    } else {
      RunKeepsBook(states, orders, n - 1);
      MatchKeepsBook(states[n - 1], orders[n - 1], states[n]);
    }
  }

  /** That is, price-time priority: over all runs bids fall and asks rise in price, and within a
      price earlier orders come first. */
  lemma RunIsPriceTime(states: seq<Book>, orders: seq<Submission>, n: nat, i: nat, j: nat)
    requires Run(states, orders) && n < |states| && i < j
    ensures var b := states[n].bids;
            j < |b| ==> b[i].price >= b[j].price && (b[i].price == b[j].price ==> b[i].arrivedAt <= b[j].arrivedAt)
    ensures var a := states[n].asks;
            j < |a| ==> a[i].price <= a[j].price && (a[i].price == a[j].price ==> a[i].arrivedAt <= a[j].arrivedAt)
  {
    RunKeepsBook(states, orders, n);
    var b, a := states[n].bids, states[n].asks;
    if j < |b| { assert !Before(true, b[j], b[i]); }
    if j < |a| { assert !Before(false, a[j], a[i]); }
  }

  // ---------------------------------------------------------------- conservation

  lemma {:induction false} QuantityConcat(s: seq<Lot>, t: seq<Lot>)
    ensures Quantity(s + t) == Quantity(s) + Quantity(t)
  {
    if s == [] {
      assert s + t == t;
    } else {
      assert (s + t)[1..] == s[1..] + t;
      QuantityConcat(s[1..], t);
    }
  }

  lemma {:induction false} QuantityPermutation(s: seq<Lot>, t: seq<Lot>)
    requires multiset(s) == multiset(t)
    ensures Quantity(s) == Quantity(t)
  {
    if s == [] {
      assert |multiset(t)| == 0;
    } else {
      var i := PermutationIndex(s, t);
      QuantityPermutation(s[1..], t[..i] + t[i + 1..]);
      QuantityConcat(t[..i], t[i + 1..]);
      QuantityConcat(t[..i], t[i..]);
      assert t == t[..i] + t[i..];
    }
  }

  lemma {:induction false} SweepConserves(opp: seq<Lot>, qty: int, buy: bool, limit: real)
    ensures var s := Sweep(opp, qty, buy, limit);
            && Quantity(opp) == Quantity(s.rest) + FillQty(s.fills)
            && s.left == qty - FillQty(s.fills)
  {
    if opp == [] || qty <= 0 || !Accepts(buy, limit, opp[0].price) {
    } else if opp[0].qty <= qty {
      var f, t := HeadUsedUp(opp, qty, buy, limit);
      SweepConserves(opp[1..], qty - opp[0].qty, buy, limit);
      FillQtyStep(f, t.fills);
    } else {
      var f := HeadUsedPartly(opp, qty, buy, limit);
      QuantityStep(opp[0].(qty := opp[0].qty - qty), opp[1..]);
      FillQtyStep(f, []);
      assert [f] + [] == [f];
    }
  }

  lemma FillQtyStep(f: Fill, fills: seq<Fill>)
    ensures FillQty([f] + fills) == f.qty + FillQty(fills)
  {
    assert ([f] + fills)[1..] == fills;
  }

  lemma QuantityStep(x: Lot, side: seq<Lot>)
    ensures Quantity([x] + side) == x.qty + Quantity(side)
  {
    assert ([x] + side)[1..] == side;
  }

  /** One match takes the same amount off both sides. */
  lemma MatchConserves(b: Book, o: Submission, b': Book)
    requires BookOk(b) && Matched(b, o, b')
    ensures var traded := FillQty(Outcome(b, o).fills);
            && Quantity(b'.Side(!o.buy)) == Quantity(b.Side(!o.buy)) - traded
            && Quantity(b'.Side(o.buy)) == Quantity(b.Side(o.buy)) + Max(o.lot.qty, 0) - traded
  {
    var s := Outcome(b, o);
    var opp, own := b.Side(!o.buy), b.Side(o.buy);
    SweepConserves(opp, o.lot.qty, o.buy, o.lot.price);
    SweepFillsExactly(opp, o.lot.qty, o.buy, o.lot.price);
    AcceptableNonNegative(opp, o.buy, o.lot.price);
    var left := o.lot.(qty := s.left);
    if s.left > 0 {
      QuantityPermutation(b'.Side(o.buy), own + [left]);
      QuantityConcat(own, [left]);
    }
  }

  /** The positive quantity submitted on one side by the first n orders. */
  ghost function Submitted(orders: seq<Submission>, n: nat, buy: bool): int
    requires n <= |orders|
  {
    if n == 0 then 0 else
      Submitted(orders, n - 1, buy)
      + (if orders[n - 1].buy == buy then Max(orders[n - 1].lot.qty, 0) else 0)
  }

  /** The quantity reported filled by the first n calls. */
  ghost function Traded(states: seq<Book>, orders: seq<Submission>, n: nat): int
    requires |states| == |orders| + 1 && n <= |orders|
  {
    if n == 0 then 0 else
      Traded(states, orders, n - 1) + FillQty(Outcome(states[n - 1], orders[n - 1]).fills)
  }

  /** Submitted on a side = still resting there + traded, with the same traded amount on
      both sides. */
  ghost predicate Conserved(states: seq<Book>, orders: seq<Submission>, n: nat)
    requires |states| == |orders| + 1 && n <= |orders|
  {
    && Submitted(orders, n, true) == Quantity(states[n].bids) + Traded(states, orders, n)
    && Submitted(orders, n, false) == Quantity(states[n].asks) + Traded(states, orders, n)
  }

  lemma OneMoreConserved(states: seq<Book>, orders: seq<Submission>, k: nat, n: nat)
    requires |states| == |orders| + 1 && n == k + 1 <= |orders| && Conserved(states, orders, k)
    requires BookOk(states[k]) && Matched(states[k], orders[k], states[n])
    ensures Conserved(states, orders, n)
  {
    MatchConserves(states[k], orders[k], states[n]);
    SubmittedNext(orders, k, n, true);
    SubmittedNext(orders, k, n, false);
    TradedNext(states, orders, k, n);
  }

  lemma SubmittedNext(orders: seq<Submission>, k: nat, n: nat, buy: bool)
    requires n == k + 1 <= |orders|
    ensures Submitted(orders, n, buy)
         == Submitted(orders, k, buy) + (if orders[k].buy == buy then Max(orders[k].lot.qty, 0) else 0)
  {
  }

  lemma TradedNext(states: seq<Book>, orders: seq<Submission>, k: nat, n: nat)
    requires |states| == |orders| + 1 && n == k + 1 <= |orders|
    ensures Traded(states, orders, n) == Traded(states, orders, k) + FillQty(Outcome(states[k], orders[k]).fills)
  {
  }

  lemma NextConserved(states: seq<Book>, orders: seq<Submission>, k: nat, n: nat)
    requires Run(states, orders) && n == k + 1 <= |orders| && Conserved(states, orders, k)
    ensures Conserved(states, orders, n)
  {
    RunKeepsBook(states, orders, k);
    var o := orders[k];
    OneMoreConserved(states, orders, k, n);
  }

  /** Quantity is conserved over any run. */
  lemma {:induction false} RunConserves(states: seq<Book>, orders: seq<Submission>, n: nat)
    requires Run(states, orders) && n <= |orders|
    ensures Conserved(states, orders, n)
  {
    if n == 0 {
      StartConserved(states, orders);
    } else {
      RunConserves(states, orders, n - 1);
      NextConserved(states, orders, n - 1, n);
    }
  }

  lemma StartConserved(states: seq<Book>, orders: seq<Submission>)
    requires |states| == |orders| + 1 && states[0] == EMPTY_BOOK
    ensures Conserved(states, orders, 0)
  {
  }
}
