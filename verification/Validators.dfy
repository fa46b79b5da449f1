/** The validator as it is kept: pending-order objects whose filled mark is set in place,
    insertion by swapping towards the front, and a scan that stops at the order itself. */
module Validators {
  import opened Sequences
  import opened PriceTime

  class PendingOrder {
    const id: string
    const price: real
    const buy: bool
    const seqNo: int
    var filled: bool

    constructor (id: string, price: real, buy: bool, seqNo: int)
      ensures AsPending() == Pending(id, price, buy, seqNo, false)
    {
      this.id, this.price, this.buy, this.seqNo, this.filled := id, price, buy, seqNo, false;
    }

    function AsPending(): Pending
      reads this
    {
      Pending(id, price, buy, seqNo, filled)
    }
  }

  ghost predicate Holds(orders: seq<PendingOrder>, side: seq<Pending>)
    reads orders
  {
    |orders| == |side| && forall i :: 0 <= i < |orders| ==> side[i] == orders[i].AsPending()
  }

  ghost function InsertedAt(side: seq<Pending>, o: Pending, k: nat): (r: seq<Pending>)
    requires Ranked(side) && k <= |side|
    requires k > 0 ==> !Ahead(o, side[k - 1])
    requires forall i :: 0 <= i < |side| ==> side[i].buy == o.buy && side[i].seqNo < o.seqNo
    requires forall i :: k <= i < |side| ==> Ahead(o, side[i])
    ensures Ranked(r) && multiset(r) == multiset(side + [o])
    ensures |r| == |side| + 1 && r[k] == o
    ensures forall i :: 0 <= i < k ==> r[i] == side[i]
    ensures forall i :: k < i < |r| ==> r[i] == side[i - 1]
  {
    InsertKeepsRanked(side, o, k);
    InsertMultiset(side, o, k);
    side[..k] + [o] + side[k..]
  }

  /** insertBid and insertAsk: append, then swap towards the front while ahead. */
  method SwapIntoPlace(side: seq<PendingOrder>, o: PendingOrder) returns (side': seq<PendingOrder>, i: nat)
    ensures i <= |side| && side' == side[..i] + [o] + side[i..]
    ensures forall j :: i <= j < |side| ==> Ahead(o.AsPending(), side[j].AsPending())
    ensures i > 0 ==> !Ahead(o.AsPending(), side[i - 1].AsPending())
  {
    side' := side + [o];
    i := |side|;
    while i > 0
      invariant i <= |side|
      invariant side' == side[..i] + [o] + side[i..]
      invariant forall j :: i <= j < |side| ==> Ahead(o.AsPending(), side[j].AsPending())
    {
      SwapForward(side, o, i);
      var a, b := side'[i - 1], side'[i];
      if Ahead(b.AsPending(), a.AsPending()) {
        side' := side'[i - 1 := b][i := a];
        i := i - 1;
      } else {
        break;
      }
    }
  }

  lemma HoldsInserted(side: seq<PendingOrder>, shadow: seq<Pending>, o: PendingOrder, k: nat,
                      side': seq<PendingOrder>, shadow': seq<Pending>)
    requires Holds(side, shadow) && k <= |side| && side' == side[..k] + [o] + side[k..]
    requires |shadow'| == |shadow| + 1 && shadow'[k] == o.AsPending()
    requires forall i :: 0 <= i < k ==> shadow'[i] == shadow[i]
    requires forall i :: k < i < |shadow'| ==> shadow'[i] == shadow[i - 1]
    ensures Holds(side', shadow')
  {
  }

  method Insert(side: seq<PendingOrder>, o: PendingOrder, ghost shadow: seq<Pending>)
    returns (side': seq<PendingOrder>, ghost shadow': seq<Pending>)
    requires Holds(side, shadow) && Ranked(shadow)
    requires forall i :: 0 <= i < |shadow| ==> shadow[i].buy == o.buy && shadow[i].seqNo < o.seqNo
    ensures Holds(side', shadow') && Ranked(shadow')
    ensures multiset(shadow') == multiset(shadow + [o.AsPending()])
    ensures multiset(side') == multiset(side + [o])
  {
    var i;
    side', i := SwapIntoPlace(side, o);
    InsertMultiset(side, o, i);
    shadow' := InsertedAt(shadow, o.AsPending(), i);
    HoldsInserted(side, shadow, o, i, side', shadow');
  }

  /** The first order with this id on a side, as findOrder looks for it. */
  method FindOn(side: seq<PendingOrder>, id: string, ghost shadow: seq<Pending>) returns (i: nat)
    requires Holds(side, shadow)
    ensures i == IndexOf(shadow, id)
  {
    i := 0;
    while i < |side|
      invariant i <= |side|
      invariant forall j :: 0 <= j < i ==> side[j].id != id
    {
      if side[i].id == id {
        return;
      }
      i := i + 1;
    }
  }

  lemma ScanIsComplete(side: seq<Pending>, i: nat)
    requires Ranked(side) && i < |side|
    requires forall j :: 0 <= j < |side| ==> side[j].buy == side[i].buy
    ensures NextToFill(side, side[i]) <==>
            forall j :: 0 <= j < i && !side[j].filled ==> !Ahead(side[j], side[i])
  {
    forall j | i < j < |side| ensures !Ahead(side[j], side[i]) {
      assert Ahead(side[i], side[j]);
    }
  }

  /** The scan of RecordFill: it stops at the first order with the filled id, or at the first
      unfilled order with better priority. It decides the whole-side definition. */
  method Scan(side: seq<PendingOrder>, o: PendingOrder, ghost shadow: seq<Pending>, ghost at: nat)
    returns (ok: bool)
    requires Holds(side, shadow) && Ranked(shadow)
    requires at == IndexOf(shadow, o.id) < |side| && side[at] == o
    requires forall j :: 0 <= j < |shadow| ==> shadow[j].buy == o.buy
    ensures ok <==> NextToFill(shadow, o.AsPending())
  {
    ScanIsComplete(shadow, at);
    var k := 0;
    while k < |side|
      invariant k <= at
      invariant forall j :: 0 <= j < k && !shadow[j].filled ==> !Ahead(shadow[j], shadow[at])
    {
      var b := side[k];
      if b.id == o.id {
        assert k == at;
        return true;
      }
      if !b.filled && Ahead(b.AsPending(), o.AsPending()) {
        assert !shadow[k].filled && Ahead(shadow[k], shadow[at]);
        return false;
      }
      k := k + 1;
    }
    assert false;
    ok := true;
  }

  /** Judges a fill of the i-th order of a side and marks that order filled. */
  method FillOn(side: seq<PendingOrder>, i: nat, ghost shadow: seq<Pending>) returns (ok: bool)
    requires Holds(side, shadow) && Ranked(shadow)
    requires i < |side| && i == IndexOf(shadow, side[i].id)
    requires forall j :: 0 <= j < |shadow| ==> shadow[j].buy == side[i].buy
    modifies side[i]
    ensures ok <==> NextToFill(shadow, shadow[i])
    ensures Holds(side, MarkFilled(shadow, i))
  {
    var o := side[i];
    ok := Scan(side, o, shadow, i);
    forall k | 0 <= k < |side| && k != i ensures side[k] != o {
      if k < i { assert Ahead(shadow[k], shadow[i]); } else { assert Ahead(shadow[i], shadow[k]); }
    }
    o.filled := true;
  }

  /** The two lists hold the two sides of a well-formed shadow book. */
  ghost predicate Shows(bids: seq<PendingOrder>, asks: seq<PendingOrder>, s: Shadow)
    reads bids, asks
  {
    Holds(bids, s.bids) && Holds(asks, s.asks) && ShadowOk(s)
  }

  /** The list work of RecordOrder. */
  method RecordIn(bids: seq<PendingOrder>, asks: seq<PendingOrder>, id: string, price: real, buy: bool,
                  seqNo: int, ghost s: Shadow)
    returns (bids': seq<PendingOrder>, asks': seq<PendingOrder>, ghost s': Shadow)
    requires Shows(bids, asks, s) && seqNo == s.seqNo + 1
    ensures Shows(bids', asks', s')
    ensures Recorded(s, id, price, buy, s') && s'.seqNo == seqNo
    ensures if buy then asks' == asks else bids' == bids
    ensures s'.total == s.total && s'.correct == s.correct && s'.violations == s.violations
  {
    var o := new PendingOrder(id, price, buy, seqNo);
    bids', asks', s' := bids, asks, s.(seqNo := seqNo);
    ghost var side;
    if buy {
      bids', side := Insert(bids, o, s.bids);
    } else {
      asks', side := Insert(asks, o, s.asks);
    }
    s' := s'.WithSide(buy, side);
    RecordKeepsShadow(s, id, price, buy, s');
  }

  /** The list work of RecordFill. */
  method FillIn(bids: seq<PendingOrder>, asks: seq<PendingOrder>, id: string, ghost s: Shadow)
    returns (ok: bool, ghost s': Shadow)
    requires Shows(bids, asks, s)
    modifies bids, asks
    ensures ok <==> ValidFill(s, id)
    ensures s' == AfterFill(s, id) && Shows(bids, asks, s')
    ensures s'.seqNo == s.seqNo && s'.total == s.total + 1
    ensures s'.correct == s.correct + (if ok then 1 else 0)
    ensures s'.violations == s.violations + (if ok then 0 else 1)
  {
    s' := AfterFill(s, id);
    FillKeepsShadow(s, id);
    var i := FindOn(bids, id, s.bids);
    var j := FindOn(asks, id, s.asks);
    assert forall k, l :: 0 <= k < |bids| && 0 <= l < |asks| ==> bids[k] != asks[l];
    if i < |bids| {
      ok := FillOn(bids, i, s.bids);
    } else if j < |asks| {
      ok := FillOn(asks, j, s.asks);
    } else {
      ok := false;
    }
  }

  class Validator {
    var bids: seq<PendingOrder>
    var asks: seq<PendingOrder>
    var seqNo: int
    var total: int
    var correct: int
    var violations: int
    ghost var shadow: Shadow  // what the fields hold

    ghost predicate Valid()
      reads this, bids, asks
    {
      && Shows(bids, asks, shadow)
      && shadow.seqNo == seqNo && shadow.total == total
      && shadow.correct == correct && shadow.violations == violations
    }

    constructor ()
      ensures Valid() && shadow == EMPTY_SHADOW
    {
      bids, asks, seqNo, total, correct, violations := [], [], 0, 0, 0, 0;
      shadow := EMPTY_SHADOW;
    }

    /** The field updates of RecordOrder. */
    method Store(newBids: seq<PendingOrder>, newAsks: seq<PendingOrder>, ghost s: Shadow)
      requires Shows(newBids, newAsks, s) && s.seqNo == seqNo + 1
      requires s.total == total && s.correct == correct && s.violations == violations
      modifies `bids, `asks, `seqNo, `shadow
      ensures Valid() && shadow == s
    {
      seqNo, bids, asks, shadow := seqNo + 1, newBids, newAsks, s;
    }

    method RecordOrder(id: string, price: real, buy: bool)
      requires Valid()
      modifies `bids, `asks, `seqNo, `shadow
      ensures Valid() && Recorded(old(shadow), id, price, buy, shadow)
    {
      var newBids, newAsks;
      ghost var newShadow;
      newBids, newAsks, newShadow := RecordIn(bids, asks, id, price, buy, seqNo + 1, shadow);
      Store(newBids, newAsks, newShadow);
    }

    /** The counters of RecordFill. */
    method Count(ok: bool, ghost s: Shadow)
      requires Shows(bids, asks, s) && s.seqNo == seqNo && s.total == total + 1
      requires s.correct == correct + (if ok then 1 else 0)
      requires s.violations == violations + (if ok then 0 else 1)
      modifies `total, `correct, `violations, `shadow
      ensures Valid() && shadow == s
    {
      total := total + 1;
      if ok {
        correct := correct + 1;
      } else {
        violations := violations + 1;
      }
      shadow := s;
    }

    /** True iff the id is known and nothing unfilled anywhere on its side has better
        priority; price and quantity of the fill play no part. */
    method RecordFill(id: string, fillPrice: real, fillQty: int) returns (ok: bool)
      requires Valid()
      modifies `total, `correct, `violations, `shadow, bids, asks
      ensures Valid() && shadow == AfterFill(old(shadow), id)
      ensures ok <==> ValidFill(old(shadow), id)
    {
      ghost var newShadow;
      ok, newShadow := FillIn(bids, asks, id, shadow);
      Count(ok, newShadow);
    }

    method Stats() returns (t: int, c: int, v: int)
      requires Valid()
      ensures t == shadow.total && c == shadow.correct && v == shadow.violations
    {
      t, c, v := total, correct, violations;
    }
  }
}
