/** The matching engine under the eyes of the price-time validator.

    Every order is recorded, matched, and every fill of the matching loop is then reported
    for both its parties, in either order. Ids are distinct; prices, quantities and arrival
    stamps are arbitrary, so market orders are included, and so are stamps that disagree with
    the order in which the orders are matched. */
module EngineMeetsValidator {
  import opened Sequences
  import opened Matching
  import P = PriceTime

  /** The ids reported for a list of fills: both parties of each. `takerFirst` says for each
      maker which of the two is reported first. */
  ghost function ReportIds(taker: string, fills: seq<Fill>, takerFirst: string -> bool): seq<string> {
    if fills == [] then []
    else (if takerFirst(fills[0].maker) then [taker, fills[0].maker] else [fills[0].maker, taker])
         + ReportIds(taker, fills[1..], takerFirst)
  }

  ghost function Report(s: P.Shadow, ids: seq<string>): P.Shadow
    decreases |ids|
  {
    if ids == [] then s else Report(P.AfterFill(s, ids[0]), ids[1..])
  }

  datatype State = State(book: Book, shadow: P.Shadow)

  const START := State(EMPTY_BOOK, P.EMPTY_SHADOW)

  /** Record the order, match it, report its fills. */
  ghost predicate Step(st: State, o: Submission, st': State, takerFirst: string -> bool) {
    && Matched(st.book, o, st'.book)
    && exists recorded ::
         && P.Recorded(st.shadow, o.lot.id, o.lot.price, o.buy, recorded)
         && st'.shadow == Report(recorded, ReportIds(o.lot.id, Outcome(st.book, o).fills, takerFirst))
  }

  ghost predicate StepAt(states: seq<State>, orders: seq<Submission>, choices: seq<string -> bool>, i: nat) {
    i < |orders| && i < |choices| && i + 1 < |states| && Step(states[i], orders[i], states[i + 1], choices[i])
  }

  /** A run, with a choice of reporting order for each order's fills. */
  ghost predicate JointRun(states: seq<State>, orders: seq<Submission>, choices: seq<string -> bool>) {
    && |states| == |orders| + 1 && |choices| == |orders|
    && states[0] == START
    && forall i: nat :: i < |orders| ==> StepAt(states, orders, choices, i)
  }

  ghost predicate Earlier(h: seq<Submission>, i: int, j: int) {
    0 <= i < j < |h|
  }

  /** The orders a run is about: no id comes twice. */
  ghost predicate History(h: seq<Submission>) {
    forall i, j {:trigger Earlier(h, i, j)} :: Earlier(h, i, j) ==> h[i].lot.id != h[j].lot.id
  }

  /** Arrival stamps agree with the order of matching. */
  ghost predicate InOrder(h: seq<Submission>) {
    forall i, j {:trigger Earlier(h, i, j)} :: Earlier(h, i, j) ==> h[i].lot.arrivedAt < h[j].lot.arrivedAt
  }

  lemma DistinctIds(h: seq<Submission>, j: int, k: int)
    requires History(h) && 0 <= j < |h| && 0 <= k < |h|
    ensures h[j].lot.id == h[k].lot.id <==> j == k
  {
    assert j < k ==> Earlier(h, j, k);
    assert k < j ==> Earlier(h, k, j);
  }

  /** The condition a caller can check before the call: every order the validator still has
      open on the taker's own side has a strictly worse price than the taker. */
  ghost predicate BestOnOwnSide(s: P.Shadow, o: Submission) {
    forall i :: 0 <= i < |s.Side(o.buy)| && !s.Side(o.buy)[i].filled ==>
      Better(o.buy, o.lot.price, s.Side(o.buy)[i].price)
  }

  // ---------------------------------------------------------------- the shadow book by arrival numbers

  /** Order j has better priority than order k, by price and then by arrival. */
  ghost predicate Prior(h: seq<Submission>, j: int, k: int)
    requires 0 <= j < |h| && 0 <= k < |h|
  {
    Better(h[k].buy, h[j].lot.price, h[k].lot.price) || (h[j].lot.price == h[k].lot.price && j < k)
  }

  ghost predicate TracksSide(h: seq<Submission>, side: seq<P.Pending>, buy: bool, open: set<int>) {
    forall i {:trigger side[i]} :: 0 <= i < |side| ==>
      var k := side[i].seqNo - 1;
      && 0 <= k < |h| && h[k].buy == buy
      && h[k].lot.id == side[i].id && h[k].lot.price == side[i].price
      && (k in open <==> !side[i].filled)
  }

  ghost predicate Has(side: seq<P.Pending>, seqNo: int) {
    exists i :: 0 <= i < |side| && side[i].seqNo == seqNo
  }

  /** The shadow book holds exactly the orders of h, of which `open` are unfilled. */
  ghost predicate Tracks(h: seq<Submission>, s: P.Shadow, open: set<int>) {
    && P.ShadowOk(s) && s.seqNo == |h|
    && TracksSide(h, s.bids, true, open) && TracksSide(h, s.asks, false, open)
    && (forall k {:trigger Has(s.Side(h[k].buy), k + 1)} :: 0 <= k < |h| ==> Has(s.Side(h[k].buy), k + 1))
    && (forall k :: k in open ==> 0 <= k < |h|)
  }

  lemma {:induction false} OnOwnSide(h: seq<Submission>, side: seq<P.Pending>, open: set<int>, k: int)
    requires History(h) && 0 <= k < |h|
    requires TracksSide(h, side, h[k].buy, open) && Has(side, k + 1)
    ensures var i := P.IndexOf(side, h[k].lot.id);
            i < |side| && side[i].seqNo == k + 1
  {
    var i :| 0 <= i < |side| && side[i].seqNo == k + 1;
    assert side[i].id == h[k].lot.id;
    DistinctIds(h, side[P.IndexOf(side, h[k].lot.id)].seqNo - 1, k);
  }

  lemma NotOnOtherSide(h: seq<Submission>, side: seq<P.Pending>, open: set<int>, k: int)
    requires History(h) && 0 <= k < |h|
    requires TracksSide(h, side, !h[k].buy, open)
    ensures P.IndexOf(side, h[k].lot.id) == |side|
  {
    forall i | 0 <= i < |side| ensures side[i].id != h[k].lot.id {
      DistinctIds(h, side[i].seqNo - 1, k);
    }
  }

  /** A fill for order k is attributed to order k. */
  lemma Attribution(h: seq<Submission>, s: P.Shadow, open: set<int>, k: int)
    requires History(h) && Tracks(h, s, open) && 0 <= k < |h|
    ensures P.Known(s, h[k].lot.id) && P.OnBids(s, h[k].lot.id) == h[k].buy
    ensures P.Attributed(s, h[k].lot.id).seqNo == k + 1
  {
    OnOwnSide(h, s.Side(h[k].buy), open, k);
    NotOnOtherSide(h, s.Side(!h[k].buy), open, k);
  }

  /** No open order of its side has better priority than order k. */
  ghost predicate FirstOpen(h: seq<Submission>, open: set<int>, k: int)
    requires 0 <= k < |h| && forall j :: j in open ==> 0 <= j < |h|
  {
    forall j :: j in open && h[j].buy == h[k].buy ==> !Prior(h, j, k)
  }

  lemma SideVerdict(h: seq<Submission>, side: seq<P.Pending>, open: set<int>, k: int, o: P.Pending)
    requires 0 <= k < |h| && TracksSide(h, side, h[k].buy, open)
    requires forall j :: j in open ==> 0 <= j < |h|
    requires forall j :: j in open && h[j].buy == h[k].buy ==> Has(side, j + 1)
    requires o.seqNo == k + 1 && o.price == h[k].lot.price
    requires forall i :: 0 <= i < |side| ==> side[i].buy == h[k].buy
    ensures P.NextToFill(side, o) == FirstOpen(h, open, k)
  {
    if P.NextToFill(side, o) {
      forall j | j in open && h[j].buy == h[k].buy ensures !Prior(h, j, k) {
        var i :| 0 <= i < |side| && side[i].seqNo == j + 1;
        assert !P.Ahead(side[i], o);
      }
    }
    if FirstOpen(h, open, k) {
      forall i | 0 <= i < |side| && !side[i].filled ensures !P.Ahead(side[i], o) {
        assert !Prior(h, side[i].seqNo - 1, k);
      }
    }
  }

  /** The validator's verdict on order k, in terms of arrival numbers. */
  lemma Verdict(h: seq<Submission>, s: P.Shadow, open: set<int>, k: int)
    requires History(h) && Tracks(h, s, open) && 0 <= k < |h|
    ensures P.ValidFill(s, h[k].lot.id) == FirstOpen(h, open, k)
  {
    Attribution(h, s, open, k);
    var side, o := s.Side(h[k].buy), P.Attributed(s, h[k].lot.id);
    assert o == side[P.IndexOf(side, h[k].lot.id)];
    assert o.price == h[k].lot.price;
    assert TracksSide(h, side, h[k].buy, open);
    forall i | 0 <= i < |side| ensures side[i].buy == h[k].buy {}
    forall j | j in open && h[j].buy == h[k].buy ensures Has(side, j + 1) {
      assert Has(s.Side(h[j].buy), j + 1);
    }
    SideVerdict(h, side, open, k, o);
  }

  lemma TracksMarked(h: seq<Submission>, side: seq<P.Pending>, buy: bool, open: set<int>, i: nat)
    requires P.Ranked(side) && TracksSide(h, side, buy, open) && i < |side|
    requires forall j :: 0 <= j < |side| ==> side[j].buy == buy
    ensures TracksSide(h, P.MarkFilled(side, i), buy, open - {side[i].seqNo - 1})
    ensures forall n :: Has(side, n) ==> Has(P.MarkFilled(side, i), n)
  {
    var m := P.MarkFilled(side, i);
    forall j | 0 <= j < |m| && j != i ensures m[j].seqNo != side[i].seqNo {
      assert side[j].seqNo == side[i].seqNo ==> side[j].price == side[i].price;
      assert P.Ahead(side[j], side[i]) || P.Ahead(side[i], side[j]);
    }
    forall n | Has(side, n) ensures Has(m, n) {
      var j :| 0 <= j < |side| && side[j].seqNo == n;
      assert m[j].seqNo == n;
    }
  }

  lemma OtherSideTracked(h: seq<Submission>, side: seq<P.Pending>, buy: bool, open: set<int>, k: int)
    requires TracksSide(h, side, buy, open) && 0 <= k < |h| && h[k].buy != buy
    ensures TracksSide(h, side, buy, open - {k})
  {
  }

  /** Reporting order k takes it off the open orders. */
  lemma TracksFill(h: seq<Submission>, s: P.Shadow, open: set<int>, k: int)
    requires History(h) && Tracks(h, s, open) && 0 <= k < |h|
    ensures Tracks(h, P.AfterFill(s, h[k].lot.id), open - {k})
  {
    var id, buy := h[k].lot.id, h[k].buy;
    Attribution(h, s, open, k);
    P.FillKeepsShadow(s, id);
    TracksMarked(h, s.Side(buy), buy, open, P.IndexOf(s.Side(buy), id));
    OtherSideTracked(h, s.Side(!buy), !buy, open, k);
  }

  /** The counters move by n accepted fills and m violations. */
  ghost predicate Counts(s: P.Shadow, s': P.Shadow, n: int, m: int) {
    s'.correct == s.correct + n && s'.violations == s.violations + m
  }

  /** Reporting order k: it leaves the open orders, and the counters move by the verdict. */
  lemma OneReport(h: seq<Submission>, s: P.Shadow, open: set<int>, k: int)
    returns (s': P.Shadow, open': set<int>)
    requires History(h) && Tracks(h, s, open) && 0 <= k < |h|
    ensures s' == P.AfterFill(s, h[k].lot.id) && open' == open - {k}
    ensures Tracks(h, s', open')
    ensures if FirstOpen(h, open, k) then Counts(s, s', 1, 0) else Counts(s, s', 0, 1)
  {
    Verdict(h, s, open, k);
    TracksFill(h, s, open, k);
    s', open' := P.AfterFill(s, h[k].lot.id), open - {k};
  }

  /** Recording order o, the newest, makes it an open order. */
  lemma TracksRecord(h: seq<Submission>, s: P.Shadow, open: set<int>, o: Submission, s': P.Shadow)
    requires Tracks(h, s, open)
    requires P.Recorded(s, o.lot.id, o.lot.price, o.buy, s')
    ensures Tracks(h + [o], s', open + {|h|})
    ensures Counts(s, s', 0, 0)
  {
    P.RecordKeepsShadow(s, o.lot.id, o.lot.price, o.buy, s');
    SidesRecorded(h, s, open, o, s');
    AllHeld(h, s, o, s');
    TracksBoth(h + [o], s', open + {|h|}, o.buy);
  }

  lemma SidesRecorded(h: seq<Submission>, s: P.Shadow, open: set<int>, o: Submission, s': P.Shadow)
    requires Tracks(h, s, open)
    requires P.Recorded(s, o.lot.id, o.lot.price, o.buy, s')
    ensures TracksSide(h + [o], s'.Side(o.buy), o.buy, open + {|h|})
    ensures TracksSide(h + [o], s'.Side(!o.buy), !o.buy, open + {|h|})
    ensures Has(s'.Side(o.buy), |h| + 1) && forall m :: Has(s.Side(o.buy), m) ==> Has(s'.Side(o.buy), m)
  {
    var n := P.Pending(o.lot.id, o.lot.price, o.buy, s.seqNo + 1, false);
    SideRecorded(h, s.Side(o.buy), open, o, n, s'.Side(o.buy));
    SideKept(h, s.Side(!o.buy), !o.buy, open, o);
  }

  lemma TracksBoth(h: seq<Submission>, s: P.Shadow, open: set<int>, buy: bool)
    requires P.ShadowOk(s) && s.seqNo == |h| && forall k :: k in open ==> 0 <= k < |h|
    requires TracksSide(h, s.Side(buy), buy, open) && TracksSide(h, s.Side(!buy), !buy, open)
    requires forall k {:trigger Has(s.Side(h[k].buy), k + 1)} :: 0 <= k < |h| ==> Has(s.Side(h[k].buy), k + 1)
    ensures Tracks(h, s, open)
  {
  }

  lemma AllHeld(h: seq<Submission>, s: P.Shadow, o: Submission, s': P.Shadow)
    requires forall k {:trigger Has(s.Side(h[k].buy), k + 1)} :: 0 <= k < |h| ==> Has(s.Side(h[k].buy), k + 1)
    requires forall m :: Has(s.Side(o.buy), m) ==> Has(s'.Side(o.buy), m)
    requires s'.Side(!o.buy) == s.Side(!o.buy) && Has(s'.Side(o.buy), |h| + 1)
    ensures forall k {:trigger Has(s'.Side((h + [o])[k].buy), k + 1)} ::
      0 <= k < |h + [o]| ==> Has(s'.Side((h + [o])[k].buy), k + 1)
  {
    forall k | 0 <= k < |h + [o]| ensures Has(s'.Side((h + [o])[k].buy), k + 1) {
      if k < |h| { assert Has(s.Side(h[k].buy), k + 1); }
    }
  }

  lemma SideKept(h: seq<Submission>, side: seq<P.Pending>, buy: bool, open: set<int>, o: Submission)
    requires TracksSide(h, side, buy, open)
    ensures TracksSide(h + [o], side, buy, open + {|h|})
  {
  }

  lemma SideRecorded(h: seq<Submission>, side: seq<P.Pending>, open: set<int>, o: Submission,
                     n: P.Pending, side': seq<P.Pending>)
    requires TracksSide(h, side, o.buy, open)
    requires n == P.Pending(o.lot.id, o.lot.price, o.buy, |h| + 1, false)
    requires multiset(side') == multiset(side + [n])
    ensures TracksSide(h + [o], side', o.buy, open + {|h|})
    ensures Has(side', |h| + 1)
    ensures forall m :: Has(side, m) ==> Has(side', m)
  {
    forall i | 0 <= i < |side'| ensures side'[i] in side || side'[i] == n {
      PermutationMembers(side', side + [n], side'[i]);
    }
    PermutationMembers(side', side + [n], n);
    assert (side + [n])[|side|] == n;
    forall m | Has(side, m) ensures Has(side', m) {
      var i :| 0 <= i < |side| && side[i].seqNo == m;
      PermutationMembers(side', side + [n], side[i]);
      assert (side + [n])[i] == side[i];
    }
  }

  // ---------------------------------------------------------------- the engine's book by arrival numbers

  /** The resting order l is order k, perhaps partly used. */
  ghost predicate Is(h: seq<Submission>, l: Lot, k: int) {
    0 <= k < |h| && h[k].lot.id == l.id && h[k].lot.price == l.price && h[k].lot.arrivedAt == l.arrivedAt
  }

  ghost predicate OnSide(h: seq<Submission>, l: Lot, buy: bool) {
    exists k :: Is(h, l, k) && h[k].buy == buy
  }

  ghost predicate SideFrom(h: seq<Submission>, side: seq<Lot>, buy: bool) {
    forall i :: 0 <= i < |side| ==> OnSide(h, side[i], buy)
  }

  ghost predicate Rests(h: seq<Submission>, side: seq<Lot>, k: int) {
    exists i :: 0 <= i < |side| && Is(h, side[i], k)
  }

  /** Every order of one side that asked for something and that the validator has open rests
      in the book. */
  ghost predicate OpenRest(h: seq<Submission>, side: seq<Lot>, buy: bool, open: set<int>) {
    forall j :: j in open && 0 <= j < |h| && h[j].buy == buy && h[j].lot.qty > 0 ==> Rests(h, side, j)
  }

  /** When all open orders of a side asked for something, the maker at its head is the
      validator's first choice if and only if no open order of that side with the same price
      was recorded before it. */
  lemma MakerIsFirstIff(h: seq<Submission>, opp: seq<Lot>, open: set<int>, k: int)
    requires History(h) && opp != [] && Is(h, opp[0], k)
    requires Sorted(opp, h[k].buy) && OpenRest(h, opp, h[k].buy, open)
    requires forall j :: j in open ==> 0 <= j < |h| && h[j].lot.qty > 0
    ensures FirstOpen(h, open, k) <==>
            forall j :: j in open && h[j].buy == h[k].buy && h[j].lot.price == h[k].lot.price ==> k <= j
  {
    if forall j :: j in open && h[j].buy == h[k].buy && h[j].lot.price == h[k].lot.price ==> k <= j {
      forall j | j in open && h[j].buy == h[k].buy ensures !Prior(h, j, k) {
        var i :| 0 <= i < |opp| && Is(h, opp[i], j);
        if i > 0 { assert !Before(h[k].buy, opp[i], opp[0]); }
      }
    }
    if FirstOpen(h, open, k) {
      forall j | j in open && h[j].buy == h[k].buy && h[j].lot.price == h[k].lot.price ensures k <= j {
        assert !Prior(h, j, k);
      }
    }
  }

  /** The taker t is the validator's first choice on its side, itself aside. */
  ghost predicate TakerClear(h: seq<Submission>, open: set<int>, t: int)
    requires 0 <= t < |h|
  {
    forall j :: j in open && 0 <= j < |h| && h[j].buy == h[t].buy && j != t ==> !Prior(h, j, t)
  }

  lemma TakerAndMaker(h: seq<Submission>, open: set<int>, t: int, k: int)
    requires forall j :: j in open ==> 0 <= j < |h|
    requires 0 <= t < |h| && 0 <= k < |h| && h[k].buy != h[t].buy
    ensures FirstOpen(h, open - {t}, k) == FirstOpen(h, open, k)
    ensures FirstOpen(h, open, t) == TakerClear(h, open, t)
    ensures FirstOpen(h, open - {k}, t) == TakerClear(h, open, t)
  {
    assert !Prior(h, t, t);
    if FirstOpen(h, open - {k}, t) {
      assert forall j :: j in open && h[j].buy == h[t].buy ==> j in open - {k};
    }
    if FirstOpen(h, open - {t}, k) {
      assert forall j :: j in open && h[j].buy == h[k].buy ==> j in open - {t};
    }
  }

  // ---------------------------------------------------------------- lists of reports

  ghost predicate Numbers(h: seq<Submission>, ks: seq<int>) {
    forall i :: 0 <= i < |ks| ==> 0 <= ks[i] < |h|
  }

  ghost function Ids(h: seq<Submission>, ks: seq<int>): (ids: seq<string>)
    requires Numbers(h, ks)
    ensures |ids| == |ks|
  {
    seq(|ks|, i requires 0 <= i < |ks| => h[ks[i]].lot.id)
  }

  ghost function Without(open: set<int>, ks: seq<int>): set<int> {
    open - (set k | k in ks)
  }

  /** How many of a list of reports are accepted, each taking its order off the open ones. */
  ghost function Accepted(h: seq<Submission>, open: set<int>, ks: seq<int>): int
    requires Numbers(h, ks) && forall j :: j in open ==> 0 <= j < |h|
    decreases |ks|
  {
    if ks == [] then 0
    else (if FirstOpen(h, open, ks[0]) then 1 else 0) + Accepted(h, open - {ks[0]}, ks[1..])
  }

  lemma ReportUnfolds(h: seq<Submission>, s: P.Shadow, open: set<int>, ks: seq<int>)
    requires ks != [] && Numbers(h, ks)
    ensures Report(s, Ids(h, ks)) == Report(P.AfterFill(s, h[ks[0]].lot.id), Ids(h, ks[1..]))
    ensures Without(open, ks) == Without(open - {ks[0]}, ks[1..])
  {
    assert Ids(h, ks)[1..] == Ids(h, ks[1..]);
  }

  /** Reporting a list of orders, in terms of arrival numbers. */
  lemma {:induction false} ReportTracks(h: seq<Submission>, s: P.Shadow, open: set<int>, ks: seq<int>)
    returns (r: P.Shadow, left: set<int>)
    requires History(h) && Tracks(h, s, open) && Numbers(h, ks)
    ensures r == Report(s, Ids(h, ks)) && left == Without(open, ks)
    ensures Tracks(h, r, left)
    ensures Counts(s, r, Accepted(h, open, ks), |ks| - Accepted(h, open, ks))
    decreases |ks|
  {
    if ks == [] {
      r, left := s, open;
    } else {
      var s', open' := OneReport(h, s, open, ks[0]);
      r, left := ReportTracks(h, s', open', ks[1..]);
      ReportUnfolds(h, s, open, ks);
    }
  }

  // ---------------------------------------------------------------- the matching loop

  ghost function Pair(t: int, k: int, takerFirst: bool): seq<int> {
    if takerFirst then [t, k] else [k, t]
  }

  /** The reports of a matching loop of taker t, given its makers. */
  ghost function Pairs(h: seq<Submission>, t: int, makers: seq<int>, takerFirst: string -> bool): (ks: seq<int>)
    requires Numbers(h, makers)
    ensures |ks| == 2 * |makers|
    ensures makers != [] ==> t in ks
    decreases |makers|
  {
    if makers == [] then []
    else
      var pair := Pair(t, makers[0], takerFirst(h[makers[0]].lot.id));
      assert t == pair[0] || t == pair[1];
      pair + Pairs(h, t, makers[1..], takerFirst)
  }

  /** How many makers are the validator's first choice, each taken off the open orders in turn. */
  ghost function FirstMakers(h: seq<Submission>, open: set<int>, makers: seq<int>): nat
    requires Numbers(h, makers) && forall j :: j in open ==> 0 <= j < |h|
    decreases |makers|
  {
    if makers == [] then 0
    else (if FirstOpen(h, open, makers[0]) then 1 else 0) + FirstMakers(h, open - {makers[0]}, makers[1..])
  }

  /** All makers are on the side the taker is not on. */
  ghost predicate Opposite(h: seq<Submission>, t: int, makers: seq<int>) {
    0 <= t < |h| && Numbers(h, makers) && forall i :: 0 <= i < |makers| ==> h[makers[i]].buy != h[t].buy
  }

  lemma {:induction false} PairsAreNumbers(h: seq<Submission>, t: int, makers: seq<int>, takerFirst: string -> bool)
    requires Opposite(h, t, makers)
    ensures Numbers(h, Pairs(h, t, makers, takerFirst))
    ensures forall k :: k in Pairs(h, t, makers, takerFirst) <==> k in makers || (k == t && makers != [])
    decreases |makers|
  {
    if makers == [] {
    } else {
      PairsAreNumbers(h, t, makers[1..], takerFirst);
      var pair, rest := Pair(t, makers[0], takerFirst(h[makers[0]].lot.id)), Pairs(h, t, makers[1..], takerFirst);
      assert forall k :: k in pair <==> k == t || k == makers[0] by {
        assert pair[0] in pair && pair[1] in pair;
      }
      assert makers == [makers[0]] + makers[1..];
      assert forall k :: k in pair + rest <==> k in pair || k in rest;
    }
  }

  /** The reports carry the ids of the fills' parties. */
  lemma {:induction false} PairsIds(h: seq<Submission>, t: int, makers: seq<int>, fills: seq<Fill>,
                                    takerFirst: string -> bool)
    requires Opposite(h, t, makers) && |makers| == |fills|
    requires forall i :: 0 <= i < |fills| ==> h[makers[i]].lot.id == fills[i].maker
    requires Numbers(h, Pairs(h, t, makers, takerFirst))
    ensures Ids(h, Pairs(h, t, makers, takerFirst)) == ReportIds(h[t].lot.id, fills, takerFirst)
    decreases |makers|
  {
    if makers == [] {
    } else {
      PairsAreNumbers(h, t, makers[1..], takerFirst);
      PairsIds(h, t, makers[1..], fills[1..], takerFirst);
      var pair := Pair(t, makers[0], takerFirst(h[makers[0]].lot.id));
      assert Numbers(h, pair);
      IdsConcat(h, pair, Pairs(h, t, makers[1..], takerFirst));
      assert Ids(h, pair)
          == if takerFirst(fills[0].maker) then [h[t].lot.id, fills[0].maker] else [fills[0].maker, h[t].lot.id];
    }
  }

  lemma IdsConcat(h: seq<Submission>, ks: seq<int>, more: seq<int>)
    requires Numbers(h, ks) && Numbers(h, more) && Numbers(h, ks + more)
    ensures Ids(h, ks + more) == Ids(h, ks) + Ids(h, more)
  {
  }

  /** Both reports of one fill. */
  lemma PairAccepted(h: seq<Submission>, open: set<int>, t: int, k: int, takerFirst: bool, ks: seq<int>)
    requires 0 <= t < |h| && 0 <= k < |h| && h[k].buy != h[t].buy
    requires Numbers(h, ks) && Numbers(h, Pair(t, k, takerFirst) + ks)
    requires forall j :: j in open ==> 0 <= j < |h|
    ensures Accepted(h, open, Pair(t, k, takerFirst) + ks)
         == (if FirstOpen(h, open, k) then 1 else 0) + (if TakerClear(h, open, t) then 1 else 0)
            + Accepted(h, open - {k} - {t}, ks)
    ensures TakerClear(h, open - {k} - {t}, t) == TakerClear(h, open, t)
  {
    TakerAndMaker(h, open, t, k);
    var pair := Pair(t, k, takerFirst);
    assert (pair + ks)[1..] == [pair[1]] + ks && ([pair[1]] + ks)[1..] == ks;
    assert open - {pair[0]} - {pair[1]} == open - {k} - {t};
    if TakerClear(h, open - {k} - {t}, t) {
      assert forall j :: j in open && h[j].buy == h[t].buy && j != t ==> j in open - {k} - {t};
    }
  }

  lemma {:induction false} TakerAside(h: seq<Submission>, open: set<int>, t: int, makers: seq<int>)
    requires Opposite(h, t, makers) && forall j :: j in open ==> 0 <= j < |h|
    ensures FirstMakers(h, open - {t}, makers) == FirstMakers(h, open, makers)
    decreases |makers|
  {
    if makers == [] {
    } else {
      TakerAndMaker(h, open, t, makers[0]);
      TakerAside(h, open - {makers[0]}, t, makers[1..]);
      assert open - {t} - {makers[0]} == open - {makers[0]} - {t};
    }
  }

  /** Of the reports of a whole loop, those of first-choice makers are accepted, and the taker's
      either every time or never. */
  lemma {:induction false} PairsAccepted(h: seq<Submission>, open: set<int>, t: int, makers: seq<int>,
                                         takerFirst: string -> bool)
    requires Opposite(h, t, makers) && Numbers(h, Pairs(h, t, makers, takerFirst))
    requires forall j :: j in open ==> 0 <= j < |h|
    ensures Accepted(h, open, Pairs(h, t, makers, takerFirst))
         == FirstMakers(h, open, makers) + (if TakerClear(h, open, t) then |makers| else 0)
    decreases |makers|
  {
    if makers == [] {
    } else {
      var k, rest := makers[0], Pairs(h, t, makers[1..], takerFirst);
      PairsAreNumbers(h, t, makers[1..], takerFirst);
      PairAccepted(h, open, t, k, takerFirst(h[k].lot.id), rest);
      PairsAccepted(h, open - {k} - {t}, t, makers[1..], takerFirst);
      TakerAside(h, open - {k}, t, makers[1..]);
    }
  }

  /** The makers of a matching loop: the orders at the front of the opposite side. */
  ghost predicate AreMakers(h: seq<Submission>, opp: seq<Lot>, makers: seq<int>, buy: bool) {
    |makers| <= |opp| && Numbers(h, makers)
    && forall i :: 0 <= i < |makers| ==> Is(h, opp[i], makers[i]) && h[makers[i]].buy == buy
  }

  lemma FromHistory(h: seq<Submission>, side: seq<Lot>, buy: bool, i: nat) returns (k: int)
    requires SideFrom(h, side, buy) && i < |side|
    ensures Is(h, side[i], k) && h[k].buy == buy
  {
    assert OnSide(h, side[i], buy);
    k :| Is(h, side[i], k) && h[k].buy == buy;
  }

  lemma {:induction false} MakersOf(h: seq<Submission>, opp: seq<Lot>, buy: bool, n: nat) returns (makers: seq<int>)
    requires SideFrom(h, opp, buy) && n <= |opp|
    ensures |makers| == n && AreMakers(h, opp, makers, buy)
  {
    if n == 0 {
      makers := [];
    } else {
      makers := MakersOf(h, opp, buy, n - 1);
      var k := FromHistory(h, opp, buy, n - 1);
      makers := makers + [k];
    }
  }

  /** After a matching loop the rest of the opposite side still comes from the history and
      still holds every open order of the side. */
  lemma RestAfter(h: seq<Submission>, opp: seq<Lot>, s: Swept, buy: bool, open: set<int>, makers: seq<int>)
    requires History(h) && SideFrom(h, opp, buy) && OpenRest(h, opp, buy, open) && TakesPrefix(opp, s)
    requires |makers| == |s.fills| && AreMakers(h, opp, makers, buy)
    ensures SideFrom(h, s.rest, buy)
    ensures OpenRest(h, s.rest, buy, Without(open, makers))
  {
    forall i | 0 <= i < |s.rest| ensures OnSide(h, s.rest[i], buy) {
      var k := RestAt(opp, s, i);
      var j := FromHistory(h, opp, buy, k);
      SameOrder(h, opp[k], s.rest[i], j);
    }
    forall j | j in Without(open, makers) && 0 <= j < |h| && h[j].buy == buy && h[j].lot.qty > 0
      ensures Rests(h, s.rest, j)
    {
      RestsStill(h, opp, s, buy, open, makers, j);
    }
  }

  lemma SameOrder(h: seq<Submission>, x: Lot, y: Lot, j: int)
    requires Is(h, x, j) && y.(qty := 0) == x.(qty := 0)
    ensures Is(h, y, j)
  {
    assert x.(qty := 0).id == x.id && y.(qty := 0).id == y.id;
    assert x.(qty := 0).price == x.price && y.(qty := 0).price == y.price;
    assert x.(qty := 0).arrivedAt == x.arrivedAt && y.(qty := 0).arrivedAt == y.arrivedAt;
  }

  /** What remains of a side are its last orders, the first of them perhaps partly used. */
  lemma RestAt(opp: seq<Lot>, s: Swept, i: nat) returns (k: nat)
    requires TakesPrefix(opp, s) && i < |s.rest|
    ensures k == i + |opp| - |s.rest| && k < |opp| && s.rest[i].(qty := 0) == opp[k].(qty := 0)
  {
    k := i + |opp| - |s.rest|;
    if i > 0 || |s.rest| == |opp| - |s.fills| { assert s.rest[i] == opp[k]; }
  }

  lemma RestsStill(h: seq<Submission>, opp: seq<Lot>, s: Swept, buy: bool, open: set<int>,
                   makers: seq<int>, j: int)
    requires History(h) && OpenRest(h, opp, buy, open) && TakesPrefix(opp, s)
    requires |makers| == |s.fills| && AreMakers(h, opp, makers, buy)
    requires j in Without(open, makers) && 0 <= j < |h| && h[j].buy == buy && h[j].lot.qty > 0
    ensures Rests(h, s.rest, j)
  {
    assert Rests(h, opp, j);
    var i :| 0 <= i < |opp| && Is(h, opp[i], j);
    if i < |makers| { FrontIsMaker(h, opp, makers, buy, i, j); }
    RestLength(opp, s);
    var k := RestAt(opp, s, i - (|opp| - |s.rest|));
    SameOrder(h, opp[k], s.rest[i - (|opp| - |s.rest|)], j);
  }

  lemma RestLength(opp: seq<Lot>, s: Swept)
    requires TakesPrefix(opp, s)
    ensures |opp| - |s.fills| <= |s.rest| <= |opp|
  {
  }

  /** An order found at the front is the maker there. */
  lemma FrontIsMaker(h: seq<Submission>, opp: seq<Lot>, makers: seq<int>, buy: bool, i: nat, j: int)
    requires History(h) && AreMakers(h, opp, makers, buy) && i < |makers| && Is(h, opp[i], j)
    ensures j == makers[i] && j in makers
  {
    assert Is(h, opp[i], makers[i]);
    DistinctIds(h, j, makers[i]);
  }

  // ---------------------------------------------------------------- one order, then all orders

  /** Engine and validator after the history h: the shadow book tracks h, both sides of the
      book come from h, and the validator has nothing open that does not rest in the book,
      save orders that asked for nothing. */
  ghost predicate Linked(h: seq<Submission>, st: State, open: set<int>) {
    && History(h) && Tracks(h, st.shadow, open) && BookOk(st.book)
    && BookLinked(h, st.book, open)
  }

  lemma SideExtends(h: seq<Submission>, o: Submission, side: seq<Lot>, buy: bool, open: set<int>)
    requires SideFrom(h, side, buy) && OpenRest(h, side, buy, open)
    requires forall j :: j in open ==> 0 <= j < |h|
    ensures SideFrom(h + [o], side, buy) && OpenRest(h + [o], side, buy, open)
  {
    forall i | 0 <= i < |side| ensures OnSide(h + [o], side[i], buy) {
      assert OnSide(h, side[i], buy);
      var k :| Is(h, side[i], k) && h[k].buy == buy;
      assert Is(h + [o], side[i], k);
    }
    forall j | j in open && h[j].buy == buy && h[j].lot.qty > 0 ensures Rests(h + [o], side, j) {
      var i :| 0 <= i < |side| && Is(h, side[i], j);
      assert Is(h + [o], side[i], j);
    }
  }

  /** What is left of the taker t joins its side. */
  lemma OwnSideAfter(h: seq<Submission>, own: seq<Lot>, o: Lot, own': seq<Lot>, t: int, open: set<int>)
    requires 0 <= t < |h| && SideFrom(h, own, h[t].buy) && OpenRest(h, own, h[t].buy, open - {t})
    requires Is(h, o, t) && Rested(own, o, own', h[t].buy) && (t in open && h[t].lot.qty > 0 ==> o.qty > 0)
    ensures SideFrom(h, own', h[t].buy) && OpenRest(h, own', h[t].buy, open)
  {
    forall i | 0 <= i < |own'| ensures OnSide(h, own'[i], h[t].buy) {
      RestedMembers(own, o, own', h[t].buy, own'[i]);
    }
    forall j | j in open && 0 <= j < |h| && h[j].buy == h[t].buy && h[j].lot.qty > 0 ensures Rests(h, own', j) {
      var l := o;
      if j != t {
        var i :| 0 <= i < |own| && Is(h, own[i], j);
        l := own[i];
      }
      RestedMembers(own, o, own', h[t].buy, l);
      var i' :| 0 <= i' < |own'| && own'[i'] == l;
    }
  }

  /** The clearance of the newest order, read off the shadow book before the call. */
  lemma ClearBefore(h: seq<Submission>, s: P.Shadow, open: set<int>, o: Submission)
    requires Tracks(h, s, open)
    ensures TakerClear(h + [o], open + {|h|}, |h|) == BestOnOwnSide(s, o)
  {
    var h', side := h + [o], s.Side(o.buy);
    if BestOnOwnSide(s, o) {
      forall j | j in open && h[j].buy == o.buy ensures !Prior(h', j, |h|) {
        assert Has(s.Side(h[j].buy), j + 1);
        var i :| 0 <= i < |side| && side[i].seqNo == j + 1;
        assert h[side[i].seqNo - 1].lot.price == side[i].price;
      }
    }
    if TakerClear(h', open + {|h|}, |h|) {
      forall i | 0 <= i < |side| && !side[i].filled ensures Better(o.buy, o.lot.price, side[i].price) {
        var j := side[i].seqNo - 1;
        assert !Prior(h', j, |h|);
      }
    }
  }

  /** Some order before opp[i] has this id. */
  ghost predicate UsedBefore(opp: seq<Lot>, i: nat, id: string) {
    exists r :: 0 <= r < i && r < |opp| && opp[r].id == id
  }

  /** The condition on a maker, to be read off before the call: no order the validator has
      open on its side has better priority than opp[i], but for those consumed before it. */
  ghost predicate Fair(s: P.Shadow, buy: bool, opp: seq<Lot>, i: nat) {
    i < |opp| && P.Known(s, opp[i].id)
    && forall j :: 0 <= j < |s.Side(buy)| && !s.Side(buy)[j].filled && !UsedBefore(opp, i, s.Side(buy)[j].id) ==>
         !P.Ahead(s.Side(buy)[j], P.Attributed(s, opp[i].id))
  }

  ghost predicate AllFair(s: P.Shadow, buy: bool, opp: seq<Lot>, i: nat, n: nat) {
    forall k :: i <= k < n ==> Fair(s, buy, opp, k)
  }

  /** How many of opp[i..n] are fair. */
  ghost function FairFrom(s: P.Shadow, buy: bool, opp: seq<Lot>, i: nat, n: nat): (c: nat)
    requires i <= n
    ensures c <= n - i
    decreases n - i
  {
    if i == n then 0 else (if Fair(s, buy, opp, i) then 1 else 0) + FairFrom(s, buy, opp, i + 1, n)
  }

  lemma {:induction false} FairFromAll(s: P.Shadow, buy: bool, opp: seq<Lot>, i: nat, n: nat)
    requires i <= n
    ensures FairFrom(s, buy, opp, i, n) == n - i <==> AllFair(s, buy, opp, i, n)
    decreases n - i
  {
    if i == n {
    } else {
      FairFromAll(s, buy, opp, i + 1, n);
      assert AllFair(s, buy, opp, i, n) <==> Fair(s, buy, opp, i) && AllFair(s, buy, opp, i + 1, n);
    }
  }

  /** The order a fill of opp[i] is attributed to, which is order k. */
  lemma AttributedMaker(h: seq<Submission>, s: P.Shadow, open: set<int>, opp: seq<Lot>, i: nat, k: int)
    returns (m: P.Pending)
    requires History(h) && Tracks(h, s, open) && i < |opp| && Is(h, opp[i], k)
    ensures P.Known(s, opp[i].id) && m == P.Attributed(s, opp[i].id)
    ensures m.seqNo == k + 1 && m.price == h[k].lot.price && m.buy == h[k].buy
  {
    Attribution(h, s, open, k);
    m := P.Attributed(s, opp[i].id);
    var side := s.Side(h[k].buy);
    assert m == side[P.IndexOf(side, opp[i].id)];
  }

  lemma FairAgainst(h: seq<Submission>, s: P.Shadow, open: set<int>, opp: seq<Lot>,
                    makers: seq<int>, buy: bool, i: nat, j: int)
    requires History(h) && Tracks(h, s, open) && AreMakers(h, opp, makers, buy) && i < |makers|
    requires Fair(s, buy, opp, i) && j in Without(open, makers[..i]) && h[j].buy == buy
    ensures !Prior(h, j, makers[i])
  {
    var m := AttributedMaker(h, s, open, opp, i, makers[i]);
    var x := OpenAt(h, s, open, j);
    NotUsed(h, opp, makers, buy, i, j);
    assert !P.Ahead(s.Side(buy)[x], m);
  }

  /** Where the shadow book keeps an open order. */
  lemma OpenAt(h: seq<Submission>, s: P.Shadow, open: set<int>, j: int) returns (x: nat)
    requires Tracks(h, s, open) && j in open
    ensures var side := s.Side(h[j].buy);
            && x < |side| && !side[x].filled && side[x].seqNo == j + 1 && side[x].buy == h[j].buy
            && side[x].id == h[j].lot.id && side[x].price == h[j].lot.price
  {
    var side := s.Side(h[j].buy);
    assert Has(side, j + 1);
    x :| 0 <= x < |side| && side[x].seqNo == j + 1;
    assert TracksSide(h, side, h[j].buy, open);
  }

  /** An unfilled order of the shadow book is an open order. */
  lemma UnfilledIsOpen(h: seq<Submission>, s: P.Shadow, open: set<int>, buy: bool, x: nat)
    returns (j: int)
    requires Tracks(h, s, open) && x < |s.Side(buy)| && !s.Side(buy)[x].filled
    ensures j in open && 0 <= j < |h| && h[j].buy == buy && s.Side(buy)[x].buy == buy && s.Side(buy)[x].seqNo == j + 1
    ensures s.Side(buy)[x].id == h[j].lot.id && s.Side(buy)[x].price == h[j].lot.price
  {
    j := s.Side(buy)[x].seqNo - 1;
    assert TracksSide(h, s.Side(buy), buy, open);
  }

  lemma FairIsFirst(h: seq<Submission>, s: P.Shadow, open: set<int>, opp: seq<Lot>,
                    makers: seq<int>, buy: bool, i: nat)
    requires History(h) && Tracks(h, s, open) && AreMakers(h, opp, makers, buy) && i < |makers|
    requires Fair(s, buy, opp, i)
    ensures FirstOpen(h, Without(open, makers[..i]), makers[i])
  {
    forall j | j in Without(open, makers[..i]) && h[j].buy == buy ensures !Prior(h, j, makers[i]) {
      FairAgainst(h, s, open, opp, makers, buy, i, j);
    }
  }

  lemma FirstAgainst(h: seq<Submission>, s: P.Shadow, open: set<int>, opp: seq<Lot>,
                     makers: seq<int>, buy: bool, i: nat, x: nat)
    requires History(h) && Tracks(h, s, open) && AreMakers(h, opp, makers, buy) && i < |makers|
    requires FirstOpen(h, Without(open, makers[..i]), makers[i])
    requires x < |s.Side(buy)| && !s.Side(buy)[x].filled && !UsedBefore(opp, i, s.Side(buy)[x].id)
    ensures P.Known(s, opp[i].id) && !P.Ahead(s.Side(buy)[x], P.Attributed(s, opp[i].id))
  {
    var m := AttributedMaker(h, s, open, opp, i, makers[i]);
    var j := UnfilledIsOpen(h, s, open, buy, x);
    NotUsed(h, opp, makers, buy, i, j);
    assert j in Without(open, makers[..i]);
    assert !Prior(h, j, makers[i]);
  }

  lemma FirstIsFair(h: seq<Submission>, s: P.Shadow, open: set<int>, opp: seq<Lot>,
                    makers: seq<int>, buy: bool, i: nat)
    requires History(h) && Tracks(h, s, open) && AreMakers(h, opp, makers, buy) && i < |makers|
    requires FirstOpen(h, Without(open, makers[..i]), makers[i])
    ensures Fair(s, buy, opp, i)
  {
    var m := AttributedMaker(h, s, open, opp, i, makers[i]);
    forall x | 0 <= x < |s.Side(buy)| && !s.Side(buy)[x].filled && !UsedBefore(opp, i, s.Side(buy)[x].id)
      ensures !P.Ahead(s.Side(buy)[x], P.Attributed(s, opp[i].id))
    {
      FirstAgainst(h, s, open, opp, makers, buy, i, x);
    }
  }

  lemma FairIff(h: seq<Submission>, s: P.Shadow, open: set<int>, opp: seq<Lot>,
                makers: seq<int>, buy: bool, i: nat)
    requires History(h) && Tracks(h, s, open) && AreMakers(h, opp, makers, buy) && i < |makers|
    ensures Fair(s, buy, opp, i) == FirstOpen(h, Without(open, makers[..i]), makers[i])
  {
    if Fair(s, buy, opp, i) { FairIsFirst(h, s, open, opp, makers, buy, i); }
    if FirstOpen(h, Without(open, makers[..i]), makers[i]) { FirstIsFair(h, s, open, opp, makers, buy, i); }
  }

  lemma NotUsed(h: seq<Submission>, opp: seq<Lot>, makers: seq<int>, buy: bool, i: nat, j: int)
    requires History(h) && AreMakers(h, opp, makers, buy) && i <= |makers| && 0 <= j < |h|
    ensures UsedBefore(opp, i, h[j].lot.id) <==> j in makers[..i]
  {
    if UsedBefore(opp, i, h[j].lot.id) {
      var r :| 0 <= r < i && opp[r].id == h[j].lot.id;
      DistinctIds(h, j, makers[r]);
      assert makers[..i][r] == j;
    }
    if j in makers[..i] {
      var r :| 0 <= r < i && makers[..i][r] == j;
      assert Is(h, opp[r], makers[r]);
    }
  }

  /** The number of first-choice makers is the number of fair ones. */
  lemma {:induction false} FirstMakersIs(h: seq<Submission>, s: P.Shadow, open: set<int>, opp: seq<Lot>,
                                         makers: seq<int>, buy: bool, i: nat)
    requires History(h) && Tracks(h, s, open) && AreMakers(h, opp, makers, buy) && i <= |makers|
    ensures FirstMakers(h, Without(open, makers[..i]), makers[i..]) == FairFrom(s, buy, opp, i, |makers|)
    decreases |makers| - i
  {
    if i == |makers| {
    } else {
      FairIff(h, s, open, opp, makers, buy, i);
      FirstMakersIs(h, s, open, opp, makers, buy, i + 1);
      PrefixStep(makers, i);
      assert makers[i..][0] == makers[i] && makers[i..][1..] == makers[i + 1..];
      assert Without(open, makers[..i + 1]) == Without(open, makers[..i]) - {makers[i]};
    }
  }

  lemma {:induction false} FirstMakersExtend(h: seq<Submission>, o: Submission, open: set<int>, makers: seq<int>)
    requires Numbers(h, makers) && forall j :: j in open ==> 0 <= j < |h|
    ensures FirstMakers(h + [o], open, makers) == FirstMakers(h, open, makers)
    decreases |makers|
  {
    if makers == [] {
    } else {
      FirstOpenExtends(h, o, open, makers[0]);
      FirstMakersExtend(h, o, open - {makers[0]}, makers[1..]);
    }
  }

  lemma FirstOpenExtends(h: seq<Submission>, o: Submission, open: set<int>, k: int)
    requires 0 <= k < |h| && forall j :: j in open ==> 0 <= j < |h|
    ensures FirstOpen(h + [o], open, k) == FirstOpen(h, open, k)
  {
    assert forall j :: j in open ==> (Prior(h + [o], j, k) <==> Prior(h, j, k));
  }

  /** Both sides of the book hold all orders of theirs that the validator has open. */
  ghost predicate BookLinked(h: seq<Submission>, b: Book, open: set<int>) {
    forall buy :: SideFrom(h, b.Side(buy), buy) && OpenRest(h, b.Side(buy), buy, open)
  }

  lemma BookExtends(h: seq<Submission>, o: Submission, b: Book, open: set<int>)
    requires BookLinked(h, b, open) && forall j :: j in open ==> 0 <= j < |h|
    ensures BookLinked(h + [o], b, open)
  {
    forall buy ensures SideFrom(h + [o], b.Side(buy), buy) && OpenRest(h + [o], b.Side(buy), buy, open) {
      SideExtends(h, o, b.Side(buy), buy, open);
    }
  }

  /** The taker's own side after the newest order t, whose makers are given. */
  lemma OwnAfter(h: seq<Submission>, b: Book, t: int, b': Book, open: set<int>, left: set<int>)
    requires 0 <= t < |h| && Matched(b, h[t], b')
    requires SideFrom(h, b.Side(h[t].buy), h[t].buy) && OpenRest(h, b.Side(h[t].buy), h[t].buy, open)
    requires left <= open + {t} && (Outcome(b, h[t]).fills != [] ==> t !in left)
    ensures SideFrom(h, b'.Side(h[t].buy), h[t].buy) && OpenRest(h, b'.Side(h[t].buy), h[t].buy, left)
  {
    var o, s := h[t], Outcome(b, h[t]);
    SweepConserves(b.Side(!o.buy), o.lot.qty, o.buy, o.lot.price);
    assert s.fills == [] ==> s.left == o.lot.qty;
    assert OpenRest(h, b.Side(o.buy), o.buy, left - {t});
    OwnSideAfter(h, b.Side(o.buy), o.lot.(qty := s.left), b'.Side(o.buy), t, left);
  }

  /** The opposite side after it. */
  lemma OppositeAfter(h: seq<Submission>, b: Book, t: int, b': Book, open: set<int>,
                      makers: seq<int>, left: set<int>)
    requires History(h) && BookOk(b) && 0 <= t < |h| && Matched(b, h[t], b')
    requires SideFrom(h, b.Side(!h[t].buy), !h[t].buy) && OpenRest(h, b.Side(!h[t].buy), !h[t].buy, open)
    requires |makers| == |Outcome(b, h[t]).fills| && AreMakers(h, b.Side(!h[t].buy), makers, !h[t].buy)
    requires forall j :: j in left && j != t ==> j in open && j !in makers
    ensures SideFrom(h, b'.Side(!h[t].buy), !h[t].buy) && OpenRest(h, b'.Side(!h[t].buy), !h[t].buy, left)
  {
    var o := h[t];
    SweepTakesPrefix(b.Side(!o.buy), o.lot.qty, o.buy, o.lot.price);
    RestAfter(h, b.Side(!o.buy), Outcome(b, o), !o.buy, open, makers);
    forall j | j in left && 0 <= j < |h| && h[j].buy == !o.buy && h[j].lot.qty > 0
      ensures Rests(h, b'.Side(!o.buy), j)
    {
      assert j in Without(open, makers);
    }
  }

  /** The fills of a loop are against the first orders of the side, in turn. */
  lemma FillsFollow(opp: seq<Lot>, qty: int, buy: bool, limit: real)
    requires Positive(opp)
    ensures var fills := Sweep(opp, qty, buy, limit).fills;
            |fills| <= |opp| && forall i :: 0 <= i < |fills| ==> fills[i].maker == opp[i].id
  {
    SweepTakesPrefix(opp, qty, buy, limit);
  }

  /** The makers of one order, and the reports its fills give rise to. */
  lemma EngineReports(h: seq<Submission>, b: Book, o: Submission, takerFirst: string -> bool)
    returns (makers: seq<int>, ks: seq<int>)
    requires BookOk(b) && SideFrom(h, b.Side(!o.buy), !o.buy)
    ensures |makers| == |Outcome(b, o).fills| && AreMakers(h, b.Side(!o.buy), makers, !o.buy)
    ensures AreMakers(h + [o], b.Side(!o.buy), makers, !o.buy)
    ensures Opposite(h + [o], |h|, makers) && ks == Pairs(h + [o], |h|, makers, takerFirst)
    ensures Numbers(h + [o], ks) && forall k :: k in ks <==> k in makers || (k == |h| && makers != [])
    ensures Ids(h + [o], ks) == ReportIds(o.lot.id, Outcome(b, o).fills, takerFirst)
  {
    var opp, s := b.Side(!o.buy), Outcome(b, o);
    FillsFollow(opp, o.lot.qty, o.buy, o.lot.price);
    makers := MakersOf(h, opp, !o.buy, |s.fills|);
    MakersExtend(h, o, opp, makers, !o.buy);
    ks := Pairs(h + [o], |h|, makers, takerFirst);
    PairsAreNumbers(h + [o], |h|, makers, takerFirst);
    PairsIds(h + [o], |h|, makers, s.fills, takerFirst);
  }

  /** The engine's part of one order. */
  lemma EngineStep(h: seq<Submission>, b: Book, o: Submission, b': Book,
                   takerFirst: string -> bool, open: set<int>)
    returns (makers: seq<int>, ks: seq<int>)
    requires History(h + [o]) && BookOk(b) && BookLinked(h, b, open) && Matched(b, o, b')
    requires forall j :: j in open ==> 0 <= j < |h|
    ensures |makers| == |Outcome(b, o).fills| && AreMakers(h, b.Side(!o.buy), makers, !o.buy)
    ensures Opposite(h + [o], |h|, makers) && ks == Pairs(h + [o], |h|, makers, takerFirst)
    ensures Numbers(h + [o], ks)
    ensures Ids(h + [o], ks) == ReportIds(o.lot.id, Outcome(b, o).fills, takerFirst)
    ensures BookLinked(h + [o], b', Without(open + {|h|}, ks))
  {
    assert SideFrom(h, b.Side(!o.buy), !o.buy);
    makers, ks := EngineReports(h, b, o, takerFirst);
    BookExtends(h, o, b, open);
    BookAfter(h + [o], b, |h|, b', open, makers, Without(open + {|h|}, ks));
  }

  /** The book after the newest order t, when `left` are the orders still open. */
  lemma BookAfter(h: seq<Submission>, b: Book, t: int, b': Book, open: set<int>,
                  makers: seq<int>, left: set<int>)
    requires History(h) && BookOk(b) && 0 <= t < |h| && Matched(b, h[t], b') && BookLinked(h, b, open)
    requires |makers| == |Outcome(b, h[t]).fills| && AreMakers(h, b.Side(!h[t].buy), makers, !h[t].buy)
    requires t !in open && forall j :: j in left ==> (j in open && j !in makers) || (j == t && makers == [])
    ensures BookLinked(h, b', left)
  {
    var buy := h[t].buy;
    forall j | j in left ensures j in open + {t} {}
    assert SideFrom(h, b.Side(buy), buy) && OpenRest(h, b.Side(buy), buy, open);
    assert SideFrom(h, b.Side(!buy), !buy) && OpenRest(h, b.Side(!buy), !buy, open);
    OwnAfter(h, b, t, b', open, left);
    OppositeAfter(h, b, t, b', open, makers, left);
    BothSides(h, b', buy, left);
  }

  lemma BothSides(h: seq<Submission>, b: Book, buy: bool, open: set<int>)
    requires SideFrom(h, b.Side(buy), buy) && OpenRest(h, b.Side(buy), buy, open)
    requires SideFrom(h, b.Side(!buy), !buy) && OpenRest(h, b.Side(!buy), !buy, open)
    ensures BookLinked(h, b, open)
  {
    forall any ensures SideFrom(h, b.Side(any), any) && OpenRest(h, b.Side(any), any, open) {
      assert any == buy || any == !buy;
    }
  }

  lemma MakersExtend(h: seq<Submission>, o: Submission, opp: seq<Lot>, makers: seq<int>, buy: bool)
    requires AreMakers(h, opp, makers, buy) && o.buy != buy
    ensures AreMakers(h + [o], opp, makers, buy) && Opposite(h + [o], |h|, makers)
    ensures forall i :: 0 <= i < |makers| ==> (h + [o])[makers[i]].lot.id == opp[i].id
  {
    forall i | 0 <= i < |makers| ensures Is(h + [o], opp[i], makers[i]) && (h + [o])[makers[i]].buy == buy {
      assert Is(h, opp[i], makers[i]) && (h + [o])[makers[i]] == h[makers[i]];
    }
  }

  /** The validator's part of one order, whose reports are ks. */
  lemma ValidatorStep(h: seq<Submission>, s: P.Shadow, o: Submission, recorded: P.Shadow,
                      n: int, open: set<int>, ks: seq<int>)
    returns (r: P.Shadow)
    requires Tracks(h, s, open) && History(h + [o])
    requires P.Recorded(s, o.lot.id, o.lot.price, o.buy, recorded)
    requires Numbers(h + [o], ks) && Accepted(h + [o], open + {|h|}, ks) == n
    ensures r == Report(recorded, Ids(h + [o], ks))
    ensures Tracks(h + [o], r, Without(open + {|h|}, ks))
    ensures Counts(s, r, n, |ks| - n)
  {
    TracksRecord(h, s, open, o, recorded);
    var left;
    r, left := ReportTracks(h + [o], recorded, open + {|h|}, ks);
  }

  /** The reports of an order that are rejected: one for each maker that is not fair, and one
      for each fill when the taker is not the best on its own side. */
  ghost function Rejects(st: State, o: Submission): (r: nat)
    ensures r <= 2 * |Outcome(st.book, o).fills|
  {
    var n := |Outcome(st.book, o).fills|;
    n - FairFrom(st.shadow, !o.buy, st.book.Side(!o.buy), 0, n) + (if BestOnOwnSide(st.shadow, o) then 0 else n)
  }

  lemma AcceptedReports(h: seq<Submission>, s: P.Shadow, o: Submission, opp: seq<Lot>,
                        open: set<int>, makers: seq<int>, takerFirst: string -> bool, ks: seq<int>)
    returns (n: nat)
    requires History(h) && Tracks(h, s, open) && AreMakers(h, opp, makers, !o.buy)
    requires Opposite(h + [o], |h|, makers) && ks == Pairs(h + [o], |h|, makers, takerFirst) && Numbers(h + [o], ks)
    ensures n == Accepted(h + [o], open + {|h|}, ks) && |ks| == 2 * |makers|
    ensures n == FairFrom(s, !o.buy, opp, 0, |makers|) + (if BestOnOwnSide(s, o) then |makers| else 0)
  {
    var h', t := h + [o], |h|;
    PairsAccepted(h', open + {t}, t, makers, takerFirst);
    ClearBefore(h, s, open, o);
    TakerAside(h', open + {t}, t, makers);
    assert open + {t} - {t} == open;
    FirstMakersExtend(h, o, open, makers);
    FirstMakersIs(h, s, open, opp, makers, !o.buy, 0);
    assert Without(open, makers[..0]) == open && makers[0..] == makers;
    n := Accepted(h', open + {t}, ks);
  }

  /** The reports of one order, judged. */
  lemma ReportsJudged(h: seq<Submission>, s: P.Shadow, o: Submission, recorded: P.Shadow, opp: seq<Lot>,
                      open: set<int>, makers: seq<int>, takerFirst: string -> bool, ks: seq<int>)
    returns (r: P.Shadow)
    requires History(h) && Tracks(h, s, open) && History(h + [o]) && AreMakers(h, opp, makers, !o.buy)
    requires P.Recorded(s, o.lot.id, o.lot.price, o.buy, recorded)
    requires Opposite(h + [o], |h|, makers) && ks == Pairs(h + [o], |h|, makers, takerFirst) && Numbers(h + [o], ks)
    ensures r == Report(recorded, Ids(h + [o], ks)) && Tracks(h + [o], r, Without(open + {|h|}, ks))
    ensures var n, fair := |makers|, FairFrom(s, !o.buy, opp, 0, |makers|);
            var rejected := n - fair + (if BestOnOwnSide(s, o) then 0 else n);
            Counts(s, r, 2 * n - rejected, rejected)
  {
    var n := AcceptedReports(h, s, o, opp, open, makers, takerFirst, ks);
    r := ValidatorStep(h, s, o, recorded, n, open, ks);
  }

  /** One order: the link is kept, and the validator's counters move exactly by the reports
      rejected and the others. */
  lemma StepVerdict(h: seq<Submission>, st: State, o: Submission, b: Book, recorded: P.Shadow,
                    takerFirst: string -> bool, open: set<int>)
    returns (st': State, open': set<int>)
    requires Linked(h, st, open) && History(h + [o]) && Matched(st.book, o, b)
    requires P.Recorded(st.shadow, o.lot.id, o.lot.price, o.buy, recorded)
    ensures st' == State(b, Report(recorded, ReportIds(o.lot.id, Outcome(st.book, o).fills, takerFirst)))
    ensures Linked(h + [o], st', open')
    ensures Counts(st.shadow, st'.shadow, 2 * |Outcome(st.book, o).fills| - Rejects(st, o), Rejects(st, o))
  {
    var makers, ks := EngineStep(h, st.book, o, b, takerFirst, open);
    var r := ReportsJudged(h, st.shadow, o, recorded, st.book.Side(!o.buy), open, makers, takerFirst, ks);
    MatchKeepsBook(st.book, o, b);
    st', open' := State(b, r), Without(open + {|h|}, ks);
  }

  lemma HistoryPrefix(h: seq<Submission>, n: nat)
    requires History(h) && n <= |h|
    ensures History(h[..n])
  {
    forall i, j | Earlier(h[..n], i, j) ensures h[..n][i].lot.id != h[..n][j].lot.id {
      assert Earlier(h, i, j);
    }
  }

  /** The rejected reports of the first n orders. */
  ghost function Rejected(states: seq<State>, orders: seq<Submission>, n: nat): nat
    requires |states| == |orders| + 1 && n <= |orders|
  {
    Sum(RejectList(states, orders, n))
  }

  ghost function RejectList(states: seq<State>, orders: seq<Submission>, n: nat): (r: seq<nat>)
    requires |states| == |orders| + 1 && n <= |orders|
    ensures |r| == n
  {
    seq(n, i requires 0 <= i < n => Rejects(states[i], orders[i]))
  }

  lemma RejectedNext(states: seq<State>, orders: seq<Submission>, n: nat)
    requires |states| == |orders| + 1 && n < |orders|
    ensures Rejected(states, orders, n + 1) == Rejected(states, orders, n) + Rejects(states[n], orders[n])
  {
    var more := RejectList(states, orders, n + 1);
    assert more[..|more| - 1] == RejectList(states, orders, n);
  }

  /** The fills of the first n orders. */
  ghost function FillCount(states: seq<State>, orders: seq<Submission>, n: nat): nat
    requires |states| == |orders| + 1 && n <= |orders|
  {
    if n == 0 then 0 else
      FillCount(states, orders, n - 1) + |Outcome(states[n - 1].book, orders[n - 1]).fills|
  }

  lemma StartLinked()
    ensures Linked([], START, {})
  {
  }

  /** What is known after the first n orders. */
  ghost predicate Known(states: seq<State>, orders: seq<Submission>, n: nat, open: set<int>)
    requires |states| == |orders| + 1 && n <= |orders|
  {
    && Linked(orders[..n], states[n], open)
    && Counts(P.EMPTY_SHADOW, states[n].shadow,
              2 * FillCount(states, orders, n) - Rejected(states, orders, n), Rejected(states, orders, n))
  }

  lemma OneMoreLinked(states: seq<State>, orders: seq<Submission>, takerFirst: string -> bool, k: nat, n: nat,
                      open: set<int>)
    returns (open': set<int>)
    requires |states| == |orders| + 1 && n == k + 1 <= |orders|
    requires History(orders) && Linked(orders[..k], states[k], open)
    requires Step(states[k], orders[k], states[n], takerFirst)
    ensures Linked(orders[..n], states[n], open')
    ensures Counts(states[k].shadow, states[n].shadow,
                   2 * |Outcome(states[k].book, orders[k]).fills| - Rejects(states[k], orders[k]),
                   Rejects(states[k], orders[k]))
  {
    HistoryPrefix(orders, n);
    PrefixStep(orders, k);
    var o := orders[k];
    var recorded :| P.Recorded(states[k].shadow, o.lot.id, o.lot.price, o.buy, recorded)
      && states[n].shadow == Report(recorded, ReportIds(o.lot.id, Outcome(states[k].book, o).fills, takerFirst));
    var st;
    st, open' := StepVerdict(orders[..k], states[k], o, states[n].book, recorded, takerFirst, open);
  }

  lemma OneMoreCounted(states: seq<State>, orders: seq<Submission>, k: nat, n: nat)
    requires |states| == |orders| + 1 && n == k + 1 <= |orders|
    requires Counts(P.EMPTY_SHADOW, states[k].shadow,
                    2 * FillCount(states, orders, k) - Rejected(states, orders, k), Rejected(states, orders, k))
    requires Counts(states[k].shadow, states[n].shadow,
                    2 * |Outcome(states[k].book, orders[k]).fills| - Rejects(states[k], orders[k]),
                    Rejects(states[k], orders[k]))
    ensures Counts(P.EMPTY_SHADOW, states[n].shadow,
                   2 * FillCount(states, orders, n) - Rejected(states, orders, n), Rejected(states, orders, n))
  {
    RejectedNext(states, orders, k);
  }

  lemma StepOf(states: seq<State>, orders: seq<Submission>, choices: seq<string -> bool>, k: nat, n: nat)
    requires JointRun(states, orders, choices) && n == k + 1 <= |orders|
    ensures Step(states[k], orders[k], states[n], choices[k])
  {
    assert StepAt(states, orders, choices, k);
  }

  lemma NextKnown(states: seq<State>, orders: seq<Submission>, choices: seq<string -> bool>,
                  k: nat, n: nat, open: set<int>)
    returns (open': set<int>)
    requires JointRun(states, orders, choices) && History(orders) && n == k + 1 <= |orders|
    requires Known(states, orders, k, open)
    ensures Known(states, orders, n, open')
  {
    StepOf(states, orders, choices, k, n);
    open' := OneMoreLinked(states, orders, choices[k], k, n, open);
    OneMoreCounted(states, orders, k, n);
  }

  /** What is known at the start. */
  lemma StartKnown(states: seq<State>, orders: seq<Submission>)
    requires |states| == |orders| + 1 && states[0] == START
    ensures Known(states, orders, 0, {})
  {
    StartLinked();
    assert orders[..0] == [];
  }

  /** Over every run the validator rejects exactly those reports and accepts all others. */
  lemma {:induction false} RunVerdicts(states: seq<State>, orders: seq<Submission>, choices: seq<string -> bool>,
                                       n: nat)
    returns (open: set<int>)
    requires JointRun(states, orders, choices) && History(orders) && n <= |orders|
    ensures Known(states, orders, n, open)
  {
    if n == 0 {
      StartKnown(states, orders);
      open := {};
    } else {
      var before := RunVerdicts(states, orders, choices, n - 1);
      open := NextKnown(states, orders, choices, n - 1, n, before);
    }
  }
}
