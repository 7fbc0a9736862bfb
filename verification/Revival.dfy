/** Bringing a settled asset back: collateral bids (bid_collateral in
    market_evaluator.cpp), process_bids in db_maint.cpp and revive_bitasset in
    db_market.cpp. */
module Revival {
  import opened Options
  import opened Prices
  import opened Sums
  import opened MarginCall
  import opened MarketState
  import opened MarketDatabase
  import opened OrderBook
  import opened Trades
  import opened Positions
  import opened Matching
  import opened Orders
  import opened GlobalSettlement
  import opened MarketInvariant
  import opened MarginCalls
  import opened MarketOperations
  import opened PositionUpdate
  import opened Settlements

  type BidKey = (AssetId, Account)

  // ------------------------------------------------------------------
  // Choosing bids

  /// price::call_price, as debt per collateral: debt times the maintenance ratio over
  /// collateral, halved until it fits.
  function CallPrice(debt: nat, collateral: nat, mcr: nat): (r: Fraction)
    requires debt > 0 && collateral > 0 && mcr > 0
    ensures r.Positive() && r.Fits()
  {
    HalveToFit(Fraction(debt * mcr, collateral * RATIO_DENOM).Reduce())
  }

  function HalveToFit(f: Fraction): (r: Fraction)
    requires f.Positive()
    ensures r.Positive() && r.Fits()
    decreases f.num + f.den
  {
    if f.Fits() then f else HalveToFit(Fraction(f.num / 2 + 1, f.den / 2 + 1).Reduce())
  }

  /// The part of a bid's debt there is to cover.
  function Share(b: Bid, supply: nat): nat { Min(b.debt.amount, supply) }

  /// What the fund adds to a bid covering that much.
  function FromFund(debt: nat, st: Settlement): nat
    requires st.price.base.amount > 0
  {
    FloorMul(debt, st.price.quote.amount, st.price.base.amount)
  }

  /// With its part of the fund the bid would be above the maintenance ratio.
  predicate Passes(b: Bid, supply: nat, st: Settlement, feed: Feed)
    requires st.price.base.amount > 0 && supply > 0 && b.debt.amount > 0 && b.collateral.amount > 0 && feed.mcr > 0
  {
    var f := CallPrice(Share(b, supply), FromFund(Share(b, supply), st) + b.collateral.amount, feed.mcr);
    Less(Price(Asset(f.num, b.debt.id), Asset(f.den, b.collateral.id)), feed.price)
  }

  /// The ratio the bid is judged by lies above maintenance as margin calls compute it.
  predicate Above(b: Bid, supply: nat, st: Settlement, feed: Feed)
    requires st.price.base.amount > 0 && feed.price.Valid() && feed.mcr > 0
  {
    var debt := Share(b, supply);
    Less(feed.Maintenance(), Price(Asset(FromFund(debt, st) + b.collateral.amount, b.collateral.id), Asset(debt, b.debt.id)))
  }

  /// Neither the call price of the bid nor the maintenance ratio has to be approximated.
  predicate JudgedExactly(b: Bid, supply: nat, st: Settlement, feed: Feed)
    requires st.price.base.amount > 0 && supply > 0 && b.debt.amount > 0 && b.collateral.amount > 0
    requires feed.price.Valid() && feed.mcr > 0
  {
    var debt := Share(b, supply);
    && ScalesExactly(feed.price.Inverse(), feed.mcr, RATIO_DENOM)
    && Fraction(debt * feed.mcr, (FromFund(debt, st) + b.collateral.amount) * RATIO_DENOM).Reduce().Fits()
  }

  /** process_bids and the margin calls compare with different approximations of one
      ratio; without approximation they agree about every bid. */
  lemma ExactlyJudged(b: Bid, supply: nat, st: Settlement, feed: Feed)
    requires st.price.base.amount > 0 && supply > 0 && b.debt.amount > 0 && b.collateral.amount > 0
    requires feed.price.Valid() && feed.mcr > 0 && JudgedExactly(b, supply, st, feed)
    ensures Passes(b, supply, st, feed) <==> Above(b, supply, st, feed)
  {
    hide Scale;
    hide FromFund;
    var debt := Share(b, supply);
    var collateral := FromFund(debt, st) + b.collateral.amount;
    var exact := Fraction(debt * feed.mcr, collateral * RATIO_DENOM);
    ReduceIsExact(exact);
    var f, m := CallPrice(debt, collateral, feed.mcr), feed.Maintenance();
    ScaleExact(feed.price.Inverse(), feed.mcr, RATIO_DENOM);
    SameComparison(f.num, f.den, debt * feed.mcr, collateral * RATIO_DENOM, feed.price.base.amount, feed.price.quote.amount);
    SameComparison(m.base.amount, m.quote.amount, feed.price.quote.amount * feed.mcr, feed.price.base.amount * RATIO_DENOM, collateral, debt);
    Regroup(debt, feed.mcr, feed.price.quote.amount);
    Regroup(feed.price.quote.amount, feed.mcr, debt);
    Regroup(collateral, RATIO_DENOM, feed.price.base.amount);
    Regroup(feed.price.base.amount, RATIO_DENOM, collateral);
  }

  /** In plain amounts, where nothing is approximated: a bid passes when its collateral and its
      debt's part of the fund, rounded down, are worth more than `mcr` thousandths of that debt. */
  lemma PassesMeans(b: Bid, supply: nat, st: Settlement, feed: Feed, debt: nat, part: nat)
    requires st.price.base.amount > 0 && supply > 0 && b.debt.amount > 0 && b.collateral.amount > 0
    requires feed.price.Valid() && feed.mcr > 0 && feed.mssr > 0 && JudgedExactly(b, supply, st, feed)
    requires debt <= b.debt.amount && debt <= supply && (debt == b.debt.amount || debt == supply)
    requires part * st.price.base.amount <= debt * st.price.quote.amount < (part + 1) * st.price.base.amount
    ensures Passes(b, supply, st, feed) <==>
      (feed.price.quote.amount * feed.mcr) * debt < (part + b.collateral.amount) * (feed.price.base.amount * RATIO_DENOM)
  {
    hide Scale;
    hide FloorMul;
    hide Passes;
    hide Above;
    ExactlyJudged(b, supply, st, feed);
    assert ScalesExactly(feed.price.Inverse(), feed.mcr, RATIO_DENOM);
    hide JudgedExactly;
    hide ScalesExactly;
    AboveMeans(b, supply, st, feed, debt, part);
  }

  lemma AboveMeans(b: Bid, supply: nat, st: Settlement, feed: Feed, debt: nat, part: nat)
    requires st.price.base.amount > 0 && supply > 0 && b.debt.amount > 0 && feed.price.Valid() && feed.mcr > 0 && feed.mssr > 0
    requires ScalesExactly(feed.price.Inverse(), feed.mcr, RATIO_DENOM)
    requires debt <= b.debt.amount && debt <= supply && (debt == b.debt.amount || debt == supply)
    requires part * st.price.base.amount <= debt * st.price.quote.amount < (part + 1) * st.price.base.amount
    ensures Above(b, supply, st, feed) <==>
      (feed.price.quote.amount * feed.mcr) * debt < (part + b.collateral.amount) * (feed.price.base.amount * RATIO_DENOM)
  {
    hide Scale;
    hide ScalesExactly;
    hide FloorMul;
    FloorIsGreatest(debt, st.price.quote.amount, st.price.base.amount, part);
    FloorIsGreatest(debt, st.price.quote.amount, st.price.base.amount, part + 1);
    assert FromFund(debt, st) == part;
    FeedRatios(feed);
    var m := feed.Maintenance();
    SameComparison(m.base.amount, m.quote.amount, feed.price.quote.amount * feed.mcr, feed.price.base.amount * RATIO_DENOM,
                   part + b.collateral.amount, debt);
  }

  /** No position made from a bid above maintenance is called. */
  lemma AboveIsNotCalled(b: Bid, c: CallOrder, supply: nat, st: Settlement, feed: Feed)
    requires st.price.base.amount > 0 && feed.price.Valid() && feed.mcr > 0 && supply > 0 && b.debt.amount > 0
    requires Funded(b, c, supply, st) && Above(b, supply, st, feed)
    ensures !Called(feed, c)
  {
    hide Scale;
    var debt, m := Share(b, supply), feed.Maintenance();
    FractionsTransitive(m.base.amount, m.quote.amount, FromFund(debt, st) + b.collateral.amount, debt, c.collateral.amount, c.debt.amount);
  }

  /** The two can disagree: a feed of 4 * 10^14 for 3 and a ratio of 1750, under which a bid
      passes although the position it becomes is called, at once and by an order at the
      feed's price. */
  lemma PassesButCalled()
    ensures
      var feed := Feed(Price(Asset(400_000_000_000_000, 1), Asset(3, 0)), 1750, 1100);
      var st := Settlement(Price(Asset(761_904_761_904_760, 1), Asset(9, 0)), 9);
      var b := Bid(0, Asset(1, 0), Asset(761_904_761_904_760, 1));
      var c := NewPosition(b, 761_904_761_904_760, 9);
      var o := LimitOrder(1, 400_000_000_000_000, feed.price, 0, Asset(0, 0), 0);
      && feed.Valid(1, 0) && Solvent(1, 761_904_761_904_760, 0, st)
      && Passes(b, 761_904_761_904_760, st, feed) && Funded(b, c, 761_904_761_904_760, st)
      && Called(feed, c) && Squeezes(feed, o) && !Above(b, 761_904_761_904_760, st, feed)
  {
    hide Scale;
    var feed := Feed(Price(Asset(400_000_000_000_000, 1), Asset(3, 0)), 1750, 1100);
    InexactMaintenance();
    ScaleDirection(feed.price, RATIO_DENOM, feed.mssr);
    assert CallPrice(761_904_761_904_760, 10, 1750) == Fraction(133_333_333_333_333, 1) by {
      assert Gcd(761_904_761_904_760 * 1750, 10_000) == 10_000;
      assert Fraction(761_904_761_904_760 * 1750, 10_000).Reduce() == Fraction(133_333_333_333_333, 1);
    }
  }

  /// Bids with more collateral per debt come first.
  predicate Outbids(b: Bid, c: Bid) {
    c.collateral.amount * b.debt.amount < b.collateral.amount * c.debt.amount
  }

  /** Of two bids for the same debt the one with more collateral comes first, of two with the
      same collateral the one for less debt. */
  lemma OutbidsMeans(b: Bid, c: Bid)
    requires b.debt.amount > 0 && c.debt.amount > 0
    ensures b.debt.amount == c.debt.amount ==> (Outbids(b, c) <==> b.collateral.amount > c.collateral.amount)
    ensures b.collateral.amount == c.collateral.amount > 0 ==> (Outbids(b, c) <==> b.debt.amount < c.debt.amount)
  {
    if b.debt.amount == c.debt.amount {
      ProductLess(c.collateral.amount, b.collateral.amount, b.debt.amount);
      if b.collateral.amount <= c.collateral.amount { ProductMonotone(b.collateral.amount, c.collateral.amount, b.debt.amount); }
    }
    if b.collateral.amount == c.collateral.amount > 0 {
      var x := b.collateral.amount;
      ProductLess(b.debt.amount, c.debt.amount, x);
      if c.debt.amount <= b.debt.amount { ProductMonotone(c.debt.amount, b.debt.amount, x); }
      assert x * b.debt.amount == b.debt.amount * x && x * c.debt.amount == c.debt.amount * x;
    }
  }

  function DebtCovered(m: map<BidKey, Bid>, chosen: seq<BidKey>, supply: nat): nat {
    if chosen == [] then 0
    else
      var last := chosen[|chosen| - 1];
      DebtCovered(m, chosen[..|chosen| - 1], supply) + if last in m then Share(m[last], supply) else 0
  }

  /// The best bid for `a` that is not among `done`.
  method BestBid(m: map<BidKey, Bid>, a: AssetId, done: set<BidKey>) returns (r: Option<BidKey>)
    requires forall k <- m :: m[k].debt.amount > 0
    ensures r.Some? ==>
      && r.value in m && r.value.0 == a && r.value !in done
      && forall k <- m :: k.0 == a && k !in done ==> !Outbids(m[k], m[r.value])
    ensures r.None? ==> forall k <- m :: k.0 == a ==> k in done
  {
    r := None;
    var todo := m.Keys - done;
    while todo != {}
      invariant todo <= m.Keys - done
      invariant r.Some? ==>
        && r.value in m && r.value.0 == a && r.value !in done
        && forall k <- m :: k.0 == a && k !in done && k !in todo ==> !Outbids(m[k], m[r.value])
      invariant r.None? ==> forall k <- m :: k.0 == a && k !in done ==> k in todo
      decreases |todo|
    {
      var k :| k in todo;
      todo := todo - {k};
      if k.0 == a {
        if r.None? {
          r := Some(k);
        } else if Outbids(m[k], m[r.value]) {
          forall j <- m | j.0 == a && j !in done && j !in todo ensures !Outbids(m[j], m[k]) {
            if j != k {
              FractionsTransitive(m[j].collateral.amount, m[j].debt.amount,
                m[r.value].collateral.amount, m[r.value].debt.amount, m[k].collateral.amount, m[k].debt.amount);
            }
          }
          r := Some(k);
        }
      }
    }
  }

  ghost predicate Biddable(s: State, a: AssetId) {
    && s.Settled(a) && BidsValid(s) && s.assets[a].bitasset.value.feed.Some?
    && s.assets[a].bitasset.value.feed.value.Valid(a, BackingOf(s, a))
    && s.assets[a].supply <= s.assets[a].bitasset.value.settlement.value.price.base.amount
  }

  /// Different bids for `a`, all passing, best first.
  ghost predicate Selection(s: State, a: AssetId, chosen: seq<BidKey>)
    requires Biddable(s, a)
  {
    var d := s.assets[a];
    && (forall k <- chosen :: k in s.bids && k.0 == a)
    && (chosen != [] ==> d.supply > 0)
    && (forall i, j :: 0 <= i < j < |chosen| ==> chosen[i] != chosen[j])
    && (forall k <- chosen :: Passes(s.bids[k], d.supply, d.bitasset.value.settlement.value, d.bitasset.value.feed.value))
    && (forall i, k :: 0 <= i < |chosen| && k in s.bids && k.0 == a && k !in chosen[..i] ==> !Outbids(s.bids[k], s.bids[chosen[i]]))
  }

  /// Together they cover the supply, and none of them is superfluous.
  ghost predicate Chosen(s: State, a: AssetId, chosen: seq<BidKey>)
    requires Biddable(s, a)
  {
    && Selection(s, a, chosen)
    && DebtCovered(s.bids, chosen, s.assets[a].supply) >= s.assets[a].supply
    && (chosen != [] ==> DebtCovered(s.bids, chosen[..|chosen| - 1], s.assets[a].supply) < s.assets[a].supply)
  }

  /// All passing bids are taken, or the best of those left does not pass, and the
  /// supply is not covered.
  ghost predicate Insufficient(s: State, a: AssetId, chosen: seq<BidKey>)
    requires Biddable(s, a)
  {
    && Selection(s, a, chosen) && s.assets[a].supply > 0
    && DebtCovered(s.bids, chosen, s.assets[a].supply) < s.assets[a].supply
    && forall k <- s.bids :: k.0 == a && k !in chosen ==>
      exists j <- s.bids ::
        && j.0 == a && j !in chosen && !Outbids(s.bids[k], s.bids[j])
        && !Passes(s.bids[j], s.assets[a].supply, s.assets[a].bitasset.value.settlement.value, s.assets[a].bitasset.value.feed.value)
  }

  lemma NotEnough(s: State, a: AssetId, chosen: seq<BidKey>, best: Option<BidKey>)
    requires Biddable(s, a) && Selection(s, a, chosen) && DebtCovered(s.bids, chosen, s.assets[a].supply) < s.assets[a].supply
    requires best.None? ==> forall k <- s.bids :: k.0 == a ==> k in chosen
    requires best.Some? ==>
      && best.value in s.bids && best.value.0 == a && best.value !in chosen
      && !Passes(s.bids[best.value], s.assets[a].supply, s.assets[a].bitasset.value.settlement.value, s.assets[a].bitasset.value.feed.value)
      && forall k <- s.bids :: k.0 == a && k !in chosen ==> !Outbids(s.bids[k], s.bids[best.value])
    ensures Insufficient(s, a, chosen)
  {
    hide Passes;
    hide Outbids;
  }

  lemma SelectNone(s: State, a: AssetId)
    requires Biddable(s, a)
    ensures Selection(s, a, [])
  {
  }

  lemma SelectOne(s: State, a: AssetId, chosen: seq<BidKey>, next: BidKey)
    requires Biddable(s, a) && Selection(s, a, chosen) && s.assets[a].supply > 0
    requires next in s.bids && next.0 == a && next !in chosen
    requires forall k <- s.bids :: k.0 == a && k !in chosen ==> !Outbids(s.bids[k], s.bids[next])
    requires Passes(s.bids[next], s.assets[a].supply, s.assets[a].bitasset.value.settlement.value, s.assets[a].bitasset.value.feed.value)
    ensures Selection(s, a, chosen + [next])
  {
    hide Passes;
    hide Outbids;
    var longer := chosen + [next];
    forall i, k | 0 <= i < |longer| && k in s.bids && k.0 == a && k !in longer[..i]
      ensures !Outbids(s.bids[k], s.bids[longer[i]])
    {
      if i < |chosen| {
        assert longer[..i] == chosen[..i];
      } else {
        assert longer[..i] == chosen;
      }
    }
  }

  /// The first pass of process_bids.
  method ChooseBids(s: State, a: AssetId) returns (r: Option<seq<BidKey>>)
    requires Biddable(s, a)
    ensures r.Some? ==> Chosen(s, a, r.value)
    ensures r.None? ==> exists chosen :: Insufficient(s, a, chosen)
  {
    hide Outbids;
    hide Passes;
    hide Insufficient;
    hide Selection;
    var d := s.assets[a];
    var st, feed := d.bitasset.value.settlement.value, d.bitasset.value.feed.value;
    var chosen: seq<BidKey> := [];
    var covered := 0;
    SelectNone(s, a);
    while covered < d.supply
      invariant Selection(s, a, chosen) && covered == DebtCovered(s.bids, chosen, d.supply)
      invariant chosen != [] ==> DebtCovered(s.bids, chosen[..|chosen| - 1], d.supply) < d.supply
      decreases d.supply - covered
    {
      var best := BestBid(s.bids, a, set k <- chosen);
      if best.None? || !Passes(s.bids[best.value], d.supply, st, feed) {
        NotEnough(s, a, chosen, best);
        return None;
      }
      SelectOne(s, a, chosen, best.value);
      var next := chosen + [best.value];
      assert next[..|next| - 1] == chosen;
      covered := covered + Share(s.bids[best.value], d.supply);
      chosen := next;
    }
    return Some(chosen);
  }

  // ------------------------------------------------------------------
  // Executing them

  function NewPosition(b: Bid, debt: nat, fromFund: nat): CallOrder {
    CallOrder(b.bidder, Asset(b.collateral.amount + fromFund, b.collateral.id), Asset(debt, b.debt.id), None)
  }

  /// The position of a bid that covers all it offers to, with its part of the fund.
  function WholeShare(b: Bid, supply: nat, st: Settlement): CallOrder
    requires st.price.base.amount > 0
  {
    NewPosition(b, Share(b, supply), FromFund(Share(b, supply), st))
  }

  /** Such a position is called exactly when its bid is not above maintenance. */
  lemma WholeShareCalled(b: Bid, supply: nat, st: Settlement, feed: Feed)
    requires st.price.base.amount > 0 && feed.price.Valid() && feed.mcr > 0
    ensures Called(feed, WholeShare(b, supply, st)) <==> !Above(b, supply, st, feed)
  {
    hide Scale;
    hide FromFund;
  }

  /// What the chosen bids take out of the fund, each its part.
  function FundUsed(m: map<BidKey, Bid>, chosen: seq<BidKey>, supply: nat, st: Settlement): nat
    requires st.price.base.amount > 0
  {
    if chosen == [] then 0
    else
      var last := chosen[|chosen| - 1];
      FundUsed(m, chosen[..|chosen| - 1], supply, st) + if last in m then FromFund(Share(m[last], supply), st) else 0
  }

  /// The position chosen bid `i` will become: its share, or all that is left for the last.
  function Plan(s: State, a: AssetId, chosen: seq<BidKey>, i: nat): CallOrder
    requires Biddable(s, a) && s.assets[a].supply > 0 && i < |chosen| && chosen[i] in s.bids
  {
    var d := s.assets[a];
    var st := d.bitasset.value.settlement.value;
    if i < |chosen| - 1 then WholeShare(s.bids[chosen[i]], d.supply, st)
    else
      var covered, used := DebtCovered(s.bids, chosen[..i], d.supply), FundUsed(s.bids, chosen[..i], d.supply, st);
      NewPosition(s.bids[chosen[i]], if covered <= d.supply then d.supply - covered else 0, if used <= d.Fund() then d.Fund() - used else 0)
  }

  /// The first `i` positions are as planned.
  ghost predicate AsPlanned(s: State, m: Calls, a: AssetId, chosen: seq<BidKey>, i: nat)
    requires Biddable(s, a) && i <= |chosen| && (chosen != [] ==> s.assets[a].supply > 0) && forall k <- chosen :: k in s.bids
  {
    forall j :: 0 <= j < i ==> (chosen[j].1, a) in m && m[(chosen[j].1, a)] == Plan(s, a, chosen, j)
  }

  lemma PlanOne(s: State, m: Calls, a: AssetId, chosen: seq<BidKey>, i: nat, c: CallOrder)
    requires Biddable(s, a) && Selection(s, a, chosen) && i < |chosen| && AsPlanned(s, m, a, chosen, i)
    requires c == Plan(s, a, chosen, i)
    ensures AsPlanned(s, m[(chosen[i].1, a) := c], a, chosen, i + 1)
  {
    hide Plan;
    hide Passes;
    hide Outbids;
    forall j | 0 <= j < i ensures (chosen[j].1, a) != (chosen[i].1, a) {
      assert chosen[j] in chosen && chosen[i] in chosen && chosen[j] != chosen[i];
    }
  }

  function Execute(s: State, k: BidKey, debt: nat, fromFund: nat): State
    requires k in s.bids
  {
    s.(calls := s.calls[(k.1, k.0) := NewPosition(s.bids[k], debt, fromFund)], bids := s.bids - {k})
  }

  lemma ExecuteMoves(s: State, k: BidKey, debt: nat, fromFund: nat, x: AssetId)
    requires k in s.bids && k == (s.bids[k].debt.id, s.bids[k].bidder) && (k.1, k.0) !in s.calls
    ensures Gap(Execute(s, k, debt, fromFund), x) == Gap(s, x) + Part(Asset(fromFund, s.bids[k].collateral.id), x)
    ensures DebtGap(Execute(s, k, debt, fromFund), x) == DebtGap(s, x) + Part(Asset(debt, k.0), x)
  {
    var t := s.(calls := s.calls[(k.1, k.0) := NewPosition(s.bids[k], debt, fromFund)]);
    CallGap(s, (k.1, k.0), NewPosition(s.bids[k], debt, fromFund), x);
    BidGap(t, k, s.bids[k], x);
  }

  /// The position a bid was turned into: no more debt than the bid covers, at least its
  /// debt's part of the fund, and at least the collateral ratio the bid was judged by.
  ghost predicate Funded(b: Bid, c: CallOrder, supply: nat, st: Settlement)
    requires st.price.base.amount > 0
  {
    var debt := Share(b, supply);
    && c.borrower == b.bidder && c.debt.id == b.debt.id && c.collateral.id == b.collateral.id
    && 0 < c.debt.amount <= debt && c.collateral.amount >= b.collateral.amount + FromFund(c.debt.amount, st)
    && (b.collateral.amount + FromFund(debt, st)) * c.debt.amount <= c.collateral.amount * debt
  }

  /// In plain amounts: no more debt than offered and owed, and beyond the bidder's own
  /// collateral at least the debt's part of the fund, rounded down.
  predicate FairShare(b: Bid, c: CallOrder, supply: nat, price: Price) {
    && c.debt.amount <= b.debt.amount && c.debt.amount <= supply && c.collateral.amount >= b.collateral.amount
    && c.debt.amount * price.quote.amount < (c.collateral.amount - b.collateral.amount + 1) * price.base.amount
  }

  /// All the debt offered, or owed, and no more than its part of the fund.
  predicate WholeFairShare(b: Bid, c: CallOrder, supply: nat, price: Price) {
    && FairShare(b, c, supply, price) && (c.debt.amount == b.debt.amount || c.debt.amount == supply)
    && (c.collateral.amount - b.collateral.amount) * price.base.amount <= c.debt.amount * price.quote.amount
  }

  lemma FundedIsFair(b: Bid, c: CallOrder, supply: nat, st: Settlement)
    requires st.price.base.amount > 0 && Funded(b, c, supply, st)
    ensures FairShare(b, c, supply, st.price)
  {
    hide FloorMul;
    var part := FromFund(c.debt.amount, st);
    var more := c.collateral.amount - b.collateral.amount;
    FloorBounds(c.debt.amount, st.price.quote.amount, st.price.base.amount);
    ProductMonotone(part + 1, more + 1, st.price.base.amount);
    assert (part + 1) * st.price.base.amount == part * st.price.base.amount + st.price.base.amount;
  }

  lemma WholeShareIsFair(b: Bid, supply: nat, st: Settlement)
    requires st.price.base.amount > 0
    ensures WholeFairShare(b, WholeShare(b, supply, st), supply, st.price)
  {
    hide FloorMul;
    var part := FromFund(Share(b, supply), st);
    FloorBounds(Share(b, supply), st.price.quote.amount, st.price.base.amount);
    assert (part + 1) * st.price.base.amount == part * st.price.base.amount + st.price.base.amount;
  }

  /** Whoever comes last takes all that is left, for no more debt than asked: its ratio
      is no worse than the one that was checked. */
  lemma LastIsFunded(own: nat, debt: nat, share: nat, toCover: nat, remaining: nat, s0: nat, f0: nat)
    requires s0 > 0 && toCover <= debt && share * s0 <= debt * f0 && toCover * f0 <= remaining * s0
    ensures (own + share) * toCover <= (own + remaining) * debt
  {
    assert share * toCover <= remaining * debt by {
      // share * toCover * s0 <= debt * f0 * toCover <= debt * remaining * s0
      ProductMonotone(share * s0, debt * f0, toCover);
      ProductMonotone(toCover * f0, remaining * s0, debt);
      Regroup(share, s0, toCover);
      Regroup(debt, f0, toCover);
      Regroup(toCover, f0, debt);
      Regroup(remaining, s0, debt);
      if remaining * debt < share * toCover {
        ProductLess(remaining * debt, share * toCover, s0);
        assert false;
      }
    }
    ProductMonotone(toCover, debt, own);
    assert (own + share) * toCover == own * toCover + share * toCover;
    assert (own + remaining) * debt == own * debt + remaining * debt;
    assert own * toCover == toCover * own && own * debt == debt * own;
  }

  /// Of the bids, `done` are gone.
  ghost predicate BidsLeft(m: map<BidKey, Bid>, n: map<BidKey, Bid>, done: seq<BidKey>) {
    && (forall k <- n :: k in m && n[k] == m[k] && k !in done)
    && (forall k <- m :: k !in done ==> k in n)
  }

  /// The positions of `a` are those of the bids `done`.
  ghost predicate PositionsMade(s: State, m: Calls, a: AssetId, done: seq<BidKey>)
    requires Biddable(s, a)
  {
    var d := s.assets[a];
    && (forall k <- s.calls :: k in m && m[k] == s.calls[k])
    && (forall k <- done :: (k.1, a) in m)
    && (forall k <- m :: k in s.calls || (k.1 == a && (a, k.0) in done && (a, k.0) in s.bids && d.supply > 0
         && Funded(s.bids[(a, k.0)], m[k], d.supply, d.bitasset.value.settlement.value)))
  }

  /// The first `i` chosen bids have become positions.
  ghost predicate Executed(s: State, t: State, a: AssetId, chosen: seq<BidKey>, i: nat)
    requires Biddable(s, a) && i <= |chosen|
  {
    && t == s.(calls := t.calls, bids := t.bids)
    && BidsLeft(s.bids, t.bids, chosen[..i]) && PositionsMade(s, t.calls, a, chosen[..i])
  }

  lemma BidGone(m: map<BidKey, Bid>, n: map<BidKey, Bid>, done: seq<BidKey>, k: BidKey)
    requires BidsLeft(m, n, done) && k in m && k !in done
    ensures k in n && n[k] == m[k] && BidsLeft(m, n - {k}, done + [k])
  {
  }

  lemma PositionMade(s: State, m: Calls, a: AssetId, done: seq<BidKey>, k: BidKey, c: CallOrder)
    requires Biddable(s, a) && PositionsMade(s, m, a, done) && s.assets[a].supply > 0
    requires k in s.bids && k == (a, k.1) && k !in done && forall j <- s.calls :: j.1 != a
    requires Funded(s.bids[k], c, s.assets[a].supply, s.assets[a].bitasset.value.settlement.value)
    ensures (k.1, a) !in m && PositionsMade(s, m[(k.1, a) := c], a, done + [k])
  {
    hide Funded;
    hide BidsValid;
  }

  lemma ExecuteOne(s: State, t: State, a: AssetId, chosen: seq<BidKey>, i: nat, debt: nat, fromFund: nat)
    requires Biddable(s, a) && i < |chosen| && Executed(s, t, a, chosen, i) && s.assets[a].supply > 0
    requires chosen[i] in s.bids && chosen[i] == (a, chosen[i].1) && chosen[i] !in chosen[..i] && forall j <- s.calls :: j.1 != a
    requires Funded(s.bids[chosen[i]], NewPosition(s.bids[chosen[i]], debt, fromFund), s.assets[a].supply,
                    s.assets[a].bitasset.value.settlement.value)
    ensures chosen[i] in t.bids && t.bids[chosen[i]] == s.bids[chosen[i]]
    ensures Executed(s, Execute(t, chosen[i], debt, fromFund), a, chosen, i + 1)
  {
    hide Funded;
    hide PositionsMade;
    hide BidsLeft;
    var k := chosen[i];
    assert chosen[..i + 1] == chosen[..i] + [k];
    BidGone(s.bids, t.bids, chosen[..i], k);
    PositionMade(s, t.calls, a, chosen[..i], k, NewPosition(s.bids[k], debt, fromFund));
  }

  lemma NoneExecuted(s: State, a: AssetId, chosen: seq<BidKey>)
    requires Biddable(s, a)
    ensures Executed(s, s, a, chosen, 0)
  {
  }

  lemma NextBid(s: State, t: State, a: AssetId, chosen: seq<BidKey>, i: nat)
    requires Biddable(s, a) && i < |chosen| && Executed(s, t, a, chosen, i) && Selection(s, a, chosen)
    requires forall k <- s.calls :: k.1 != a
    ensures chosen[i] in s.bids && chosen[i] in t.bids && t.bids[chosen[i]] == s.bids[chosen[i]]
    ensures chosen[i] == (a, chosen[i].1) && chosen[i] !in chosen[..i] && (chosen[i].1, a) !in t.calls
    ensures var b := s.bids[chosen[i]];
      b.debt.id == a && b.bidder == chosen[i].1 && b.collateral.id == BackingOf(s, a) && b.debt.amount > 0
  {
    hide Passes;
    hide Outbids;
    hide Funded;
    assert chosen[i] !in chosen[..i];
    assert chosen[i] in chosen;
  }

  lemma {:induction false} CoveredGrows(m: map<BidKey, Bid>, chosen: seq<BidKey>, i: nat, j: nat, supply: nat)
    requires i <= j <= |chosen|
    ensures DebtCovered(m, chosen[..i], supply) <= DebtCovered(m, chosen[..j], supply)
    decreases j
  {
    if i < j {
      assert chosen[..j][..j - 1] == chosen[..j - 1];
      CoveredGrows(m, chosen, i, j - 1, supply);
    }
  }

  /** Exactly the last chosen bid reaches what is left to cover. */
  lemma OnlyLastReaches(s: State, a: AssetId, chosen: seq<BidKey>, i: nat)
    requires Biddable(s, a) && Chosen(s, a, chosen) && i < |chosen|
    ensures var supply := s.assets[a].supply;
      && DebtCovered(s.bids, chosen[..i + 1], supply) == DebtCovered(s.bids, chosen[..i], supply) + Share(s.bids[chosen[i]], supply)
      && (DebtCovered(s.bids, chosen[..i + 1], supply) >= supply <==> i == |chosen| - 1)
  {
    hide Passes;
    hide Outbids;
    hide DebtCovered;
    hide BidsValid;
    assert chosen[i] in chosen;
    PrefixReaches(s.bids, chosen, i, s.assets[a].supply);
  }

  lemma PrefixReaches(m: map<BidKey, Bid>, chosen: seq<BidKey>, i: nat, supply: nat)
    requires i < |chosen| && chosen[i] in m
    requires DebtCovered(m, chosen, supply) >= supply && DebtCovered(m, chosen[..|chosen| - 1], supply) < supply
    ensures DebtCovered(m, chosen[..i + 1], supply) == DebtCovered(m, chosen[..i], supply) + Share(m[chosen[i]], supply)
    ensures DebtCovered(m, chosen[..i + 1], supply) >= supply <==> i == |chosen| - 1
  {
    assert chosen[..i + 1][..i] == chosen[..i];
    if i == |chosen| - 1 {
      assert chosen[..i + 1] == chosen;
    } else {
      CoveredGrows(m, chosen, i + 1, |chosen| - 1, supply);
    }
  }

  /** The fund has enough for every bid in turn. */
  lemma FundSuffices(b: Bid, supply: nat, st: Settlement, toCover: nat, remaining: nat)
    requires st.price.base.amount > 0 && b.debt.amount > 0 && 0 < toCover <= supply
    requires toCover * st.price.quote.amount <= remaining * st.price.base.amount
    ensures var debt := Share(b, supply);
      var part := FromFund(debt, st);
      if debt >= toCover then Funded(b, NewPosition(b, toCover, remaining), supply, st)
      else
        && part <= remaining && Funded(b, NewPosition(b, debt, part), supply, st)
        && (toCover - debt) * st.price.quote.amount <= (remaining - part) * st.price.base.amount
  {
    var debt := Share(b, supply);
    var part := FromFund(debt, st);
    var s0, f0 := st.price.base.amount, st.price.quote.amount;
    FloorIsGreatest(debt, f0, s0, part);
    if debt >= toCover {
      var least := FromFund(toCover, st);
      FloorIsGreatest(toCover, f0, s0, least);
      ProductLess(remaining, least, s0);
      LastIsFunded(b.collateral.amount, debt, part, toCover, remaining, s0, f0);
    } else {
      ProductMonotone(debt, toCover, f0);
      ProductLess(remaining, part, s0);
      RestSolvent(toCover, remaining, s0, f0, debt, part);
    }
  }

  lemma NonePlanned(s: State, a: AssetId, chosen: seq<BidKey>)
    requires Biddable(s, a) && (chosen != [] ==> s.assets[a].supply > 0) && forall k <- chosen :: k in s.bids
    ensures AsPlanned(s, s.calls, a, chosen, 0)
    ensures chosen != [] ==> FundUsed(s.bids, chosen[..0], s.assets[a].supply, s.assets[a].bitasset.value.settlement.value) == 0
    ensures DebtCovered(s.bids, chosen[..0], s.assets[a].supply) == 0 && DebtCovered(s.bids, [], s.assets[a].supply) == 0
  {
  }

  /** What the second pass gives the bids is what the plan says. */
  lemma PlannedNext(s: State, a: AssetId, chosen: seq<BidKey>, i: nat, debt: nat, part: nat)
    requires Biddable(s, a) && s.assets[a].supply > 0 && i < |chosen| && chosen[i] in s.bids
    requires var d := s.assets[a];
      var st := d.bitasset.value.settlement.value;
      var toCover, remaining := d.supply - DebtCovered(s.bids, chosen[..i], d.supply), d.Fund() - FundUsed(s.bids, chosen[..i], d.supply, st);
      var share := Share(s.bids[chosen[i]], d.supply);
      && toCover > 0 && remaining >= 0
      && (share >= toCover <==> i == |chosen| - 1)
      && (if share >= toCover then debt == toCover && part == remaining else debt == share && part == FromFund(share, st))
    ensures NewPosition(s.bids[chosen[i]], debt, part) == Plan(s, a, chosen, i)
    ensures i < |chosen| - 1 ==>
      FundUsed(s.bids, chosen[..i + 1], s.assets[a].supply, s.assets[a].bitasset.value.settlement.value)
      == FundUsed(s.bids, chosen[..i], s.assets[a].supply, s.assets[a].bitasset.value.settlement.value) + part
  {
    hide FromFund;
    assert chosen[..i + 1][..i] == chosen[..i];
  }

  /// The second pass of process_bids.
  method ExecuteBids(db: Database, a: AssetId, chosen: seq<BidKey>)
    requires Biddable(db.s, a) && Chosen(db.s, a, chosen) && (forall k <- db.s.calls :: k.1 != a)
    requires Solvent(a, db.s.assets[a].supply, BackingOf(db.s, a), db.s.assets[a].bitasset.value.settlement.value)
    modifies db
    ensures Executed(old(db.s), db.s, a, chosen, |chosen|) && (chosen != [] ==> old(db.s).assets[a].supply > 0)
    ensures (forall k <- chosen :: k in old(db.s).bids) && AsPlanned(old(db.s), db.s.calls, a, chosen, |chosen|)
    ensures Moves(old(db.s), db.s, BackingOf(old(db.s), a), old(db.s).assets[a].Fund())
    ensures forall x: AssetId :: DebtGap(db.s, x) == DebtGap(old(db.s), x) + if x == a then old(db.s).assets[a].supply else 0
  {
    hide Gap;
    hide DebtGap;
    hide Passes;
    hide Outbids;
    hide Executed;
    hide Funded;
    hide FromFund;
    hide Selection;
    hide BidsValid;
    hide AsPlanned;
    hide Plan;
    hide FundUsed;
    hide DebtCovered;
    hide Share;
    ghost var s0 := db.s;
    SelectionKeys(s0, a, chosen);
    NonePlanned(s0, a, chosen);
    var d := db.s.assets[a];
    var st := d.bitasset.value.settlement.value;
    var toCover: nat, remaining: nat := d.supply, d.Fund();
    NoneExecuted(s0, a, chosen);
    for i := 0 to |chosen|
      invariant Executed(s0, db.s, a, chosen, i)
      invariant i < |chosen| ==> toCover == d.supply - DebtCovered(s0.bids, chosen[..i], d.supply) && toCover > 0
      invariant i == |chosen| ==> toCover == 0
      invariant AsPlanned(s0, db.s.calls, a, chosen, i)
      invariant i < |chosen| ==> remaining + FundUsed(s0.bids, chosen[..i], d.supply, st) == d.Fund()
      invariant toCover <= d.supply && remaining <= d.Fund()
      invariant toCover * st.price.quote.amount <= remaining * st.price.base.amount && (toCover == 0 ==> remaining == 0)
      invariant forall x: AssetId :: Gap(db.s, x) == Gap(s0, x) + if x == BackingOf(s0, a) then d.Fund() - remaining else 0
      invariant forall x: AssetId :: DebtGap(db.s, x) == DebtGap(s0, x) + if x == a then d.supply - toCover else 0
    {
      var k := chosen[i];
      assert 0 < d.supply <= st.price.base.amount;
      NextBid(s0, db.s, a, chosen, i);
      OnlyLastReaches(s0, a, chosen, i);
      FundSuffices(db.s.bids[k], d.supply, st, toCover, remaining);
      var debt := Share(db.s.bids[k], d.supply);
      var part := FromFund(debt, st);
      if debt >= toCover {
        debt, part := toCover, remaining;
        assert 0 * st.price.quote.amount == 0;
      }
      PlannedNext(s0, a, chosen, i, debt, part);
      PlanOne(s0, db.s.calls, a, chosen, i, NewPosition(s0.bids[k], debt, part));
      ExecuteOne(s0, db.s, a, chosen, i, debt, part);
      forall x: AssetId { ExecuteMoves(db.s, k, debt, part, x); }
      toCover, remaining := toCover - debt, remaining - part;
      db.s := Execute(db.s, k, debt, part);
    }
  }

  // ------------------------------------------------------------------
  // Back to life

  function OtherBids(m: map<BidKey, Bid>, a: AssetId): map<BidKey, Bid> {
    map k <- m | k.0 != a :: m[k]
  }

  function Unsettled(d: AssetData): AssetData
    requires d.bitasset.Some?
  {
    d.(bitasset := Some(d.bitasset.value.(settlement := None)))
  }

  /// No position of the asset is in margin call territory.
  ghost predicate NoneCalled(s: State, m: Calls, a: AssetId) {
    s.MarketIssued(a) && s.assets[a].bitasset.value.feed.Some? ==>
      var feed := s.assets[a].bitasset.value.feed.value;
      feed.price.Valid() && feed.mcr > 0 && forall k <- m :: k.1 == a ==> !Called(feed, m[k])
  }

  /// Settled asset `a` has positions again, for exactly its supply, paid for by the fund
  /// and by bids; the other bids have been returned.
  ghost predicate Revives(s: State, t: State, a: AssetId) {
    && s.Settled(a)
    && t == s.(balances := t.balances, assets := s.assets[a := Unsettled(s.assets[a])], calls := t.calls,
               bids := OtherBids(s.bids, a), revived := t.revived)
    && t.revived - {a} == s.revived - {a} && (a !in t.revived ==> NoneCalled(s, t.calls, a))
    && (forall k <- s.calls :: k in t.calls && t.calls[k] == s.calls[k])
    && (forall k <- t.calls :: k in s.calls || (k.1 == a && t.calls[k].borrower == k.0 && t.calls[k].debt.id == a
          && t.calls[k].debt.amount > 0 && t.calls[k].collateral.id == BackingOf(s, a)))
    && SameGaps(s, t)
    && (forall x: AssetId :: DebtGap(t, x) == DebtGap(s, x) + if x == a then s.Supply(a) else 0)
  }

  lemma RevivesElsewhere(s: State, t: State, a: AssetId)
    requires Revives(s, t, a)
    ensures forall b <- s.assets :: b != a ==> t.assets[b].bitasset == s.assets[b].bitasset
    ensures forall b <- s.assets :: t.assets[b].maxSupply == s.assets[b].maxSupply && t.assets[b].feePercent == s.assets[b].feePercent
    ensures forall b :: t.Supply(b) == s.Supply(b) && t.MarketIssued(b) == s.MarketIssued(b)
    ensures t.assets[a].bitasset == Unsettled(s.assets[a]).bitasset
  {
  }

  lemma RevivedAssets(s: State, t: State, a: AssetId)
    requires AssetsValid(s) && Revives(s, t, a)
    ensures AssetsValid(t)
  {
    hide SameGaps;
    hide DebtGap;
    RevivesElsewhere(s, t, a);
    forall b <- t.assets ensures AssetValid(b, t.assets[b], t.assets.Keys) {
      assert AssetValid(b, s.assets[b], s.assets.Keys);
      assert t.Supply(b) == s.Supply(b);
    }
  }

  lemma NoPositions(s: State, a: AssetId)
    requires CallsValid(s) && s.Settled(a)
    ensures forall k <- s.calls :: k.1 != a
    ensures DebtGap(s, a) == 0 - s.Supply(a)
  {
    assert forall k <- s.calls :: CallValid(s, k, s.calls[k]);
    SumOfZeros(s.calls, DebtIn(a));
  }

  lemma RevivedBacked(s: State, t: State, a: AssetId)
    requires Backed(s) && CallsValid(s) && Revives(s, t, a)
    ensures Backed(t)
  {
    hide SameGaps;
    hide DebtGap;
    RevivesElsewhere(s, t, a);
    NoPositions(s, a);
    forall b: AssetId | t.MarketIssued(b) && !t.Settled(b) ensures DebtGap(t, b) == 0 {
      if b != a {
        assert t.assets[b].bitasset == s.assets[b].bitasset;
      }
    }
  }

  lemma RevivedCalls(s: State, t: State, a: AssetId)
    requires CallsValid(s) && Revives(s, t, a) && Conserved(t) && Backed(t) && AssetsValid(t)
    ensures CallsValid(t)
  {
    hide SameGaps;
    hide DebtGap;
    hide Gap;
    RevivesElsewhere(s, t, a);
    forall k <- t.calls ensures t.calls[k].debt.id == k.1 {
      if k in s.calls { assert CallValid(s, k, s.calls[k]); }
    }
    forall k <- t.calls ensures CallValid(t, k, t.calls[k]) {
      if k in s.calls {
        assert CallValid(s, k, s.calls[k]);
      } else {
        NewPositionValid(t, k);
      }
    }
  }

  lemma RevivedMet(s: State, t: State, a: AssetId)
    requires AllMet(s, {}) && Revives(s, t, a) && FeedsValid(t)
    ensures AllMet(t, {})
  {
    hide SameGaps;
    hide DebtGap;
    hide Called;
    hide Squeezes;
    RevivesElsewhere(s, t, a);
    forall b ensures NoneCallable(t, b, {}) {
      if b != a {
        assert NoneCallable(s, b, {});
        assert b in t.revived - {a} <==> b in s.revived - {a};
      }
    }
  }

  /** Revival keeps the invariant. */
  lemma RevivesKeepsInv(s: State, t: State, a: AssetId)
    requires Inv(s) && Revives(s, t, a)
    ensures Inv(t)
  {
    hide Gap;
    hide DebtGap;
    hide NoneCallable;
    hide AssetValid;
    hide CallValid;
    hide BookSound;
    RevivesElsewhere(s, t, a);
    RevivedAssets(s, t, a);
    RevivedBacked(s, t, a);
    RevivedCalls(s, t, a);
    SoundFeeds(t);
    RevivedMet(s, t, a);
    BookUnchanged(s, t);
  }

  lemma BidReturned(s: State, t: State, k: BidKey)
    requires k in s.bids && MoneyOnly(s, t) && Moves(s, t, s.bids[k].collateral.id, s.bids[k].collateral.amount)
    ensures SameGaps(s, t.(bids := t.bids - {k}))
  {
    hide Gap;
    forall x: AssetId ensures Gap(t.(bids := t.bids - {k}), x) == Gap(s, x) {
      BidGap(t, k, t.bids[k], x);
    }
  }

  /// Only balances and bids differ.
  ghost predicate OnlyBids(s: State, t: State) {
    t == s.(balances := t.balances, bids := t.bids)
  }

  /// The collateral an account has in a bid.
  function Deposit(s: State, k: BidKey, w: Account, x: AssetId): nat {
    if k in s.bids && s.bids[k].bidder == w then Part(s.bids[k].collateral, x) else 0
  }

  /// Every bidder for `a` has the collateral back.
  ghost predicate BidsReturned(s: State, t: State, a: AssetId) {
    forall w: Account, x: AssetId ::
      t.Balance(w, x) == s.Balance(w, x) + if (a, w) in t.bids then 0 else Deposit(s, (a, w), w, x)
  }

  lemma ReturnOne(s: State, t: State, u: State, a: AssetId, k: BidKey)
    requires BidsReturned(s, t, a) && k in t.bids && k in s.bids && t.bids[k] == s.bids[k] && k == (a, s.bids[k].bidder)
    requires u.bids == t.bids - {k}
    requires u.balances == Adjusted(t.balances, s.bids[k].bidder, s.bids[k].collateral.id, s.bids[k].collateral.amount)
    ensures BidsReturned(s, u, a)
  {
    forall w: Account, x: AssetId
      ensures u.Balance(w, x) == s.Balance(w, x) + if (a, w) in u.bids then 0 else Deposit(s, (a, w), w, x)
    {
      assert t.Balance(w, x) == s.Balance(w, x) + if (a, w) in t.bids then 0 else Deposit(s, (a, w), w, x);
      if w != k.1 { assert (a, w) in u.bids <==> (a, w) in t.bids; }
    }
  }

  /// cancel_bid
  method CancelBid(db: Database, k: BidKey)
    requires k in db.s.bids
    modifies db
    ensures OnlyBids(old(db.s), db.s) && SameGaps(old(db.s), db.s) && db.s.bids == old(db.s).bids - {k}
    ensures db.s.balances == Adjusted(old(db.s).balances, old(db.s).bids[k].bidder,
                                      old(db.s).bids[k].collateral.id, old(db.s).bids[k].collateral.amount)
  {
    hide Gap;
    hide SameCore;
    ghost var s0 := db.s;
    var b := db.s.bids[k];
    var ok := db.AdjustBalance(b.bidder, b.collateral.id, b.collateral.amount);
    ghost var s1 := db.s;
    BidReturned(s0, s1, k);
    db.s := db.s.(bids := db.s.bids - {k});
  }

  lemma OnlyBidsTransitive(s: State, t: State, u: State)
    requires OnlyBids(s, t) && OnlyBids(t, u)
    ensures OnlyBids(s, u)
  {
  }

  /// The first half of _cancel_bids_and_revive_mpa.
  method CancelBids(db: Database, a: AssetId)
    requires forall k <- db.s.bids :: k.1 == db.s.bids[k].bidder
    modifies db
    ensures forall w: Account, x: AssetId :: db.s.Balance(w, x) == old(db.s).Balance(w, x) + Deposit(old(db.s), (a, w), w, x)
    ensures OnlyBids(old(db.s), db.s) && SameGaps(old(db.s), db.s) && db.s.bids == OtherBids(old(db.s).bids, a)
  {
    hide Gap;
    hide SameCore;
    hide Adjusted;
    hide OnlyBids;
    ghost var s0 := db.s;
    UntouchedBids(s0);
    assert BidsReturned(s0, s0, a);
    hide BidsReturned;
    while exists k <- db.s.bids :: k.0 == a
      invariant BidsReturned(s0, db.s, a)
      invariant OnlyBids(s0, db.s) && SameGaps(s0, db.s)
      invariant forall k <- db.s.bids :: k in s0.bids && db.s.bids[k] == s0.bids[k]
      invariant forall k <- s0.bids :: k.0 != a ==> k in db.s.bids
      decreases |db.s.bids|
    {
      var k :| k in db.s.bids && k.0 == a;
      ghost var s1 := db.s;
      CancelBid(db, k);
      ReturnOne(s0, s1, db.s, a, k);
      OnlyBidsTransitive(s0, s1, db.s);
      Smaller(s1.bids, k);
    }
    AllBidsReturned(s0, db.s, a);
  }

  lemma AllBidsReturned(s: State, t: State, a: AssetId)
    requires BidsReturned(s, t, a) && forall k <- t.bids :: k.0 != a
    ensures forall w: Account, x: AssetId :: t.Balance(w, x) == s.Balance(w, x) + Deposit(s, (a, w), w, x)
  {
  }

  lemma UntouchedBids(s: State)
    ensures OnlyBids(s, s)
  {
  }

  lemma FundSpent(s: State, a: AssetId, revived: set<AssetId>)
    requires s.Settled(a)
    ensures var t := SetAsset(s, a, Unsettled(s.assets[a])).(revived := revived);
      && Moves(s, t, s.assets[a].bitasset.value.backing, 0 - s.assets[a].Fund())
      && SameDebtGaps(s, t)
  {
    var d := s.assets[a];
    var u := SetAsset(s, a, Unsettled(d));
    var t := u.(revived := revived);
    SameBooks(u, t);
    forall x: AssetId
      ensures Gap(t, x) == Gap(s, x) + (if x == d.bitasset.value.backing then 0 - d.Fund() else 0) && DebtGap(t, x) == DebtGap(s, x)
    {
      SetAssetGap(s, a, Unsettled(d), x);
      assert Gap(t, x) == Gap(u, x);
    }
  }

  /// All that has to be true before the fund is dissolved: new positions hold it.
  ghost predicate Reborn(s: State, t: State, a: AssetId) {
    && s.Settled(a) && t == s.(calls := t.calls, bids := t.bids)
    && (forall k <- t.bids :: k in s.bids && t.bids[k] == s.bids[k])
    && (forall k <- s.bids :: k.0 != a ==> k in t.bids)
    && (forall k <- s.calls :: k in t.calls && t.calls[k] == s.calls[k])
    && (forall k <- t.calls :: k in s.calls || (k.1 == a && t.calls[k].borrower == k.0 && t.calls[k].debt.id == a
          && t.calls[k].debt.amount > 0 && t.calls[k].collateral.id == BackingOf(s, a)))
    && Moves(s, t, BackingOf(s, a), s.assets[a].Fund())
    && (forall x: AssetId :: DebtGap(t, x) == DebtGap(s, x) + if x == a then s.Supply(a) else 0)
  }

  lemma RebornBids(s: State, t: State, a: AssetId)
    requires Reborn(s, t, a) && Inv(s)
    ensures forall k <- t.bids :: k.1 == t.bids[k].bidder
  {
    hide Gap;
    hide DebtGap;
    hide AllMet;
  }

  lemma ReviveDone(s: State, t: State, u: State, v: State, a: AssetId)
    requires Reborn(s, t, a) && OnlyBids(t, u) && SameGaps(t, u) && u.bids == OtherBids(t.bids, a) && a in u.assets
    requires u.assets[a].bitasset == s.assets[a].bitasset
    requires v == SetAsset(u, a, Unsettled(u.assets[a])).(revived := v.revived) && v.revived - {a} == u.revived - {a}
    requires a !in v.revived ==> NoneCalled(s, t.calls, a)
    requires Moves(u, v, BackingOf(s, a), 0 - s.assets[a].Fund()) && SameDebtGaps(u, v) && SameDebtGaps(t, u)
    ensures Revives(s, v, a)
  {
    hide Gap;
    hide DebtGap;
    hide NoneCalled;
    assert v.bids == OtherBids(s.bids, a);
  }

  /// _cancel_bids_and_revive_mpa, once new positions hold the fund; `exposed` when some
  /// of them may be called.
  method FinishRevival(db: Database, a: AssetId, exposed: bool, ghost s: State)
    requires Reborn(s, db.s, a) && Inv(s) && (exposed || NoneCalled(s, db.s.calls, a))
    modifies db
    ensures Revives(s, db.s, a) && Inv(db.s) && db.s.calls == old(db.s).calls
    ensures a in db.s.revived <==> exposed
    ensures forall w: Account, x: AssetId :: db.s.Balance(w, x) == old(db.s).Balance(w, x) + Deposit(old(db.s), (a, w), w, x)
  {
    hide Gap;
    hide DebtGap;
    hide SameCore;
    hide Inv;
    hide Revives;
    hide NoneCalled;
    ghost var t := db.s;
    RebornBids(s, t, a);
    CancelBids(db, a);
    ghost var u := db.s;
    SameDebts(t, u);
    SameAsset(t, u, a);
    var revived := if exposed then db.s.revived + {a} else db.s.revived - {a};
    FundSpent(u, a, revived);
    db.s := SetAsset(db.s, a, Unsettled(db.s.assets[a])).(revived := revived);
    ReviveDone(s, t, u, db.s, a);
    RevivesKeepsInv(s, db.s, a);
  }

  lemma SameAsset(s: State, t: State, a: AssetId)
    requires SameCore(s, t) && a in s.assets
    ensures a in t.assets && t.assets[a].bitasset == s.assets[a].bitasset
  {
    assert s.assets[a].Core().bitasset == s.assets[a].bitasset && t.assets[a].Core().bitasset == t.assets[a].bitasset;
  }

  lemma InvBiddable(s: State, a: AssetId)
    requires Inv(s) && s.Settled(a) && s.assets[a].bitasset.value.feed.Some?
    ensures Biddable(s, a) && Solvent(a, s.assets[a].supply, BackingOf(s, a), s.assets[a].bitasset.value.settlement.value)
    ensures forall k <- s.calls :: k.1 != a
  {
    assert AssetValid(a, s.assets[a], s.assets.Keys);
    NoPositions(s, a);
  }

  lemma ExecutedIsReborn(s: State, t: State, a: AssetId, chosen: seq<BidKey>)
    requires Biddable(s, a) && Executed(s, t, a, chosen, |chosen|) && forall k <- chosen :: k.0 == a
    requires Moves(s, t, BackingOf(s, a), s.assets[a].Fund())
    requires forall x: AssetId :: DebtGap(t, x) == DebtGap(s, x) + if x == a then s.Supply(a) else 0
    ensures Reborn(s, t, a)
  {
    hide Gap;
    hide DebtGap;
    assert chosen[..|chosen|] == chosen;
  }

  /// Every position of the revived asset stands for a bid that passed the check; it is not
  /// called when the bid is above maintenance, as every exactly judged one is.
  ghost predicate FromBids(s: State, t: State, a: AssetId)
    requires Biddable(s, a)
  {
    var d := s.assets[a];
    var st, feed := d.bitasset.value.settlement.value, d.bitasset.value.feed.value;
    forall k <- t.calls :: k.1 == a ==>
      && (a, k.0) in s.bids && d.supply > 0
      && var b := s.bids[(a, k.0)];
         && Passes(b, d.supply, st, feed) && Funded(b, t.calls[k], d.supply, st) && FairShare(b, t.calls[k], d.supply, st.price)
         && (JudgedExactly(b, d.supply, st, feed) ==> Above(b, d.supply, st, feed))
         && (Above(b, d.supply, st, feed) ==> !Called(feed, t.calls[k]))
  }

  /// Some chosen bid will become a position that is called.
  predicate Exposing(s: State, a: AssetId, chosen: seq<BidKey>)
    requires Biddable(s, a) && (chosen != [] ==> s.assets[a].supply > 0) && forall k <- chosen :: k in s.bids
  {
    exists i :: 0 <= i < |chosen| && Called(s.assets[a].bitasset.value.feed.value, Plan(s, a, chosen, i))
  }

  /// The positions of the revived asset are exactly those planned for the chosen bids.
  ghost predicate Realized(s: State, t: State, a: AssetId, chosen: seq<BidKey>)
    requires Biddable(s, a)
  {
    && Chosen(s, a, chosen) && (chosen != [] ==> s.assets[a].supply > 0) && (forall k <- chosen :: k in s.bids)
    && AsPlanned(s, t.calls, a, chosen, |chosen|) && (forall k <- t.calls :: k.1 == a ==> (a, k.0) in chosen)
    && (forall i :: 0 <= i < |chosen| - 1 ==>
         WholeFairShare(s.bids[chosen[i]], t.calls[(chosen[i].1, a)], s.assets[a].supply, s.assets[a].bitasset.value.settlement.value.price))
  }

  lemma PlanRealized(s: State, t: State, a: AssetId, chosen: seq<BidKey>)
    requires Biddable(s, a) && Chosen(s, a, chosen) && (chosen != [] ==> s.assets[a].supply > 0) && (forall k <- chosen :: k in s.bids)
    requires Executed(s, t, a, chosen, |chosen|) && AsPlanned(s, t.calls, a, chosen, |chosen|) && forall k <- s.calls :: k.1 != a
    ensures Realized(s, t, a, chosen)
  {
    hide Selection;
    hide AsPlanned;
    hide Funded;
    hide WholeFairShare;
    assert chosen[..|chosen|] == chosen;
    forall i | 0 <= i < |chosen| - 1
      ensures (chosen[i].1, a) in t.calls
      ensures WholeFairShare(s.bids[chosen[i]], t.calls[(chosen[i].1, a)], s.assets[a].supply, s.assets[a].bitasset.value.settlement.value.price)
    {
      PlannedIsFair(s, t.calls, a, chosen, i);
    }
  }

  lemma PlannedIsFair(s: State, m: Calls, a: AssetId, chosen: seq<BidKey>, i: nat)
    requires Biddable(s, a) && s.assets[a].supply > 0 && (forall k <- chosen :: k in s.bids) && i < |chosen| - 1
    requires AsPlanned(s, m, a, chosen, |chosen|)
    ensures (chosen[i].1, a) in m
    ensures WholeFairShare(s.bids[chosen[i]], m[(chosen[i].1, a)], s.assets[a].supply, s.assets[a].bitasset.value.settlement.value.price)
  {
    hide WholeFairShare;
    hide WholeShare;
    WholeShareIsFair(s.bids[chosen[i]], s.assets[a].supply, s.assets[a].bitasset.value.settlement.value);
  }

  /** Whether a position of the revived asset is called is known from the plan. */
  lemma CalledAsPlanned(s: State, t: State, a: AssetId, chosen: seq<BidKey>)
    requires Biddable(s, a) && Realized(s, t, a, chosen) && forall k <- chosen :: k.0 == a
    ensures Exposing(s, a, chosen) <==> !NoneCalled(s, t.calls, a)
  {
    hide Plan;
    hide Chosen;
    hide Called;
    var feed := s.assets[a].bitasset.value.feed.value;
    if Exposing(s, a, chosen) {
      var i :| 0 <= i < |chosen| && Called(feed, Plan(s, a, chosen, i));
      assert (chosen[i].1, a) in t.calls;
    }
    if !NoneCalled(s, t.calls, a) {
      var k :| k in t.calls && k.1 == a && Called(feed, t.calls[k]);
      var i :| 0 <= i < |chosen| && chosen[i] == (a, k.0);
      assert t.calls[(chosen[i].1, a)] == Plan(s, a, chosen, i);
    }
  }

  lemma PassedIsAbove(b: Bid, c: CallOrder, supply: nat, st: Settlement, feed: Feed)
    requires st.price.base.amount > 0 && supply > 0 && b.debt.amount > 0 && b.collateral.amount > 0
    requires feed.price.Valid() && feed.mcr > 0 && Passes(b, supply, st, feed) && Funded(b, c, supply, st)
    ensures JudgedExactly(b, supply, st, feed) ==> Above(b, supply, st, feed)
    ensures Above(b, supply, st, feed) ==> !Called(feed, c)
    ensures FairShare(b, c, supply, st.price)
  {
    hide Passes;
    hide Funded;
    hide FairShare;
    FundedIsFair(b, c, supply, st);
    hide JudgedExactly;
    hide Above;
    hide Called;
    if JudgedExactly(b, supply, st, feed) { ExactlyJudged(b, supply, st, feed); }
    if Above(b, supply, st, feed) { AboveIsNotCalled(b, c, supply, st, feed); }
  }

  lemma ExecutedFromBids(s: State, t: State, a: AssetId, chosen: seq<BidKey>)
    requires Biddable(s, a) && Executed(s, t, a, chosen, |chosen|) && Selection(s, a, chosen) && forall k <- s.calls :: k.1 != a
    ensures FromBids(s, t, a)
  {
    hide Passes;
    hide Outbids;
    hide Funded;
    hide Above;
    hide JudgedExactly;
    hide Called;
    hide FairShare;
    assert chosen[..|chosen|] == chosen;
    var d := s.assets[a];
    forall k <- t.calls | k.1 == a
      ensures (a, k.0) in s.bids && d.supply > 0
      ensures Passes(s.bids[(a, k.0)], d.supply, d.bitasset.value.settlement.value, d.bitasset.value.feed.value)
      ensures Funded(s.bids[(a, k.0)], t.calls[k], d.supply, d.bitasset.value.settlement.value)
    {
      assert (a, k.0) in chosen;
    }
    forall k <- t.calls | k.1 == a {
      PassedIsAbove(s.bids[(a, k.0)], t.calls[k], d.supply, d.bitasset.value.settlement.value, d.bitasset.value.feed.value);
    }
  }

  /// Whoever has no position for a bid has the collateral back.
  ghost predicate RestReturned(s: State, t: State, a: AssetId) {
    forall w: Account, x: AssetId ::
      t.Balance(w, x) == s.Balance(w, x) + if (w, a) in t.calls then 0 else Deposit(s, (a, w), w, x)
  }

  lemma RestIsReturned(s: State, t: State, u: State, a: AssetId, chosen: seq<BidKey>)
    requires Biddable(s, a) && Executed(s, t, a, chosen, |chosen|) && (forall k <- s.calls :: k.1 != a) && u.calls == t.calls
    requires forall w: Account, x: AssetId :: u.Balance(w, x) == t.Balance(w, x) + Deposit(t, (a, w), w, x)
    ensures RestReturned(s, u, a)
  {
    hide Funded;
    assert chosen[..|chosen|] == chosen;
    forall w: Account, x: AssetId
      ensures u.Balance(w, x) == s.Balance(w, x) + if (w, a) in u.calls then 0 else Deposit(s, (a, w), w, x)
    {
      assert (a, w) in t.bids <==> (a, w) in s.bids && (a, w) !in chosen;
      assert (w, a) in t.calls ==> (a, w) in chosen;
      assert t.Balance(w, x) == s.Balance(w, x);
      if (a, w) in chosen { assert (w, a) in t.calls; }
    }
  }

  lemma FinishedFromBids(s: State, t: State, u: State, a: AssetId)
    requires Biddable(s, a) && FromBids(s, t, a) && u.calls == t.calls
    ensures FromBids(s, u, a)
  {
    hide Passes;
    hide Funded;
    hide Above;
    hide JudgedExactly;
    hide Called;
  }

  /// The asset is back, in the positions planned for the chosen bids; it is marked exactly
  /// when one of them is called, and the other bids are returned.
  ghost predicate BidsApplied(s: State, t: State, a: AssetId) {
    && Biddable(s, a) && Revives(s, t, a) && FromBids(s, t, a) && RestReturned(s, t, a)
    && (exists chosen :: Realized(s, t, a, chosen)) && (a in t.revived <==> !NoneCalled(s, t.calls, a))
  }

  /// There is no feed to judge bids by, or they do not suffice.
  ghost predicate NothingToRevive(s: State, a: AssetId)
    requires s.Settled(a)
  {
    var b := s.assets[a].bitasset.value;
    b.predictionMarket || b.feed.None? || (Biddable(s, a) && exists chosen :: Insufficient(s, a, chosen))
  }

  lemma StaysRealized(s: State, t: State, u: State, a: AssetId, chosen: seq<BidKey>)
    requires Biddable(s, a) && Realized(s, t, a, chosen) && u.calls == t.calls
    ensures Realized(s, u, a, chosen) && NoneCalled(s, u.calls, a) == NoneCalled(s, t.calls, a)
  {
    hide Chosen;
    hide AsPlanned;
  }

  /// process_bids.  Fails, as multiplying by the settlement price does, only when
  /// nothing was ever gathered.
  method ProcessBids(db: Database, a: AssetId) returns (ok: bool)
    requires Inv(db.s) && db.s.Settled(a)
    modifies db
    ensures Inv(db.s)
    ensures !ok ==> db.s == old(db.s)
    ensures !ok <==>
      var b := old(db.s).assets[a].bitasset.value;
      !b.predictionMarket && b.feed.Some? && b.settlement.value.price.quote.amount == 0
    ensures db.s != old(db.s) ==> BidsApplied(old(db.s), db.s, a)
    ensures ok && db.s == old(db.s) ==> NothingToRevive(old(db.s), a)
  {
    hide Gap;
    hide DebtGap;
    hide Inv;
    hide Revives;
    hide Executed;
    hide Selection;
    hide FromBids;
    hide Insufficient;
    hide BidsValid;
    hide Reborn;
    hide NoneCalled;
    hide Exposing;
    hide AsPlanned;
    hide Realized;
    hide RestReturned;
    var b := db.s.assets[a].bitasset.value;
    if b.predictionMarket || b.feed.None? {
      return true;
    }
    if b.settlement.value.price.quote.amount == 0 {
      return false;
    }
    ghost var s := db.s;
    InvBiddable(s, a);
    var chosen := ChooseBids(db.s, a);
    if chosen.None? {
      return true;
    }
    SelectionKeys(s, a, chosen.value);
    var exposed := Exposing(db.s, a, chosen.value);
    ExecuteBids(db, a, chosen.value);
    ExecutedIsReborn(s, db.s, a, chosen.value);
    ExecutedFromBids(s, db.s, a, chosen.value);
    PlanRealized(s, db.s, a, chosen.value);
    CalledAsPlanned(s, db.s, a, chosen.value);
    ghost var t := db.s;
    FinishRevival(db, a, exposed, s);
    FinishedFromBids(s, t, db.s, a);
    StaysRealized(s, t, db.s, a, chosen.value);
    RestIsReturned(s, t, db.s, a, chosen.value);
    StillSettled(s, db.s, a);
    return true;
  }

  lemma SelectionKeys(s: State, a: AssetId, chosen: seq<BidKey>)
    requires Biddable(s, a) && Selection(s, a, chosen)
    ensures forall k <- chosen :: k.0 == a && k in s.bids
    ensures chosen != [] ==> s.assets[a].supply > 0
  {
  }

  lemma StillSettled(s: State, t: State, a: AssetId)
    requires Revives(s, t, a)
    ensures s != t
  {
    RevivesElsewhere(s, t, a);
  }
}
