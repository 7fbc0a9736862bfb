/** Price feeds: what a change of the median feed sets off (asset_publish_feeds in
    asset_evaluator.cpp), and collateral bids (bid_collateral in market_evaluator.cpp). */
module Feeds {
  import opened Options
  import opened Prices
  import opened Sums
  import opened MarginCall
  import opened MarketState
  import opened MarketDatabase
  import opened OrderBook
  import opened Positions
  import opened Matching
  import opened Orders
  import opened GlobalSettlement
  import opened MarketInvariant
  import opened BitassetChanges
  import opened MarginCalls
  import opened MarketOperations
  import opened Settlements
  import opened Revival

  // ------------------------------------------------------------------
  // Revival out of the fund alone

  lemma FundTakenOver(s: State, t: State, a: AssetId, who: Account)
    requires Inv(s) && s.Settled(a) && s.assets[a].supply > 0
    requires t == s.(calls := s.calls[(who, a) :=
      CallOrder(who, Asset(s.assets[a].Fund(), BackingOf(s, a)), Asset(s.assets[a].supply, a), None)])
    ensures Reborn(s, t, a)
  {
    hide Gap;
    hide DebtGap;
    hide AllMet;
    hide BookSound;
    hide AssetsValid;
    hide BidsValid;
    NoPositions(s, a);
    forall x: AssetId
      ensures Gap(t, x) == Gap(s, x) + (if x == BackingOf(s, a) then s.assets[a].Fund() else 0)
      ensures DebtGap(t, x) == DebtGap(s, x) + (if x == a then s.Supply(a) else 0)
    {
      CallGap(s, (who, a), t.calls[(who, a)], x);
    }
  }

  lemma NothingToTakeOver(s: State, a: AssetId)
    requires Inv(s) && s.Settled(a) && s.assets[a].supply == 0
    ensures Reborn(s, s, a)
  {
    hide Gap;
    hide DebtGap;
    assert AssetValid(a, s.assets[a], s.assets.Keys);
    assert s.assets[a].Fund() == 0 && s.Supply(a) == 0;
    assert Moves(s, s, BackingOf(s, a), 0);
  }

  /// revive_bitasset: the issuer takes over all debt and the whole fund.
  method Revive(db: Database, a: AssetId, issuer: Account)
    requires Inv(db.s) && db.s.Settled(a)
    modifies db
    ensures Inv(db.s) && Revives(old(db.s), db.s, a)
    ensures forall k <- db.s.calls :: k.1 == a ==> k.0 == issuer && db.s.calls[k].targetRatio.None?
    ensures forall w: Account, x: AssetId :: db.s.Balance(w, x) == old(db.s).Balance(w, x) + Deposit(old(db.s), (a, w), w, x)
    ensures old(db.s).assets[a].supply > 0 ==>
      && (issuer, a) in db.s.calls
      && db.s.calls[(issuer, a)].debt.amount == old(db.s).assets[a].supply
      && db.s.calls[(issuer, a)].collateral.amount == old(db.s).assets[a].Fund()
  {
    hide Gap;
    hide DebtGap;
    hide Inv;
    hide Revives;
    hide Reborn;
    ghost var s := db.s;
    var d := db.s.assets[a];
    InvNoPositions(s, a);
    if d.supply > 0 {
      db.s := db.s.(calls := db.s.calls[(issuer, a) :=
        CallOrder(issuer, Asset(d.Fund(), d.bitasset.value.backing), Asset(d.supply, a), None)]);
      FundTakenOver(s, db.s, a, issuer);
    } else {
      NothingToTakeOver(s, a);
    }
    FinishRevival(db, a, true, s);
  }

  lemma InvNoPositions(s: State, a: AssetId)
    requires Inv(s) && s.Settled(a)
    ensures forall k <- s.calls :: k.1 != a
  {
    NoPositions(s, a);
  }

  // ------------------------------------------------------------------
  // A new median feed

  function WithFeed(s: State, a: AssetId, feed: Option<Feed>): State
    requires s.MarketIssued(a)
  {
    WithBitasset(s, a, s.assets[a].bitasset.value.(feed := feed))
  }

  /// The fund alone would be above the maintenance ratio.
  predicate ShouldRevive(s: State, a: AssetId)
    requires s.Settled(a)
  {
    var d := s.assets[a];
    var b := d.bitasset.value;
    b.feed.Some? && b.feed.value.price.Valid() && b.feed.value.mcr > 0 &&
    (d.supply == 0 || Less(b.feed.value.Maintenance(), Price(Asset(d.Fund(), b.backing), Asset(d.supply, a))))
  }

  /** In plain amounts, where the ratio is not approximated: an asset is revived when nothing is
      owed or the fund is worth more than `mcr` thousandths of what is. */
  lemma ShouldReviveMeans(s: State, a: AssetId)
    requires s.Settled(a) && s.assets[a].bitasset.value.feed.Some?
    requires var f := s.assets[a].bitasset.value.feed.value;
      f.price.Valid() && f.mcr > 0 && f.mssr > 0 && ScalesExactly(f.price.Inverse(), f.mcr, RATIO_DENOM)
    ensures var d := s.assets[a];
      var f := d.bitasset.value.feed.value;
      ShouldRevive(s, a) <==>
        || d.supply == 0
        || (f.price.quote.amount * f.mcr) * d.supply < d.Fund() * (f.price.base.amount * RATIO_DENOM)
  {
    hide Scale;
    hide ScalesExactly;
    var d := s.assets[a];
    var f := d.bitasset.value.feed.value;
    FeedRatios(f);
    if d.supply > 0 {
      SameComparison(f.Maintenance().base.amount, f.Maintenance().quote.amount,
                     f.price.quote.amount * f.mcr, f.price.base.amount * RATIO_DENOM, d.Fund(), d.supply);
    }
  }

  /// All debt and the whole fund are one position of the issuer, and all bids returned.
  ghost predicate TakenOver(s: State, t: State, a: AssetId, issuer: Account)
    requires s.Settled(a)
  {
    && (forall k <- t.calls :: k.1 == a ==> k.0 == issuer)
    && (s.assets[a].supply > 0 ==>
      && (issuer, a) in t.calls
      && t.calls[(issuer, a)].debt.amount == s.assets[a].supply && t.calls[(issuer, a)].collateral.amount == s.assets[a].Fund())
    && forall w: Account, x: AssetId :: t.Balance(w, x) == s.Balance(w, x) + Deposit(s, (a, w), w, x)
  }

  /// The new feed is in place, and a settled asset whose fund is worth enough has become
  /// one position of the issuer.
  ghost predicate Published(s: State, t: State, a: AssetId, feed: Option<Feed>, issuer: Account) {
    && s.MarketIssued(a)
    && var u := WithFeed(s, a, feed);
       if u.Settled(a) && ShouldRevive(u, a) then Revives(u, t, a) && TakenOver(u, t, a, issuer) else t == u
  }

  /// The checks of the evaluator.
  predicate MayPublish(s: State, a: AssetId, feed: Option<Feed>) {
    && s.MarketIssued(a) && (feed.Some? ==> feed.value.Valid(a, BackingOf(s, a)))
    && !(s.assets[a].bitasset.value.predictionMarket && s.Settled(a))
  }

  /// A new feed has been published and margin calls made; the old one changes nothing.
  ghost predicate FeedChanged(s: State, t: State, a: AssetId, feed: Option<Feed>, issuer: Account) {
    && s.MarketIssued(a)
    && if s.assets[a].bitasset.value.feed == feed then t == s
       else a !in t.revived && exists u :: Published(s, u, a, feed, issuer) && CallsMade(Watched(u, a), t, a)
  }

  /// The median feed of an asset changes: a settled asset whose fund is worth enough is
  /// revived, and margin calls are made.
  method ChangeFeed(db: Database, a: AssetId, feed: Option<Feed>, issuer: Account) returns (r: Result)
    requires Inv(db.s)
    modifies db
    ensures r.Accepted? ==> Inv(db.s) && old(db.s).MarketIssued(a)
    ensures !r.Accepted? ==> db.s == old(db.s)
    ensures r.Accepted? ==> FeedChanged(old(db.s), db.s, a, feed, issuer)
    ensures r.Accepted? ==> MayPublish(old(db.s), a, feed)
    ensures r.Rejected? && MayPublish(old(db.s), a, feed) ==> exists t, u ::
      Published(old(db.s), t, a, feed, issuer) && Trading(Watched(t, a), u, a) && CallsThrow(db, u, a, true)
    ensures r.Hangs? ==> old(db.s).MarketIssued(a) && Inexact(WithFeed(old(db.s), a, feed), a)
    ensures r.Hangs? ==> exists t, u ::
      Published(old(db.s), t, a, feed, issuer) && Trading(Watched(t, a), u, a) && JamsAtOrder(u, a)
  {
    hide JamsAtOrder;
    hide CallsMade;
    hide Gap;
    hide DebtGap;
    hide Inv;
    hide Sound;
    hide MetBut;
    hide Revives;
    hide Trading;
    hide Inexact;
    hide ShouldRevive;
    hide CallsThrow;
    if !db.s.MarketIssued(a) || (feed.Some? && !feed.value.Valid(a, db.s.assets[a].bitasset.value.backing))
      || (db.s.assets[a].bitasset.value.predictionMarket && db.s.Settled(a))
    {
      return Rejected;
    }
    if db.s.assets[a].bitasset.value.feed == feed {
      return Accepted;
    }
    var saved := db.s;
    BitassetIsSound(saved, a, saved.assets[a].bitasset.value.(feed := feed));
    db.s := WithBitasset(db.s, a, db.s.assets[a].bitasset.value.(feed := feed));
    if db.s.Settled(a) && ShouldRevive(db.s, a) {
      Revive(db, a, issuer);
      InvSplit(db.s, a);
      NoTargets(db.s, a);
    }
    ghost var t := db.s;
    assert Published(saved, t, a, feed, issuer);
    var m, called := CheckCallOrders(db, a, true);
    if m.Endless? {
      db.s := saved;
      return Hangs;
    }
    if m.Thrown? {
      db.s := saved;
      return Rejected;
    }
    return Accepted;
  }

  lemma NoTargets(s: State, a: AssetId)
    requires forall k <- s.calls :: k.1 == a ==> s.calls[k].targetRatio.None?
    ensures !Inexact(s, a)
  {
  }

  lemma InvSplit(s: State, a: AssetId)
    requires Inv(s)
    ensures Sound(s) && MetBut(s, a)
  {
  }

  // ------------------------------------------------------------------
  // Bids

  lemma BidsKeepInv(s: State, t: State)
    requires Inv(s) && OnlyBids(s, t) && SameGaps(s, t)
    requires forall k <- t.bids :: BidValid(s, k, t.bids[k])
    ensures Inv(t)
  {
    hide Gap;
    hide DebtGap;
    hide NoneCallable;
    hide SameCore;
    hide AssetValid;
    hide CallValid;
    hide Backed;
    hide BookSound;
    hide BidsValid;
    BidsAside(s, t);
    MoneyKeeps(s, t.(bids := s.bids));
    OnlyBidsKeeps(s, t);
    SetupMarketIssued(s, t);
    BackedBy(t.(bids := s.bids), t);
    BookUnchanged(s, t);
    CallsStayValid(s, t, CORE);
    AllMetShrinks(s, t, {});
    NewBidsValid(s, t);
  }

  ghost predicate BidValid(s: State, k: BidKey, b: Bid) {
    && k == (b.debt.id, b.bidder) && s.MarketIssued(k.0) && b.collateral.id == BackingOf(s, k.0)
    && b.collateral.amount > 0 && b.debt.amount > 0
  }

  lemma BidsAside(s: State, t: State)
    requires OnlyBids(s, t)
    ensures MoneyOnly(s, t.(bids := s.bids))
  {
  }

  lemma OnlyBidsKeeps(s: State, t: State)
    requires OnlyBids(s, t)
    ensures SameSetup(s, t) && t.assets.Keys == s.assets.Keys
  {
    CoreBurnsNothing(s, t, CORE);
  }

  lemma NewBidsValid(s: State, t: State)
    requires SameSetup(s, t) && forall k <- t.bids :: BidValid(s, k, t.bids[k])
    ensures BidsValid(t)
  {
    forall k <- t.bids ensures s.assets[k.0].bitasset == t.assets[k.0].bitasset {
      assert BidValid(s, k, t.bids[k]);
      assert s.assets[k.0].Setup().bitasset == t.assets[k.0].Setup().bitasset;
    }
  }

  lemma BidPlaced(s: State, t: State, u: State, k: BidKey, b: Bid)
    requires t == s.(balances := t.balances) && Moves(s, t, b.collateral.id, 0 - b.collateral.amount) && k !in s.bids
    requires u == t.(bids := t.bids[k := b])
    ensures OnlyBids(s, u) && SameGaps(s, u)
  {
    hide Gap;
    forall x: AssetId ensures Gap(u, x) == Gap(s, x) {
      BidGap(t, k, b, x);
    }
  }

  /// What a bid replaces: the bidder's earlier one is returned.
  method Withdraw(db: Database, k: BidKey)
    requires Inv(db.s)
    modifies db
    ensures Inv(db.s) && OnlyBids(old(db.s), db.s) && db.s.bids == old(db.s).bids - {k}
    ensures forall w: Account, x: AssetId :: db.s.Balance(w, x) == old(db.s).Balance(w, x) + Deposit(old(db.s), k, w, x)
  {
    hide Gap;
    hide SameCore;
    hide AllMet;
    ghost var s := db.s;
    UntouchedBids(s);
    if k in db.s.bids {
      CancelBid(db, k);
      BidsKeepInv(s, db.s);
    }
  }

  /// The checks of the evaluator; the balance is the one before an earlier bid is returned.
  predicate MayBid(s: State, bidder: Account, collateral: Asset, debt: Asset) {
    && (debt.amount > 0 ==> collateral.amount > 0) && s.Settled(debt.id) && collateral.id == BackingOf(s, debt.id)
    && !s.assets[debt.id].bitasset.value.predictionMarket && s.Balance(bidder, collateral.id) >= collateral.amount
    && (debt.amount == 0 ==> (debt.id, bidder) in s.bids)
  }

  /// The bidder's bid is the new one, or none, and balances have changed with the deposit.
  ghost predicate BidReplaced(s: State, t: State, bidder: Account, collateral: Asset, debt: Asset) {
    var k := (debt.id, bidder);
    && OnlyBids(s, t)
    && t.bids == (if debt.amount == 0 then s.bids - {k} else s.bids[k := Bid(bidder, collateral, debt)])
    && forall w: Account, x: AssetId :: t.Balance(w, x) + Deposit(t, k, w, x) == s.Balance(w, x) + Deposit(s, k, w, x)
  }

  /// bid_collateral
  method BidCollateral(db: Database, bidder: Account, collateral: Asset, debt: Asset) returns (r: Result)
    requires Inv(db.s)
    modifies db
    ensures !r.Hangs?
    ensures r.Accepted? <==> MayBid(old(db.s), bidder, collateral, debt)
    ensures r.Accepted? ==> Inv(db.s) && BidReplaced(old(db.s), db.s, bidder, collateral, debt)
    ensures !r.Accepted? ==> db.s == old(db.s)
  {
    hide Gap;
    hide SameCore;
    hide Inv;
    hide OnlyBids;
    hide MoneyOnly;
    var k := (debt.id, bidder);
    if (debt.amount > 0 && collateral.amount == 0) || !db.s.Settled(debt.id)
      || collateral.id != db.s.assets[debt.id].bitasset.value.backing
      || db.s.assets[debt.id].bitasset.value.predictionMarket || db.s.Balance(bidder, collateral.id) < collateral.amount
      || (k !in db.s.bids && debt.amount == 0)
    {
      return Rejected;
    }
    var saved := db.s;
    Withdraw(db, k);
    if debt.amount == 0 {
      return Accepted;
    }
    ghost var s1 := db.s;
    var ok := db.AdjustBalance(bidder, collateral.id, (0 as int) - collateral.amount);
    assert ok;
    ghost var s2 := db.s;
    db.s := db.s.(bids := db.s.bids[k := Bid(bidder, collateral, debt)]);
    MoneyFrame(s1, s2);
    BidPlaced(s1, s2, db.s, k, Bid(bidder, collateral, debt));
    BidIsValid(saved, s1, db.s, k, Bid(bidder, collateral, debt));
    BidsKeepInv(s1, db.s);
    OnlyBidsTransitive(saved, s1, db.s);
    return Accepted;
  }

  lemma MoneyFrame(s: State, t: State)
    requires MoneyOnly(s, t)
    ensures t.bids == s.bids
  {
  }

  lemma BidIsValid(s: State, t: State, u: State, k: BidKey, b: Bid)
    requires Inv(t) && OnlyBids(s, t) && s.MarketIssued(k.0) && u.bids == t.bids[k := b]
    requires k == (b.debt.id, b.bidder) && b.collateral.id == BackingOf(s, k.0) && b.collateral.amount > 0 && b.debt.amount > 0
    ensures forall j <- u.bids :: BidValid(t, j, u.bids[j])
  {
    SameAsset(s, t, k.0);
  }
}