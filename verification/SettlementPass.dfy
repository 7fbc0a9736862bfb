/** The settlement pass: the second part of clear_expired_orders in db_update.cpp, with
    max_force_settlement_volume from asset_object.cpp. */
module SettlementPass {
  import opened Options
  import opened Prices
  import opened Sums
  import opened MarginCall
  import opened MarketState
  import opened MarketDatabase
  import opened OrderBook
  import opened Positions
  import opened Matching
  import opened Orders
  import opened MarketInvariant
  import opened MarginCalls
  import opened Settlements
  import opened BitassetChanges
  import opened ForceSettlement

  // ------------------------------------------------------------------
  // The volume

  function Volume(d: AssetData): nat {
    if d.bitasset.Some? then d.bitasset.value.forceSettled else 0
  }

  /// max_force_settlement_volume
  function MaxVolume(d: AssetData): nat {
    if d.bitasset.None? || d.bitasset.value.maxForcePercent == 0 then 0
    else if d.bitasset.value.maxForcePercent == HUNDRED_PERCENT then d.supply + Volume(d)
    else FloorMul(d.supply + Volume(d), d.bitasset.value.maxForcePercent, HUNDRED_PERCENT)
  }

  /** The maximum is the greatest volume within the percentage of what there was when the
      period began: the supply and what has been settled since. */
  lemma MaxVolumeIsGreatest(d: AssetData, v: nat)
    requires d.bitasset.Some? && d.bitasset.value.maxForcePercent <= HUNDRED_PERCENT
    ensures v <= MaxVolume(d) <==>
      v * HUNDRED_PERCENT <= (d.supply + d.bitasset.value.forceSettled) * d.bitasset.value.maxForcePercent
  {
    FloorIsGreatest(d.supply + Volume(d), d.bitasset.value.maxForcePercent, HUNDRED_PERCENT, v);
  }

  /// Everything that settlements leave alone.
  function Frame(d: AssetData): AssetData {
    if d.bitasset.None? then d.Setup() else d.Setup().(bitasset := Some(d.bitasset.value.(forceSettled := 0)))
  }

  /// What is settled leaves the supply and enters the volume, up to the maximum.
  ghost predicate AssetServed(d: AssetData, e: AssetData) {
    && Frame(d) == Frame(e) && d.supply + Volume(d) == e.supply + Volume(e)
    && Volume(d) <= Volume(e) <= Max(Volume(d), MaxVolume(d))
  }

  lemma SameFrame(d: AssetData, e: AssetData)
    requires Frame(d) == Frame(e)
    ensures d.bitasset.Some? == e.bitasset.Some?
    ensures d.bitasset.Some? ==> e.bitasset.value == d.bitasset.value.(forceSettled := Volume(e))
  {
    assert Frame(d).bitasset.Some? == d.bitasset.Some? && Frame(e).bitasset.Some? == e.bitasset.Some?;
    if d.bitasset.Some? {
      assert Frame(d).bitasset.value == Frame(e).bitasset.value;
    }
  }

  /** The maximum does not change while requests are served, so it need not be computed
      again. */
  lemma MaximumIsConstant(d: AssetData, e: AssetData)
    requires AssetServed(d, e)
    ensures MaxVolume(e) == MaxVolume(d)
  {
    SameFrame(d, e);
  }

  lemma AssetServedTransitive(d: AssetData, e: AssetData, f: AssetData)
    requires AssetServed(d, e) && AssetServed(e, f)
    ensures AssetServed(d, f)
  {
    MaximumIsConstant(d, e);
  }

  /** Room for settlements means that there is something to settle. */
  lemma RoomMeansSupply(d: AssetData, settled: nat, supply: nat)
    requires d.bitasset.Some? && d.bitasset.value.maxForcePercent <= HUNDRED_PERCENT
    requires supply + settled == d.supply + Volume(d) && settled < MaxVolume(d)
    ensures supply > 0
  {
    var total, p := d.supply + Volume(d), d.bitasset.value.maxForcePercent;
    FloorIsGreatest(total, p, HUNDRED_PERCENT, total + 1);
    ProductMonotone(p, HUNDRED_PERCENT, total);
    assert (total + 1) * HUNDRED_PERCENT == total * HUNDRED_PERCENT + HUNDRED_PERCENT;
  }

  lemma DebtMeansPosition(s: State, a: AssetId)
    requires Inv(s) && s.MarketIssued(a) && !s.Settled(a) && s.Supply(a) > 0
    ensures exists k <- s.calls :: k.1 == a
  {
    hide Gap;
    assert DebtGap(s, a) == 0;
    assert forall k <- s.calls :: CallValid(s, k, s.calls[k]);
    if forall k <- s.calls :: k.1 != a {
      SumOfZeros(s.calls, DebtIn(a));
    }
  }

  // ------------------------------------------------------------------
  // Serving keeps the invariant

  lemma ServingKeepsInv(s: State, t: State, a: AssetId)
    requires Inv(s) && Serving(s, t, a) && FeedsValid(t) && NoneCallable(t, a, {})
    ensures Inv(t)
  {
    hide Gap;
    hide DebtGap;
    hide NoneCallable;
    hide BookSound;
    hide AssetValid;
    hide CallValid;
    if s.Settled(a) { SettledSupplyStays(s, t, a); }
    TradingKeepsAssetsValid(s, t, a);
    CallsStayValid(s, t, a);
    StaysBacked(s, t);
    SetupMarketIssued(s, t);
    SetupKeepsOthers(s, t.(settles := s.settles));
    BookUnchanged(s, t);
    ServingMet(s, t, a);
  }

  lemma ServingMet(s: State, t: State, a: AssetId)
    requires AllMet(s, {}) && Serving(s, t, a) && FeedsValid(t) && NoneCallable(t, a, {})
    ensures AllMet(t, {})
  {
    hide SameGaps;
    hide SameDebtGaps;
    forall b ensures NoneCallable(t, b, {}) {
      if b != a {
        ShrinksReflexive(s.limits);
        NoneCallableShrinks(s, t, b, {});
      }
    }
  }

  /// The asset can be settled in: it has a feed, is not settled, and the offset leaves a
  /// price.
  predicate Servable(s: State, a: AssetId) {
    && s.MarketIssued(a) && !s.Settled(a) && s.assets[a].bitasset.value.feed.Some?
    && s.assets[a].bitasset.value.offsetPercent < HUNDRED_PERCENT
  }

  function FillOf(s: State, a: AssetId): (r: Price)
    requires Servable(s, a) && FeedsValid(s)
    ensures r.Valid() && r.base.id == a && r.quote.id == BackingOf(s, a)
  {
    FillPrice(s.assets[a].bitasset.value.feed.value, s.assets[a].bitasset.value.offsetPercent)
  }

  lemma InvFeedsValid(s: State)
    requires Inv(s)
    ensures FeedsValid(s)
  {
  }

  /** A position above the maintenance ratio is still above it after a settlement. */
  lemma SettledNotCalled(feed: Feed, offset: nat, c: CallOrder, balance: nat, room: nat)
    requires feed.Valid(c.debt.id, c.collateral.id) && offset < HUNDRED_PERCENT && !Called(feed, c)
    requires balance > 0 && room > 0 && c.debt.amount > 0
    ensures var f := FillPrice(feed, offset);
      var trade := SettleTrade(balance, room, c.debt.amount, f.quote.amount, f.base.amount);
      trade.Settling? && trade.receives < c.debt.amount && trade.pays <= c.collateral.amount ==>
        !Called(feed, Covered(c, trade.pays, trade.receives))
  {
    hide SettleTrade;
    hide Called;
    var f := FillPrice(feed, offset);
    var trade := SettleTrade(balance, room, c.debt.amount, f.quote.amount, f.base.amount);
    SettleTradeBounds(balance, room, c.debt.amount, f.quote.amount, f.base.amount);
    if trade.Settling? && trade.receives < c.debt.amount && trade.pays <= c.collateral.amount {
      SettledStaysAbove(feed, offset, c, trade.pays, trade.receives);
    }
  }

  /** A settlement exposes no position to the book. */
  lemma SettledStaysMet(s: State, t: State, id: nat, key: (Account, AssetId), room: nat)
    requires Inv(s) && FeedsValid(s) && Servable(s, key.1) && id in s.settles && key in s.calls && s.settles[id].balance.amount > 0 && room > 0
    requires s.calls[key].debt.id == key.1 && key.1 in s.assets && s.calls[key].collateral.id in s.assets
    requires SettledWith(s, t, id, key, room, TradeFor(s, id, key, FillOf(s, key.1), room)) && Serving(s, t, key.1)
    ensures FeedsValid(t) && NoneCallable(t, key.1, {})
  {
    hide Gap;
    hide DebtGap;
    hide Called;
    hide Squeezes;
    hide Sound;
    hide SettleTrade;
    hide FillPrice;
    hide CallsShrink;
    hide SettlesShrink;
    hide SameGaps;
    hide SameDebtGaps;
    var a := key.1;
    SameFeeds(s, t);
    var feed, c := s.assets[a].bitasset.value.feed.value, s.calls[key];
    PositionFacts(s, key);
    assert NoneCallable(s, a, {});
    if !Called(feed, c) {
      SettledNotCalled(feed, s.assets[a].bitasset.value.offsetPercent, c, s.settles[id].balance.amount, room);
    }
  }

  // ------------------------------------------------------------------
  // Serving one request

  /// Every position of the asset covers its debt at the price requests are served at.
  ghost predicate Covering(s: State, a: AssetId)
    requires Servable(s, a) && FeedsValid(s)
  {
    forall k <- s.calls :: k.1 == a ==> Covers(s.calls[k], FillOf(s, a))
  }

  lemma CoveringHasCollateral(c: CallOrder, p: Price)
    requires p.Valid() && Covers(c, p) && c.debt.amount > 0
    ensures c.collateral.amount > 0
  {
    ProductLess(0, c.debt.amount, p.quote.amount);
  }

  lemma CoveringStays(s: State, t: State, id: nat, key: (Account, AssetId), room: nat)
    requires FeedsValid(s) && FeedsValid(t) && Servable(s, key.1) && Servable(t, key.1) && FillOf(t, key.1) == FillOf(s, key.1)
    requires id in s.settles && key in s.calls && s.settles[id].balance.amount > 0 && room > 0 && s.calls[key].debt.amount > 0
    requires s.calls[key].debt.id in s.assets && s.calls[key].collateral.id in s.assets && Covering(s, key.1)
    ensures s.calls[key].collateral.amount > 0
    ensures var trade := TradeFor(s, id, key, FillOf(s, key.1), room);
      && (trade.Small? || trade.pays <= s.calls[key].collateral.amount)
      && (SettledWith(s, t, id, key, room, trade) ==> Covering(t, key.1))
  {
    hide Covers;
    hide SettleTrade;
    hide FillOf;
    var f, c := FillOf(s, key.1), s.calls[key];
    var trade := TradeFor(s, id, key, f, room);
    SettleTradeBounds(s.settles[id].balance.amount, room, c.debt.amount, f.quote.amount, f.base.amount);
    CoveringHasCollateral(c, f);
    if trade.Settling? {
      CoveringPays(c, f, trade.pays, trade.receives);
    }
  }

  ghost predicate IsLeast(m: Calls, a: AssetId, k: (Account, AssetId)) {
    k in m && k.1 == a && forall j <- m :: j.1 == a ==> !Less(m[j].Collateralization(), m[k].Collateralization())
  }

  /// The request cannot be served although there is room: the amount at hand is worth
  /// nothing, and the least collateralized position is larger.
  ghost predicate TooSmall(s: State, a: AssetId, id: nat) {
    && FeedsValid(s) && Servable(s, a) && Volume(s.assets[a]) < MaxVolume(s.assets[a]) && id in s.settles
    && s.settles[id].balance.id == a
    && exists k <- s.calls ::
      IsLeast(s.calls, a, k) && TradeFor(s, id, k, FillOf(s, a), MaxVolume(s.assets[a]) - Volume(s.assets[a])).Small?
  }

  /// Up to `settled` of the asset have been settled; the state does not say so yet.
  ghost predicate Midway(s: State, t: State, a: AssetId, settled: nat) {
    && Inv(t) && Serving(s, t, a) && FeedsValid(t) && Servable(t, a)
    && t.assets[a].bitasset == s.assets[a].bitasset && t.Supply(a) + settled == s.assets[a].supply + Volume(s.assets[a])
    && Volume(s.assets[a]) <= settled <= MaxVolume(s.assets[a])
  }

  lemma MidwayStep(s: State, t: State, u: State, a: AssetId, settled: nat, more: nat)
    requires Inv(s) && FeedsValid(s) && Servable(s, a) && Midway(s, t, a, settled) && Serving(t, u, a) && Inv(u)
    requires u.Supply(a) + more == t.Supply(a) && settled + more <= MaxVolume(s.assets[a])
    ensures Midway(s, u, a, settled + more) && FillOf(u, a) == FillOf(s, a)
  {
    hide Gap;
    hide DebtGap;
    hide Inv;
    ServingTransitive(s, t, u, a);
    InvFeedsValid(u);
    assert s.assets[a].Setup().bitasset == u.assets[a].Setup().bitasset;
  }

  lemma MidwayFacts(s: State, t: State, a: AssetId, settled: nat)
    requires FeedsValid(s) && Inv(s) && Servable(s, a) && Midway(s, t, a, settled)
    ensures FillOf(t, a) == FillOf(s, a)
    ensures forall k <- t.calls :: CallValid(t, k, t.calls[k])
    ensures settled < MaxVolume(s.assets[a]) ==> exists k <- t.calls :: k.1 == a
  {
    hide Gap;
    hide DebtGap;
    hide Serving;
    assert AssetValid(a, s.assets[a], s.assets.Keys);
    if settled < MaxVolume(s.assets[a]) {
      RoomMeansSupply(s.assets[a], settled, t.Supply(a));
      DebtMeansPosition(t, a);
    }
  }

  lemma CancelKeepsMet(s: State, t: State, a: AssetId)
    requires Inv(s) && Serving(s, t, a) && t.calls == s.calls
    ensures FeedsValid(t) && NoneCallable(t, a, {})
  {
    hide Sound;
    hide SameGaps;
    hide SameDebtGaps;
    SameFeeds(s, t);
    ShrinksReflexive(s.limits);
    NoneCallableShrinks(s, t, a, {});
  }

  lemma SettledFacts(s: State, t: State, id: nat, key: (Account, AssetId), fill: Price, room: nat)
    requires id in s.settles && key in s.calls && fill.Valid() && s.settles[id].balance.amount > 0 && room > 0
    requires s.calls[key].debt.id == key.1 && key.1 in s.assets && s.calls[key].debt.amount > 0
    requires s.calls[key].collateral.id in s.assets
    requires SettledWith(s, t, id, key, room, TradeFor(s, id, key, fill, room))
    ensures var trade := TradeFor(s, id, key, fill, room);
      && t.Supply(key.1) + (if trade.Small? then 0 else trade.receives) == s.Supply(key.1)
      && (trade.Settling? ==> 0 < trade.receives <= room)
      && (trade.Small? && id in t.settles ==> s.settles[id].balance.amount > room)
      && (id in t.settles ==> t.settles[id].balance.id == s.settles[id].balance.id)
  {
    hide SettleTrade;
    SettleTradeBounds(s.settles[id].balance.amount, room, s.calls[key].debt.amount, fill.quote.amount, fill.base.amount);
  }

  /// One round of the inner loop: the request meets the least collateralized position.
  method ServeOnce(db: Database, a: AssetId, id: nat, cap: nat, fill: Price, settled: nat, ghost s: State)
    returns (ok: bool, more: nat)
    requires Inv(s) && FeedsValid(s) && Servable(s, a) && Midway(s, db.s, a, settled) && cap == MaxVolume(s.assets[a])
    requires fill == FillOf(s, a) && settled < cap && id in db.s.settles && db.s.settles[id].balance.id == a
    modifies db
    ensures ok ==> Midway(s, db.s, a, settled + more)
    ensures ok && more == 0 && id in db.s.settles ==>
      && db.s == old(db.s)
      && exists k <- db.s.calls :: IsLeast(db.s.calls, a, k) && TradeFor(db.s, id, k, fill, cap - settled).Small?
    ensures ok && id in db.s.settles ==> db.s.settles[id].balance.id == a
    ensures FillOf(old(db.s), a) == fill && Covering(old(db.s), a) ==> ok && FillOf(db.s, a) == fill && Covering(db.s, a)
  {
    hide Gap;
    hide DebtGap;
    hide Inv;
    hide Serving;
    hide SettledWith;
    hide SettleTrade;
    hide FillPrice;
    hide Less;
    hide Covers;
    ghost var t := db.s;
    MidwayFacts(s, t, a, settled);
    var key := LeastCollateralized(db.s.calls, a);
    if db.s.settles[id].balance.amount == 0 {
      CancelSettleOrder(db, id);
      CancelKeepsMet(t, db.s, a);
      ServingKeepsInv(t, db.s, a);
      CoreBurnsNothing(t, db.s, a);
      MidwayStep(s, t, db.s, a, settled, 0);
      return true, 0;
    }
    assert key.Some?;
    KeyFacts(t, key.value);
    PositionFacts(t, key.value);
    ok, more := MatchSettle(db, id, key.value, fill, cap - settled);
    if Covering(t, a) { CoveringStays(t, t, id, key.value, cap - settled); }
    if ok {
      SettledFacts(t, db.s, id, key.value, fill, cap - settled);
      SettledStaysMet(t, db.s, id, key.value, cap - settled);
      ServingKeepsInv(t, db.s, a);
      MidwayStep(s, t, db.s, a, settled, more);
      if Covering(t, a) { CoveringStays(t, db.s, id, key.value, cap - settled); }
    }
  }

  /// Only requests for `a` have been served or returned, up to its maximum volume.
  ghost predicate ServedOnly(s: State, t: State, a: AssetId) {
    && t.assets.Keys == s.assets.Keys && a in s.assets && AssetServed(s.assets[a], t.assets[a])
    && (forall b <- s.assets :: b != a ==> t.assets[b].Core() == s.assets[b].Core())
    && CallsShrink(s.calls, t.calls, a) && SettlesShrink(s.settles, t.settles, a)
    && t.limits == s.limits && t.bids == s.bids && t.nextId == s.nextId && t.revived == s.revived
    && SameGaps(s, t) && SameDebtGaps(s, t)
  }

  function Recorded(s: State, a: AssetId, settled: nat): State
    requires s.MarketIssued(a)
  {
    WithBitasset(s, a, s.assets[a].bitasset.value.(forceSettled := settled))
  }

  /** Recording the volume completes a visit to the asset. */
  lemma RecordedIsServed(s: State, t: State, a: AssetId, settled: nat)
    requires FeedsValid(s) && Inv(s) && Servable(s, a) && Midway(s, t, a, settled)
    ensures Inv(Recorded(t, a, settled)) && ServedOnly(s, Recorded(t, a, settled), a)
  {
    hide Gap;
    hide DebtGap;
    hide Inv;
    hide CallsShrink;
    hide SettlesShrink;
    hide FeedsValid;
    hide Feed.Valid;
    var b := t.assets[a].bitasset.value.(forceSettled := settled);
    FeedHere(t, a);
    BitassetIsSound(t, a, b);
    BitassetMoves(t, a, b);
    var u := Recorded(t, a, settled);
    forall x <- s.assets | x != a ensures u.assets[x].Core() == s.assets[x].Core() {
      assert t.assets[x].Setup() == s.assets[x].Setup() && t.Supply(x) == s.Supply(x);
      assert t.assets[x].Core() == t.assets[x].Setup().(supply := t.assets[x].supply);
      assert s.assets[x].Core() == s.assets[x].Setup().(supply := s.assets[x].supply);
    }
    assert Frame(u.assets[a]) == Frame(s.assets[a]) by {
      assert t.assets[a].Setup() == s.assets[a].Setup();
    }
  }

  lemma FeedHere(s: State, a: AssetId)
    requires FeedsValid(s) && Servable(s, a)
    ensures s.assets[a].bitasset.value.feed.value.Valid(a, BackingOf(s, a))
  {
  }

  lemma StartsMidway(s: State, a: AssetId)
    requires Inv(s) && Servable(s, a) && Volume(s.assets[a]) < MaxVolume(s.assets[a])
    ensures FeedsValid(s) && Midway(s, s, a, Volume(s.assets[a]))
  {
    InvFeedsValid(s);
    ServingReflexive(s, a);
  }

  lemma RecordedTooSmall(s: State, t: State, a: AssetId, id: nat, settled: nat)
    requires FeedsValid(s) && Inv(s) && Servable(s, a) && Midway(s, t, a, settled) && settled < MaxVolume(s.assets[a])
    requires id in t.settles && t.settles[id].balance.id == a
    requires exists k <- t.calls ::
      IsLeast(t.calls, a, k) && TradeFor(t, id, k, FillOf(s, a), MaxVolume(s.assets[a]) - settled).Small?
    ensures TooSmall(Recorded(t, a, settled), a, id)
  {
    hide Midway;
    hide Inv;
    hide FeedsValid;
    hide IsLeast;
    hide SettleTrade;
    hide FillOf;
    hide Recorded;
    RecordedFacts(s, t, a, settled);
    var u := Recorded(t, a, settled);
    var k :| k in t.calls && IsLeast(t.calls, a, k) && TradeFor(t, id, k, FillOf(s, a), MaxVolume(s.assets[a]) - settled).Small?;
    assert TradeFor(u, id, k, FillOf(u, a), MaxVolume(u.assets[a]) - Volume(u.assets[a])).Small?;
  }

  lemma RecordedFacts(s: State, t: State, a: AssetId, settled: nat)
    requires FeedsValid(s) && Inv(s) && Servable(s, a) && Midway(s, t, a, settled)
    ensures t.MarketIssued(a)
    ensures var u := Recorded(t, a, settled);
      && u.settles == t.settles && u.calls == t.calls && FeedsValid(u) && Servable(u, a) && FillOf(u, a) == FillOf(t, a) == FillOf(s, a)
      && MaxVolume(u.assets[a]) == MaxVolume(s.assets[a]) && Volume(u.assets[a]) == settled
  {
    hide Gap;
    hide DebtGap;
    hide FillPrice;
    hide Serving;
    RecordedIsServed(s, t, a, settled);
    InvFeedsValid(Recorded(t, a, settled));
    MaximumIsConstant(s.assets[a], Recorded(t, a, settled).assets[a]);
  }

  /// The inner loop, for one request: until it is gone, the volume is used up, or what
  /// is left is too small.
  method ServeOrder(db: Database, a: AssetId, id: nat, cap: nat, fill: Price) returns (ok: bool, finished: bool)
    requires Inv(db.s) && FeedsValid(db.s) && Servable(db.s, a) && id in db.s.settles && db.s.settles[id].balance.id == a
    requires Volume(db.s.assets[a]) < cap == MaxVolume(db.s.assets[a]) && fill == FillOf(db.s, a)
    modifies db
    ensures ok ==> Inv(db.s) && ServedOnly(old(db.s), db.s, a)
    ensures ok && finished ==> TooSmall(db.s, a, id)
    ensures ok && id in db.s.settles && !finished ==> Volume(db.s.assets[a]) >= cap
    ensures Covering(old(db.s), a) ==> ok && FeedsValid(db.s) && Servable(db.s, a) && Covering(db.s, a)
  {
    hide Gap;
    hide DebtGap;
    hide Inv;
    hide FeedsValid;
    hide Covering;
    hide FillOf;
    hide IsLeast;
    hide SettleTrade;
    hide TooSmall;
    hide ServedOnly;
    ghost var s := db.s;
    StartsMidway(s, a);
    var settled := Volume(db.s.assets[a]);
    finished := false;
    while settled < cap && id in db.s.settles
      invariant Midway(s, db.s, a, settled)
      invariant id in db.s.settles ==> db.s.settles[id].balance.id == a
      invariant Covering(s, a) ==> FillOf(db.s, a) == fill && Covering(db.s, a)
      invariant !finished
      decreases cap - settled
    {
      var more;
      ok, more := ServeOnce(db, a, id, cap, fill, settled, s);
      if !ok {
        return;
      }
      if more == 0 {
        finished := id in db.s.settles;
        break;
      }
      settled := settled + more;
    }
    ghost var t := db.s;
    RecordedIsServed(s, t, a, settled);
    RecordedFacts(s, t, a, settled);
    if finished { RecordedTooSmall(s, t, a, id, settled); }
    if Covering(s, a) { RecordedCovering(s, t, a, settled); }
    db.s := Recorded(db.s, a, settled);
    ok := true;
  }

  lemma RecordedCovering(s: State, t: State, a: AssetId, settled: nat)
    requires FeedsValid(s) && Inv(s) && Servable(s, a) && Midway(s, t, a, settled) && Covering(t, a)
    ensures var u := Recorded(t, a, settled); FeedsValid(u) && Servable(u, a) && Covering(u, a)
  {
    hide Covers;
    hide Midway;
    hide Inv;
    hide FeedsValid;
    hide FillOf;
    hide Recorded;
    RecordedFacts(s, t, a, settled);
  }

  // ------------------------------------------------------------------
  // The whole pass

  /// The index of settlement orders: by asset, then date, then id.
  predicate Before(i: nat, o: SettleOrder, j: nat, p: SettleOrder) {
    || o.balance.id < p.balance.id
    || (o.balance.id == p.balance.id && (o.date < p.date || (o.date == p.date && i < j)))
  }

  ghost predicate IsFirst(m: map<nat, SettleOrder>, from: AssetId, i: nat) {
    && i in m && m[i].balance.id >= from
    && forall j <- m :: m[j].balance.id >= from && j != i ==> Before(i, m[i], j, m[j])
  }

  /** Requests of an asset are served by date, and of one date by age. */
  lemma ServedByDate(m: map<nat, SettleOrder>, from: AssetId, i: nat, j: nat)
    requires IsFirst(m, from, i) && j in m && m[j].balance.id >= from && j != i
    ensures m[i].balance.id <= m[j].balance.id
    ensures m[i].balance.id == m[j].balance.id ==> m[i].date < m[j].date || (m[i].date == m[j].date && i < j)
  {
    assert Before(i, m[i], j, m[j]);
  }

  /// lower_bound: the first request in an asset not below `from`.
  method FirstRequest(m: map<nat, SettleOrder>, from: AssetId) returns (r: Option<nat>)
    ensures r.Some? ==> IsFirst(m, from, r.value)
    ensures r.None? ==> forall j <- m :: m[j].balance.id < from
  {
    r := None;
    var todo := m.Keys;
    while todo != {}
      invariant todo <= m.Keys
      invariant r.Some? ==>
        && r.value in m && m[r.value].balance.id >= from && r.value !in todo
        && forall j <- m :: j !in todo && m[j].balance.id >= from && j != r.value ==> Before(r.value, m[r.value], j, m[j])
      invariant r.None? ==> forall j <- m :: j !in todo ==> m[j].balance.id < from
      decreases |todo|
    {
      var k :| k in todo;
      todo := todo - {k};
      if m[k].balance.id >= from && (r.None? || Before(k, m[k], r.value, m[r.value])) {
        r := Some(k);
      }
    }
  }

  /// Requests that are due are served as far as they can be: what is left of them waits
  /// for the volume, or is too small.
  ghost predicate Exhausted(s: State, b: AssetId, now: nat) {
    (exists i <- s.settles :: s.settles[i].balance.id == b && s.settles[i].date <= now) ==>
      && s.MarketIssued(b) && !s.Settled(b) && s.assets[b].bitasset.value.feed.Some?
      && (Volume(s.assets[b]) >= MaxVolume(s.assets[b]) || exists i <- s.settles :: IsFirst(s.settles, b, i) && TooSmall(s, b, i))
  }

  lemma SameElsewhere(s: State, t: State, a: AssetId, b: AssetId)
    requires ServedOnly(s, t, a) && b != a
    ensures b in s.assets <==> b in t.assets
    ensures b in s.assets ==> t.assets[b].bitasset == s.assets[b].bitasset && t.assets[b].supply == s.assets[b].supply
    ensures forall k <- s.calls :: k.1 == b ==> k in t.calls && t.calls[k] == s.calls[k]
    ensures forall k <- t.calls :: k.1 == b ==> k in s.calls
    ensures forall i <- s.settles :: s.settles[i].balance.id == b ==> i in t.settles && t.settles[i] == s.settles[i]
    ensures forall i <- t.settles :: t.settles[i].balance.id == b ==> i in s.settles && t.settles[i] == s.settles[i]
  {
    hide SameGaps;
    hide SameDebtGaps;
    if b in s.assets {
      assert t.assets[b].Core().bitasset == s.assets[b].Core().bitasset && t.assets[b].Core().supply == s.assets[b].Core().supply;
    }
  }

  lemma ExhaustedElsewhere(s: State, t: State, a: AssetId, b: AssetId, now: nat)
    requires ServedOnly(s, t, a) && b < a && Exhausted(s, b, now) && FeedsValid(t)
    ensures Exhausted(t, b, now)
  {
    hide FeedsValid;
    hide ServedOnly;
    hide IsFirst;
    hide TooSmall;
    hide MaxVolume;
    SameElsewhere(s, t, a, b);
    if exists i <- t.settles :: t.settles[i].balance.id == b && t.settles[i].date <= now {
      var i :| i in t.settles && t.settles[i].balance.id == b && t.settles[i].date <= now;
      assert s.settles[i] == t.settles[i];
      if Volume(s.assets[b]) < MaxVolume(s.assets[b]) {
        var j :| j in s.settles && IsFirst(s.settles, b, j) && TooSmall(s, b, j);
        FirstElsewhere(s, t, a, b, j);
        TooSmallElsewhere(s, t, a, b, j);
      } else {
        SameMaximum(s.assets[b], t.assets[b]);
      }
    }
  }

  lemma SameMaximum(d: AssetData, e: AssetData)
    requires d.bitasset == e.bitasset && d.supply == e.supply
    ensures MaxVolume(d) == MaxVolume(e)
  {
  }

  lemma FirstElsewhere(s: State, t: State, a: AssetId, b: AssetId, i: nat)
    requires ServedOnly(s, t, a) && b < a && IsFirst(s.settles, b, i) && TooSmall(s, b, i)
    ensures i in t.settles && IsFirst(t.settles, b, i)
  {
    hide SettleTrade;
    hide FillPrice;
    hide IsLeast;
    hide SameGaps;
    hide SameDebtGaps;
    SameElsewhere(s, t, a, b);
    forall j <- t.settles | t.settles[j].balance.id >= b && j != i ensures Before(i, t.settles[i], j, t.settles[j]) {
      assert t.settles[j].balance.id == s.settles[j].balance.id;
    }
  }

  lemma TooSmallElsewhere(s: State, t: State, a: AssetId, b: AssetId, i: nat)
    requires ServedOnly(s, t, a) && b != a && TooSmall(s, b, i) && FeedsValid(t)
    ensures TooSmall(t, b, i)
  {
    hide ServedOnly;
    hide SettleTrade;
    hide FillPrice;
    hide Less;
    SameElsewhere(s, t, a, b);
    var room := MaxVolume(s.assets[b]) - Volume(s.assets[b]);
    assert MaxVolume(t.assets[b]) - Volume(t.assets[b]) == room;
    var k :| k in s.calls && IsLeast(s.calls, b, k) && TradeFor(s, i, k, FillOf(s, b), room).Small?;
    assert IsLeast(t.calls, b, k) && TradeFor(t, i, k, FillOf(t, b), room).Small?;
  }

  /// What has been computed once per asset is what computing it again would give.
  ghost predicate Cached(s: State, cap: Asset, fill: Price) {
    && FeedsValid(s)
    && (cap.id != CORE ==> cap.id in s.assets && cap.amount == MaxVolume(s.assets[cap.id]))
    && (fill.base.id != CORE ==> Servable(s, fill.base.id) && fill == FillOf(s, fill.base.id))
  }

  lemma CachedStays(s: State, t: State, a: AssetId, cap: Asset, fill: Price)
    requires Cached(s, cap, fill) && ServedOnly(s, t, a) && FeedsValid(t)
    ensures Cached(t, cap, fill)
  {
    hide SameGaps;
    hide SameDebtGaps;
    hide FeedsValid;
    hide FillPrice;
    hide CallsShrink;
    hide SettlesShrink;
    MaximumIsConstant(s.assets[a], t.assets[a]);
    SameFrame(s.assets[a], t.assets[a]);
    if cap.id != CORE && cap.id != a { SameElsewhere(s, t, a, cap.id); }
    if fill.base.id != CORE && fill.base.id != a { SameElsewhere(s, t, a, fill.base.id); }
  }

  /// Wherever requests can be served, positions cover their debt at the price.
  ghost predicate CoversAll(s: State) {
    && FeedsValid(s)
    && forall i <- s.settles ::
      var a := s.settles[i].balance.id;
      s.MarketIssued(a) && !s.Settled(a) && s.assets[a].bitasset.value.feed.Some? ==> Servable(s, a) && Covering(s, a)
  }

  lemma CoversAllStays(s: State, t: State, a: AssetId)
    requires CoversAll(s) && ServedOnly(s, t, a) && FeedsValid(t) && (Servable(t, a) ==> Covering(t, a))
    ensures CoversAll(t)
  {
    hide SameGaps;
    hide SameDebtGaps;
    hide Covers;
    hide FillPrice;
    SameFrame(s.assets[a], t.assets[a]);
    forall i <- t.settles
      ensures var b := t.settles[i].balance.id;
        t.MarketIssued(b) && !t.Settled(b) && t.assets[b].bitasset.value.feed.Some? ==> Servable(t, b) && Covering(t, b)
    {
      var b := t.settles[i].balance.id;
      assert s.settles[i].balance.id == b;
      if b != a {
        SameElsewhere(s, t, a, b);
      }
    }
  }

  /// Nothing is due in the asset, or nothing more can be done for what is.
  lemma NotYetDue(s: State, a: AssetId, id: nat, now: nat)
    requires IsFirst(s.settles, a, id) && s.settles[id].balance.id == a && s.settles[id].date > now
    ensures Exhausted(s, a, now)
  {
    forall i <- s.settles | s.settles[i].balance.id == a ensures s.settles[i].date > now {
      assert i != id ==> Before(id, s.settles[id], i, s.settles[i]);
    }
  }

  lemma CancelServes(s: State, t: State, a: AssetId)
    requires Inv(s) && Serving(s, t, a) && SameCore(s, t) && t.calls == s.calls && a in s.assets
    ensures Inv(t) && ServedOnly(s, t, a)
  {
    hide Gap;
    hide DebtGap;
    hide CallsShrink;
    hide SettlesShrink;
    hide Burns;
    hide Inv;
    CancelKeepsMet(s, t, a);
    ServingKeepsInv(s, t, a);
    SameCoreServed(s.assets[a], t.assets[a]);
  }

  lemma SameCoreServed(d: AssetData, e: AssetData)
    requires d.Core() == e.Core()
    ensures AssetServed(d, e)
  {
    assert d.Core().bitasset == d.bitasset && e.Core().bitasset == e.bitasset;
    assert d.Core().supply == d.supply && e.Core().supply == e.supply;
    assert d.Core().Setup() == d.Setup() && e.Core().Setup() == e.Setup();
  }

  /// A request that cannot be served at all is given back.
  method Return(db: Database, id: nat)
    requires Inv(db.s) && id in db.s.settles
    modifies db
    ensures Inv(db.s) && ServedOnly(old(db.s), db.s, old(db.s).settles[id].balance.id)
    ensures db.s.settles == old(db.s).settles - {id} && db.s.calls == old(db.s).calls
  {
    hide Gap;
    hide DebtGap;
    hide Serving;
    hide SameCore;
    hide Adjusted;
    hide ServedOnly;
    hide AllMet;
    hide BookSound;
    ghost var s := db.s;
    CancelSettleOrder(db, id);
    CancelServes(s, db.s, s.settles[id].balance.id);
  }

  /// What one round of the pass does with the first request: it is removed, or the asset
  /// is used up, or nothing is left to do in the asset.
  method Visit(db: Database, id: nat, now: nat, cap: Asset, fill: Price, finished: bool)
    returns (ok: bool, move: bool, cap': Asset, fill': Price, finished': bool)
    requires Inv(db.s) && Cached(db.s, cap, fill) && id in db.s.settles && IsFirst(db.s.settles, db.s.settles[id].balance.id, id)
    requires finished ==> TooSmall(db.s, db.s.settles[id].balance.id, id)
    modifies db
    ensures ok ==> Inv(db.s) && ServedOnly(old(db.s), db.s, old(db.s).settles[id].balance.id) && Cached(db.s, cap', fill')
    ensures ok && move ==> db.s == old(db.s) && Exhausted(db.s, db.s.settles[id].balance.id, now)
    ensures ok && !move && id in db.s.settles ==>
      var a := old(db.s).settles[id].balance.id;
      && !finished && Volume(old(db.s).assets[a]) < MaxVolume(old(db.s).assets[a])
      && (finished' || Volume(db.s.assets[a]) >= MaxVolume(db.s.assets[a]))
      && (finished' ==> TooSmall(db.s, a, id))
    ensures ok && !move && id !in db.s.settles ==> !finished'
    ensures CoversAll(old(db.s)) ==> ok && CoversAll(db.s)
  {
    hide Gap;
    hide DebtGap;
    hide Inv;
    hide ServedOnly;
    hide FillPrice;
    hide Exhausted;
    hide MaxVolume;
    hide SettleTrade;
    hide IsLeast;
    hide Covering;
    cap', fill', finished', move := cap, fill, finished, false;
    ghost var s := db.s;
    var a := db.s.settles[id].balance.id;
    RequestFacts(s, id);
    NothingServed(s, a);
    var b := db.s.assets[a].bitasset.value;
    if db.s.Settled(a) {
      Return(db, id);
      AfterReturn(s, db.s, a, cap, fill);
      return true, false, cap, fill, finished;
    }
    if db.s.settles[id].date > now {
      NotYetDue(s, a, id, now);
      return true, true, cap, fill, finished;
    }
    if b.feed.None? {
      Return(db, id);
      AfterReturn(s, db.s, a, cap, fill);
      return true, false, cap, fill, finished;
    }
    if cap.id != a {
      cap' := Asset(MaxVolume(db.s.assets[a]), a);
    }
    if b.forceSettled >= cap'.amount || finished {
      NothingMore(s, a, id, now);
      return true, true, cap', fill, finished;
    }
    if fill.base.id != a {
      if b.offsetPercent >= HUNDRED_PERCENT {
        return false, false, cap', fill, false;
      }
      fill' := FillOf(db.s, a);
    }
    ok, finished' := ServeOrder(db, a, id, cap'.amount, fill');
    if ok {
      AfterServe(s, db.s, a, cap', fill');
    }
  }

  lemma RequestFacts(s: State, id: nat)
    requires Inv(s) && id in s.settles
    ensures FeedsValid(s) && s.MarketIssued(s.settles[id].balance.id) && s.settles[id].balance.id != CORE
  {
    InvFeedsValid(s);
    assert AssetValid(CORE, s.assets[CORE], s.assets.Keys);
  }

  lemma NothingServed(s: State, a: AssetId)
    requires a in s.assets
    ensures ServedOnly(s, s, a)
  {
  }

  lemma AfterReturn(s: State, t: State, a: AssetId, cap: Asset, fill: Price)
    requires Inv(s) && Inv(t) && ServedOnly(s, t, a) && t.calls == s.calls && Cached(s, cap, fill)
    requires s.Settled(a) || (s.MarketIssued(a) && s.assets[a].bitasset.value.feed.None?)
    ensures Cached(t, cap, fill) && (CoversAll(s) ==> CoversAll(t))
  {
    hide SameGaps;
    hide SameDebtGaps;
    hide Covering;
    hide FillPrice;
    hide CallsShrink;
    hide SettlesShrink;
    InvFeedsValid(t);
    CachedStays(s, t, a, cap, fill);
    SameFrame(s.assets[a], t.assets[a]);
    if CoversAll(s) { CoversAllStays(s, t, a); }
  }

  lemma AfterServe(s: State, t: State, a: AssetId, cap: Asset, fill: Price)
    requires Inv(t) && ServedOnly(s, t, a) && Cached(s, cap, fill)
    ensures Cached(t, cap, fill)
    ensures CoversAll(s) && (FeedsValid(t) && Servable(t, a) ==> Covering(t, a)) ==> CoversAll(t)
    ensures a in s.assets && a in t.assets && MaxVolume(t.assets[a]) == MaxVolume(s.assets[a])
  {
    hide Inv;
    InvFeedsValid(t);
    CachedStays(s, t, a, cap, fill);
    MaximumIsConstant(s.assets[a], t.assets[a]);
    if CoversAll(s) && (Servable(t, a) ==> Covering(t, a)) { CoversAllStays(s, t, a); }
  }

  lemma NothingMore(s: State, a: AssetId, id: nat, now: nat)
    requires id in s.settles && s.settles[id].balance.id == a && IsFirst(s.settles, a, id)
    requires s.MarketIssued(a) && !s.Settled(a) && s.assets[a].bitasset.value.feed.Some?
    requires Volume(s.assets[a]) >= MaxVolume(s.assets[a]) || TooSmall(s, a, id)
    ensures Exhausted(s, a, now)
  {
  }

  /// What the pass as a whole may change.
  ghost predicate Served(s: State, t: State) {
    && t.assets.Keys == s.assets.Keys && (forall a <- s.assets :: AssetServed(s.assets[a], t.assets[a]))
    && t.limits == s.limits && t.bids == s.bids && t.nextId == s.nextId && t.revived == s.revived
    && t.settles.Keys <= s.settles.Keys
    && (forall i <- t.settles :: t.settles[i] == s.settles[i].(balance := t.settles[i].balance)
         && t.settles[i].balance.id == s.settles[i].balance.id && t.settles[i].balance.amount <= s.settles[i].balance.amount)
    && t.calls.Keys <= s.calls.Keys
    && (forall k <- t.calls :: t.calls[k].debt.amount <= s.calls[k].debt.amount && t.calls[k].collateral.amount <= s.calls[k].collateral.amount)
  }

  lemma ServedMore(s: State, t: State, u: State, a: AssetId)
    requires Served(s, t) && ServedOnly(t, u, a)
    ensures Served(s, u)
  {
    hide SameGaps;
    hide SameDebtGaps;
    hide AssetServed;
    forall b <- s.assets ensures AssetServed(s.assets[b], u.assets[b]) {
      if b != a { SameCoreServed(t.assets[b], u.assets[b]); }
      AssetServedTransitive(s.assets[b], t.assets[b], u.assets[b]);
    }
  }

  lemma NoneServed(s: State)
    ensures Served(s, s)
  {
    forall a <- s.assets ensures AssetServed(s.assets[a], s.assets[a]) { SameCoreServed(s.assets[a], s.assets[a]); }
  }

  function Later(m: map<nat, SettleOrder>, a: AssetId): set<nat> {
    set i <- m | m[i].balance.id > a
  }

  /// What is left of the pass: two rounds for each request, two for each request in a
  /// later asset, and one while the current asset is not used up.
  ghost function Rounds(s: State, current: AssetId, finished: bool): nat {
    2 * |s.settles| + 2 * |Later(s.settles, current)|
    + if !finished && current in s.assets && Volume(s.assets[current]) < MaxVolume(s.assets[current]) then 1 else 0
  }

  lemma Fewer(a: set<nat>, b: set<nat>)
    requires a <= b
    ensures |a| <= |b| && (a != b ==> |a| < |b|)
  {
    if a != b {
      var k :| k in b && k !in a;
      Cardinality(a, b, k);
    }
  }

  lemma LaterShrinks(m: map<nat, SettleOrder>, n: map<nat, SettleOrder>, a: AssetId, b: AssetId, i: nat)
    requires n.Keys <= m.Keys && (forall j <- n :: n[j].balance.id == m[j].balance.id) && a <= b
    ensures |Later(n, b)| <= |Later(m, a)| && |n| <= |m|
    ensures i in m && a < m[i].balance.id <= b ==> |Later(n, b)| < |Later(m, a)|
    ensures i in m && i !in n ==> |n| < |m|
  {
    Fewer(Later(n, b), Later(m, a));
    Fewer(n.Keys, m.Keys);
    assert |n| == |n.Keys| && |m| == |m.Keys|;
    if i in m && a < m[i].balance.id <= b {
      assert i in Later(m, a) && i !in Later(n, b);
    }
  }

  /// The invariant of the pass.
  ghost predicate Passing(s: State, t: State, now: nat, current: AssetId, cap: Asset, fill: Price, finished: bool) {
    && Inv(t) && Served(s, t) && Cached(t, cap, fill)
    && (forall b: AssetId :: b < current ==> Exhausted(t, b, now))
    && (finished ==> exists i <- t.settles :: IsFirst(t.settles, current, i) && TooSmall(t, current, i))
    && (CoversAll(s) ==> CoversAll(t))
  }

  lemma NoRequests(s: State, b: AssetId, now: nat)
    requires forall i <- s.settles :: s.settles[i].balance.id != b
    ensures Exhausted(s, b, now)
  {
  }

  /// Advancing to the first request skips only assets without requests.
  lemma Advance(s: State, t: State, now: nat, current: AssetId, cap: Asset, fill: Price, finished: bool, id: nat)
    requires Passing(s, t, now, current, cap, fill, finished) && IsFirst(t.settles, current, id)
    ensures var a := t.settles[id].balance.id;
      && Passing(s, t, now, a, cap, fill, finished) && IsFirst(t.settles, a, id)
      && (finished ==> a == current && TooSmall(t, a, id))
      && Rounds(t, a, finished) <= Rounds(t, current, finished)
  {
    hide Inv;
    hide Served;
    hide Cached;
    hide CoversAll;
    hide Exhausted;
    hide MaxVolume;
    var a := t.settles[id].balance.id;
    forall b: AssetId | current <= b < a ensures Exhausted(t, b, now) {
      forall i <- t.settles ensures t.settles[i].balance.id != b {
        if t.settles[i].balance.id >= current && i != id { assert Before(id, t.settles[id], i, t.settles[i]); }
      }
      NoRequests(t, b, now);
    }
    LaterShrinks(t.settles, t.settles, current, a, id);
    if finished {
      FirstIsUnique(t, current, id);
    }
  }

  lemma FirstIsUnique(t: State, a: AssetId, id: nat)
    requires IsFirst(t.settles, a, id) && exists i <- t.settles :: IsFirst(t.settles, a, i) && TooSmall(t, a, i)
    ensures t.settles[id].balance.id == a && TooSmall(t, a, id)
  {
    hide MaxVolume;
    hide SettleTrade;
    hide FillPrice;
    hide FeedsValid;
    hide IsLeast;
    var i :| i in t.settles && IsFirst(t.settles, a, i) && TooSmall(t, a, i);
    if i != id {
      assert Before(id, t.settles[id], i, t.settles[i]) && Before(i, t.settles[i], id, t.settles[id]);
    }
  }

  lemma StillFirst(s: State, t: State, a: AssetId, id: nat)
    requires ServedOnly(s, t, a) && IsFirst(s.settles, a, id) && id in t.settles
    ensures IsFirst(t.settles, a, id)
  {
    hide SameGaps;
    hide SameDebtGaps;
    hide CallsShrink;
  }

  /// The asset goes on: the request is gone, or the asset is used up.
  lemma StayInAsset(s: State, t: State, u: State, now: nat, cap: Asset, fill: Price, finished: bool, id: nat,
                    cap': Asset, fill': Price, finished': bool)
    requires id in t.settles && IsFirst(t.settles, t.settles[id].balance.id, id)
    requires Passing(s, t, now, t.settles[id].balance.id, cap, fill, finished)
    requires Inv(u) && ServedOnly(t, u, t.settles[id].balance.id) && Cached(u, cap', fill') && (CoversAll(t) ==> CoversAll(u))
    requires id in u.settles ==>
      var a := t.settles[id].balance.id;
      && !finished && Volume(t.assets[a]) < MaxVolume(t.assets[a])
      && (finished' || Volume(u.assets[a]) >= MaxVolume(u.assets[a])) && (finished' ==> TooSmall(u, a, id))
    requires id !in u.settles ==> !finished'
    ensures var a := t.settles[id].balance.id;
      Passing(s, u, now, a, cap', fill', finished') && Rounds(u, a, finished') < Rounds(t, a, finished)
  {
    hide Inv;
    hide Cached;
    hide CoversAll;
    hide Exhausted;
    hide MaxVolume;
    hide TooSmall;
    hide Served;
    hide IsFirst;
    hide SameGaps;
    hide SameDebtGaps;
    hide CallsShrink;
    var a := t.settles[id].balance.id;
    ServedMore(s, t, u, a);
    InvFeedsValid(u);
    forall b: AssetId | b < a ensures Exhausted(u, b, now) {
      ExhaustedElsewhere(t, u, a, b, now);
    }
    if id in u.settles { StillFirst(t, u, a, id); }
    LaterShrinks(t.settles, u.settles, a, a, id);
  }

  /// next_asset
  lemma MoveOn(s: State, t: State, now: nat, a: AssetId, cap: Asset, fill: Price, finished: bool, next: nat)
    requires Passing(s, t, now, a, cap, fill, finished) && Exhausted(t, a, now) && IsFirst(t.settles, a + 1, next)
    ensures var c := t.settles[next].balance.id;
      Passing(s, t, now, c, cap, fill, false) && Rounds(t, c, false) < Rounds(t, a, finished)
  {
    hide Inv;
    hide Served;
    hide Cached;
    hide CoversAll;
    hide Exhausted;
    hide MaxVolume;
    var c := t.settles[next].balance.id;
    forall b: AssetId | a < b < c ensures Exhausted(t, b, now) {
      forall i <- t.settles ensures t.settles[i].balance.id != b {
        if t.settles[i].balance.id > a && i != next { assert Before(next, t.settles[next], i, t.settles[i]); }
      }
      NoRequests(t, b, now);
    }
    LaterShrinks(t.settles, t.settles, a, c, next);
  }

  lemma NoLaterRequests(t: State, now: nat, a: AssetId)
    requires (forall b: AssetId :: b < a ==> Exhausted(t, b, now)) && forall i <- t.settles :: t.settles[i].balance.id < a
    ensures forall b: AssetId :: Exhausted(t, b, now)
  {
    hide Exhausted;
    forall b: AssetId | b >= a ensures Exhausted(t, b, now) {
      NoRequests(t, b, now);
    }
  }

  /// The settlement pass.  `count` is the number of rounds.
  method ServeRequests(db: Database, now: nat) returns (ok: bool, count: nat)
    requires Inv(db.s)
    modifies db
    ensures ok ==> Inv(db.s) && Served(old(db.s), db.s) && forall b: AssetId :: Exhausted(db.s, b, now)
    ensures count <= 4 * |old(db.s).settles| + 2
    ensures CoversAll(old(db.s)) ==> ok
  {
    hide Inv;
    hide Served;
    hide ServedOnly;
    hide Cached;
    hide CoversAll;
    hide Exhausted;
    hide TooSmall;
    hide IsFirst;
    hide MaxVolume;
    hide Rounds;
    ghost var s := db.s;
    count := 0;
    var first := FirstRequest(db.s.settles, 0);
    if first.None? {
      NoneServed(s);
      NoLaterRequests(s, now, 0);
      return true, 0;
    }
    var current, finished := 0, false;
    var cap, fill := Asset(0, CORE), Price(Asset(0, CORE), Asset(0, CORE));
    StartsPassing(s, now, cap, fill);
    while true
      invariant Passing(s, db.s, now, current, cap, fill, finished)
      invariant count + Rounds(db.s, current, finished) <= 4 * |s.settles| + 1
      decreases Rounds(db.s, current, finished)
    {
      var next := FirstRequest(db.s.settles, current);
      if next.None? {
        NoLaterRequests(db.s, now, current);
        return true, count;
      }
      count := count + 1;
      var id := next.value;
      ghost var t := db.s;
      FirstIsThere(t, current, id);
      Advance(s, t, now, current, cap, fill, finished, id);
      current := db.s.settles[id].balance.id;
      var move, cap', fill', finished';
      ok, move, cap', fill', finished' := Visit(db, id, now, cap, fill, finished);
      if !ok {
        return;
      }
      if !move {
        StayInAsset(s, t, db.s, now, cap, fill, finished, id, cap', fill', finished');
        cap, fill, finished := cap', fill', finished';
      } else {
        var later := FirstRequest(db.s.settles, current + 1);
        if later.None? {
          NoLaterRequests(db.s, now, current + 1);
          return true, count;
        }
        FirstIsThere(db.s, current + 1, later.value);
        Recached(s, t, now, current, cap, fill, finished, cap', fill');
        MoveOn(s, db.s, now, current, cap', fill', finished, later.value);
        current, cap, fill, finished := db.s.settles[later.value].balance.id, cap', fill', false;
      }
    }
  }

  lemma FirstIsThere(s: State, from: AssetId, id: nat)
    requires IsFirst(s.settles, from, id)
    ensures id in s.settles
  {
  }

  lemma Recached(s: State, t: State, now: nat, current: AssetId, cap: Asset, fill: Price, finished: bool, cap': Asset, fill': Price)
    requires Passing(s, t, now, current, cap, fill, finished) && Cached(t, cap', fill')
    ensures Passing(s, t, now, current, cap', fill', finished)
  {
  }

  lemma StartsPassing(s: State, now: nat, cap: Asset, fill: Price)
    requires Inv(s) && cap.id == CORE && fill.base.id == CORE
    ensures Passing(s, s, now, 0, cap, fill, false) && Rounds(s, 0, false) <= 4 * |s.settles| + 1
  {
    hide MaxVolume;
    NoneServed(s);
    InvFeedsValid(s);
    Fewer(Later(s.settles, 0), s.settles.Keys);
    assert |s.settles| == |s.settles.Keys|;
  }
}
