/** Borrowing and repaying: call_order_update in market_evaluator.cpp. */
module PositionUpdate {
  import opened Options
  import opened Prices
  import opened Sums
  import opened MarginCall
  import opened MarketState
  import opened MarketDatabase
  import opened OrderBook
  import opened Positions
  import opened Matching
  import opened Orders
  import opened MarketInvariant
  import opened MarginCalls
  import opened MarketOperations

  function DebtOf(s: State, k: (Account, AssetId)): nat {
    if k in s.calls then s.calls[k].debt.amount else 0
  }

  function CollateralOf(s: State, k: (Account, AssetId)): nat {
    if k in s.calls then s.calls[k].collateral.amount else 0
  }

  /// The position of `k` with new amounts; a position without debt is no position.
  function Put(m: Calls, k: (Account, AssetId), collateral: Asset, debt: nat, target: Option<nat>): Calls {
    if debt == 0 then m - {k} else m[k := CallOrder(k.0, collateral, Asset(debt, k.1), target)]
  }

  /// The borrower has got the new debt and paid in the new collateral.
  ghost predicate Exchanged(s: State, t: State, k: (Account, AssetId), backing: AssetId, deltaDebt: int, deltaCollateral: int) {
    && t.vesting == s.vesting && t.pendingFees == s.pendingFees
    && forall w: Account, x: AssetId ::
      t.Balance(w, x) == s.Balance(w, x)
      + (if w == k.0 && x == k.1 then deltaDebt else 0) - (if w == k.0 && x == backing then deltaCollateral else 0)
  }

  /// Only the position of `k` has changed; the borrower's balances and the supply have
  /// changed with it.
  ghost predicate Borrowed(s: State, t: State, k: (Account, AssetId), collateral: Asset, debt: nat, target: Option<nat>) {
    && SameSetup(s, t)
    && t.calls == Put(s.calls, k, collateral, debt, target)
    && t.Supply(k.1) == s.Supply(k.1) + debt - DebtOf(s, k)
    && (forall b: AssetId :: b != k.1 ==> t.Supply(b) == s.Supply(b))
    && t.limits == s.limits && t.settles == s.settles && t.bids == s.bids && t.nextId == s.nextId
    && t.revived <= s.revived <= t.revived + {k.1}
    && Exchanged(s, t, k, collateral.id, debt - DebtOf(s, k), collateral.amount - CollateralOf(s, k))
    && SameGaps(s, t) && SameDebtGaps(s, t)
  }

  /// The money of a position update: new debt is paid out and enters the supply,
  /// collateral is paid in.
  method MoveFunds(db: Database, who: Account, a: AssetId, backing: AssetId, deltaDebt: int, deltaCollateral: int) returns (ok: bool)
    requires a in db.s.assets && db.s.assets[a].supply + deltaDebt >= 0 && a != backing
    modifies db
    ensures ok <==> old(db.s).Balance(who, a) + deltaDebt >= 0 && old(db.s).Balance(who, backing) - deltaCollateral >= 0
    ensures ok ==>
      && SameSetup(old(db.s), db.s) && SameOrders(old(db.s), db.s)
      && db.s.Supply(a) == old(db.s).Supply(a) + deltaDebt
      && (forall b: AssetId :: b != a ==> db.s.Supply(b) == old(db.s).Supply(b))
      && Moves(old(db.s), db.s, backing, 0 - deltaCollateral)
      && Exchanged(old(db.s), db.s, (who, a), backing, deltaDebt, deltaCollateral)
  {
    hide Gap;
    hide SameCore;
    hide Adjusted;
    ghost var s0 := db.s;
    ok := db.AdjustBalance(who, a, deltaDebt);
    if !ok {
      return;
    }
    ghost var s1 := db.s;
    AdjustedBy(s0, s1, who, a, deltaDebt);
    SupplyMoves(db.s, a, db.s.assets[a].supply + deltaDebt);
    db.s := SetAsset(db.s, a, db.s.assets[a].(supply := db.s.assets[a].supply + deltaDebt));
    ghost var s2 := db.s;
    ok := db.AdjustBalance(who, backing, 0 - deltaCollateral);
    if ok { AdjustedBy(s2, db.s, who, backing, 0 - deltaCollateral); }
  }

  lemma AdjustedBy(s: State, t: State, who: Account, a: AssetId, d: int)
    requires s.Balance(who, a) + d >= 0 && t.balances == Adjusted(s.balances, who, a, d)
    ensures forall w: Account, x: AssetId :: t.Balance(w, x) == s.Balance(w, x) + if w == who && x == a then d else 0
  {
  }

  lemma ExchangedAlso(s: State, t: State, u: State, k: (Account, AssetId), backing: AssetId, deltaDebt: int, deltaCollateral: int)
    requires Exchanged(s, t, k, backing, deltaDebt, deltaCollateral)
    requires u.balances == t.balances && u.vesting == t.vesting && u.pendingFees == t.pendingFees
    ensures Exchanged(s, u, k, backing, deltaDebt, deltaCollateral)
  {
    assert forall w: Account, x: AssetId :: u.Balance(w, x) == t.Balance(w, x);
  }

  lemma PositionMoves(s: State, k: (Account, AssetId), collateral: Asset, debt: nat, target: Option<nat>, x: AssetId)
    requires k in s.calls ==> s.calls[k].debt.id == k.1 && s.calls[k].collateral.id == collateral.id
    requires debt == 0 ==> collateral.amount == 0
    ensures var t := s.(calls := Put(s.calls, k, collateral, debt, target));
      && Gap(t, x) == Gap(s, x) + (if x == collateral.id then collateral.amount - CollateralOf(s, k) else 0)
      && DebtGap(t, x) == DebtGap(s, x) + (if x == k.1 then debt - DebtOf(s, k) else 0)
  {
    CallGap(s, k, CallOrder(k.0, collateral, Asset(debt, k.1), target), x);
  }

  /** The books still balance and every debt is still in the supply after an update;
      so no amount exceeds the share supply either. */
  lemma BorrowedKeepsSound(s: State, t: State, k: (Account, AssetId), collateral: Asset, debt: nat, target: Option<nat>)
    requires Sound(s) && Borrowed(s, t, k, collateral, debt, target)
    requires s.MarketIssued(k.1) && !s.Settled(k.1) && collateral.id == s.assets[k.1].bitasset.value.backing
    requires t.Supply(k.1) <= MAX_SHARE_SUPPLY
    ensures Sound(t)
  {
    hide Gap;
    hide DebtGap;
    hide BookSound;
    StaysBacked(s, t);
    BorrowedAssets(s, t, k.1);
    SetupKeepsOthers(s, t);
    BorrowedCalls(s, t, k, collateral, debt, target);
    BookUnchanged(s, t);
  }

  lemma BorrowedAssets(s: State, t: State, a: AssetId)
    requires AssetsValid(s) && SameSetup(s, t) && !s.Settled(a) && t.Supply(a) <= MAX_SHARE_SUPPLY
    requires forall b: AssetId :: b != a ==> t.Supply(b) == s.Supply(b)
    ensures AssetsValid(t)
  {
    forall b <- t.assets ensures AssetValid(b, t.assets[b], t.assets.Keys) {
      assert AssetValid(b, s.assets[b], s.assets.Keys);
      assert s.assets[b].Setup().bitasset == t.assets[b].Setup().bitasset && s.assets[b].Setup().maxSupply == t.assets[b].Setup().maxSupply;
      assert s.assets[b].Setup().feePercent == t.assets[b].Setup().feePercent;
      assert b != a ==> t.Supply(b) == s.Supply(b);
    }
  }

  lemma BorrowedCalls(s: State, t: State, k: (Account, AssetId), collateral: Asset, debt: nat, target: Option<nat>)
    requires CallsValid(s) && Borrowed(s, t, k, collateral, debt, target) && Conserved(t) && Backed(t) && AssetsValid(t)
    requires s.MarketIssued(k.1) && !s.Settled(k.1) && collateral.id == s.assets[k.1].bitasset.value.backing
    ensures CallsValid(t)
  {
    hide Gap;
    hide DebtGap;
    forall a <- s.assets ensures s.assets[a].bitasset == t.assets[a].bitasset {
      assert s.assets[a].Setup().bitasset == t.assets[a].Setup().bitasset;
    }
    forall j <- t.calls ensures CallValid(t, j, t.calls[j]) {
      if j != k {
        assert CallValid(s, j, s.calls[j]);
      } else {
        NewPositionValid(t, k);
      }
    }
  }

  lemma NewPositionValid(t: State, k: (Account, AssetId))
    requires k in t.calls && Conserved(t) && Backed(t) && AssetsValid(t) && t.MarketIssued(k.1) && !t.Settled(k.1)
    requires forall j <- t.calls :: j.1 == t.calls[j].debt.id
    requires var c := t.calls[k];
      c.borrower == k.0 && c.debt.amount > 0 && c.collateral.id == t.assets[k.1].bitasset.value.backing
    ensures CallValid(t, k, t.calls[k])
  {
    var c := t.calls[k];
    assert AssetValid(k.1, t.assets[k.1], t.assets.Keys);
    assert AssetValid(c.collateral.id, t.assets[c.collateral.id], t.assets.Keys);
    CollateralWithinSupply(t, k);
    EntryAtMostSum(t.calls, k, DebtIn(k.1));
  }

  /// The checks of the evaluator before anything is changed.
  predicate MayUpdate(s: State, a: AssetId, collateralId: AssetId, deltaDebt: int, deltaCollateral: int) {
    && s.MarketIssued(a) && !s.Settled(a) && (deltaDebt != 0 || deltaCollateral != 0)
    && 0 <= s.assets[a].supply + deltaDebt <= s.assets[a].maxSupply
    && collateralId == BackingOf(s, a)
    && (if s.assets[a].bitasset.value.predictionMarket then deltaCollateral == deltaDebt
        else s.assets[a].bitasset.value.feed.Some?)
  }

  /// A new position needs both debt and collateral, an old one keeps both or is closed.
  predicate MayBecome(s: State, k: (Account, AssetId), deltaDebt: int, deltaCollateral: int) {
    var debt, collateral := DebtOf(s, k) + deltaDebt, CollateralOf(s, k) + deltaCollateral;
    if k !in s.calls then deltaDebt > 0 && deltaCollateral > 0
    else (debt == 0 && collateral == 0) || (debt > 0 && collateral > 0)
  }

  lemma MayBecomeNat(s: State, k: (Account, AssetId), deltaDebt: int, deltaCollateral: int)
    requires MayBecome(s, k, deltaDebt, deltaCollateral)
    ensures DebtOf(s, k) + deltaDebt >= 0 && CollateralOf(s, k) + deltaCollateral >= 0
    ensures DebtOf(s, k) + deltaDebt == 0 ==> CollateralOf(s, k) + deltaCollateral == 0
  {
  }

  /// The evaluator's part of call_order_update.
  method CheckUpdate(s: State, k: (Account, AssetId), collateralId: AssetId, deltaDebt: int, deltaCollateral: int) returns (ok: bool)
    ensures ok <==> MayUpdate(s, k.1, collateralId, deltaDebt, deltaCollateral) && MayBecome(s, k, deltaDebt, deltaCollateral)
  {
    if !s.MarketIssued(k.1) || s.Settled(k.1) || (deltaDebt == 0 && deltaCollateral == 0) {
      return false;
    }
    var d := s.assets[k.1];
    var b := d.bitasset.value;
    if d.supply + deltaDebt < 0 || d.supply + deltaDebt > d.maxSupply || collateralId != b.backing
      || (b.predictionMarket && deltaCollateral != deltaDebt) || (!b.predictionMarket && b.feed.None?)
    {
      return false;
    }
    if k !in s.calls {
      return deltaDebt > 0 && deltaCollateral > 0;
    }
    var debt, collateral := s.calls[k].debt.amount + deltaDebt, s.calls[k].collateral.amount + deltaCollateral;
    if debt == 0 || collateral == 0 {
      return debt == 0 && collateral == 0;
    }
    return debt > 0 && collateral > 0;
  }

  /// An update may leave a position below maintenance only if it improves it without
  /// adding debt.
  ghost predicate Safe(s: State, t: State, k: (Account, AssetId), feed: Feed)
    requires feed.price.Valid() && feed.mcr > 0
  {
    || k !in t.calls
    || !Called(feed, t.calls[k])
    || (k in s.calls && t.calls[k].debt.amount <= s.calls[k].debt.amount
        && Less(s.calls[k].Collateralization(), t.calls[k].Collateralization()))
  }

  lemma MetAfterUpdate(s: State, t: State, k: (Account, AssetId), collateral: Asset, debt: nat, target: Option<nat>)
    requires AllMet(s, {}) && Borrowed(s, t, k, collateral, debt, target) && t.revived == s.revived
    ensures MetBut(t, k.1)
    ensures debt == 0 || !Callable(s, k.1) ==> AllMet(t, {})
  {
    hide Gap;
    hide DebtGap;
    SameFeeds(s, t);
    forall b | b != k.1 || debt == 0 || !Callable(s, k.1) ensures NoneCallable(t, b, {}) {
      if Callable(s, b) {
        NoneCallableShrinks(s, t, b, {});
      }
    }
  }

  lemma FundsMoved(s: State, t: State, u: State, k: (Account, AssetId), collateral: Asset, debt: nat, target: Option<nat>)
    requires CallsValid(s) && s.MarketIssued(k.1) && collateral.id == s.assets[k.1].bitasset.value.backing
    requires debt == 0 ==> collateral.amount == 0
    requires SameSetup(s, t) && SameOrders(s, t)
    requires t.Supply(k.1) == s.Supply(k.1) + debt - DebtOf(s, k)
    requires forall b: AssetId :: b != k.1 ==> t.Supply(b) == s.Supply(b)
    requires Moves(s, t, collateral.id, CollateralOf(s, k) - collateral.amount)
    requires Exchanged(s, t, k, collateral.id, debt - DebtOf(s, k), collateral.amount - CollateralOf(s, k))
    requires u == t.(calls := Put(t.calls, k, collateral, debt, target))
    ensures Borrowed(s, u, k, collateral, debt, target) && u.revived == s.revived
  {
    hide Gap;
    hide Exchanged;
    ExchangedAlso(s, t, u, k, collateral.id, debt - DebtOf(s, k), collateral.amount - CollateralOf(s, k));
    if k in s.calls { assert CallValid(s, k, s.calls[k]); }
    forall x: AssetId ensures Gap(u, x) == Gap(s, x) && DebtGap(u, x) == DebtGap(s, x) {
      PositionMoves(t, k, collateral, debt, target, x);
      assert DebtGap(t, x) == DebtGap(s, x) - (if x == k.1 then debt - DebtOf(s, k) else 0);
    }
  }

  /// The update itself, before margin calls are made.
  method Borrow(db: Database, k: (Account, AssetId), collateral: Asset, debt: nat, target: Option<nat>) returns (ok: bool)
    requires Inv(db.s) && db.s.MarketIssued(k.1) && !db.s.Settled(k.1) && collateral.id == BackingOf(db.s, k.1)
    requires debt == 0 ==> collateral.amount == 0
    requires 0 <= db.s.Supply(k.1) + debt - DebtOf(db.s, k) <= db.s.assets[k.1].maxSupply
    modifies db
    ensures ok <==>
      && old(db.s).Balance(k.0, k.1) + debt - DebtOf(old(db.s), k) >= 0
      && old(db.s).Balance(k.0, collateral.id) - (collateral.amount - CollateralOf(old(db.s), k)) >= 0
    ensures ok ==> Sound(db.s) && MetBut(db.s, k.1) && Borrowed(old(db.s), db.s, k, collateral, debt, target)
    ensures ok && (debt == 0 || !Callable(old(db.s), k.1)) ==> Inv(db.s)
  {
    hide Gap;
    hide DebtGap;
    hide BookSound;
    hide NoneCallable;
    hide Borrowed;
    hide Conserved;
    hide SettlesValid;
    hide BidsValid;
    hide IdsIssued;
    hide CallsValid;
    hide Backed;
    hide Exchanged;
    ghost var s0 := db.s;
    var a := k.1;
    assert AssetValid(a, s0.assets[a], s0.assets.Keys);
    ok := MoveFunds(db, k.0, a, collateral.id, debt - DebtOf(db.s, k), collateral.amount - CollateralOf(db.s, k));
    if !ok {
      return;
    }
    ghost var s1 := db.s;
    db.s := db.s.(calls :=
      if debt == 0 then db.s.calls - {k} else db.s.calls[k := CallOrder(k.0, collateral, Asset(debt, k.1), target)]);
    FundsMoved(s0, s1, db.s, k, collateral, debt, target);
    BorrowedKeepsSound(s0, db.s, k, collateral, debt, target);
    MetAfterUpdate(s0, db.s, k, collateral, debt, target);
  }

  /// The update asked for, of the position of `k`.
  ghost predicate Updated(s: State, t: State, k: (Account, AssetId), deltaDebt: int, deltaCollateral: int, target: Option<nat>) {
    && s.MarketIssued(k.1) && DebtOf(s, k) + deltaDebt >= 0 && CollateralOf(s, k) + deltaCollateral >= 0
    && Borrowed(s, t, k, Asset(CollateralOf(s, k) + deltaCollateral, BackingOf(s, k.1)), DebtOf(s, k) + deltaDebt, target)
  }

  lemma UpdatedPosition(s: State, t: State, k: (Account, AssetId), deltaDebt: int, deltaCollateral: int, target: Option<nat>)
    requires Updated(s, t, k, deltaDebt, deltaCollateral, target)
    ensures k in t.calls <==> DebtOf(s, k) + deltaDebt > 0
    ensures k in t.calls ==> t.calls[k].debt.amount == DebtOf(s, k) + deltaDebt
    ensures SameSetup(s, t) && t.Settled(k.1) == s.Settled(k.1)
  {
    assert s.assets[k.1].Setup().bitasset == t.assets[k.1].Setup().bitasset;
  }

  lemma UpdatedWatched(s: State, t: State, k: (Account, AssetId), deltaDebt: int, deltaCollateral: int, target: Option<nat>)
    requires Updated(s, t, k, deltaDebt, deltaCollateral, target)
    ensures Updated(s, Watched(t, k.1), k, deltaDebt, deltaCollateral, target)
  {
    hide Gap;
    hide DebtGap;
    hide Exchanged;
    SameBooks(t, Watched(t, k.1));
    ExchangedAlso(s, t, Watched(t, k.1), k, BackingOf(s, k.1), deltaDebt, deltaCollateral);
  }

  lemma InvFeeds(s: State)
    requires Inv(s)
    ensures FeedsValid(s)
  {
  }

  /// The borrower can give back the debt repaid, or has the collateral added.
  predicate CanPay(s: State, k: (Account, AssetId), collateralId: AssetId, deltaDebt: int, deltaCollateral: int) {
    s.Balance(k.0, k.1) + deltaDebt >= 0 && s.Balance(k.0, collateralId) - deltaCollateral >= 0
  }

  /// What an update is refused for once it has been made: margin calls throw, or are made
  /// and leave the position, or it is in margin call territory and has not just improved.
  ghost predicate CannotStay(db: Database, s: State, k: (Account, AssetId), deltaDebt: int, deltaCollateral: int, target: Option<nat>) {
    exists t ::
      && Updated(s, t, k, deltaDebt, deltaCollateral, target)
      && (|| (exists u :: Trading(Watched(t, k.1), u, k.1)
               && (CallsThrow(db, u, k.1, false) || (k in u.calls && u.Supply(k.1) < t.Supply(k.1))))
          || (Callable(s, k.1) && FeedsValid(s) && !Safe(s, t, k, FeedOf(s, k.1))))
  }

  /// call_order_update
  method UpdatePosition(db: Database, who: Account, a: AssetId, deltaDebt: int,
                        collateralId: AssetId, deltaCollateral: int, target: Option<nat>) returns (r: Result)
    requires Inv(db.s)
    modifies db
    ensures r.Accepted? ==> Inv(db.s)
    ensures !r.Accepted? ==> db.s == old(db.s)
    ensures r.Accepted? ==>
      && MayUpdate(old(db.s), a, collateralId, deltaDebt, deltaCollateral)
      && MayBecome(old(db.s), (who, a), deltaDebt, deltaCollateral)
      && (exists t ::
        && Updated(old(db.s), t, (who, a), deltaDebt, deltaCollateral, target)
        && if DebtOf(old(db.s), (who, a)) + deltaDebt == 0 || old(db.s).assets[a].bitasset.value.predictionMarket then db.s == t
           else Trading(Watched(t, a), db.s, a))
      && ((who, a) in db.s.calls || DebtOf(old(db.s), (who, a)) + deltaDebt == 0 ==>
        Updated(old(db.s), db.s, (who, a), deltaDebt, deltaCollateral, target))
      && (Callable(old(db.s), a) ==> FeedsValid(old(db.s)) && Safe(old(db.s), db.s, (who, a), FeedOf(old(db.s), a)))
    ensures r.Accepted? ==> CanPay(old(db.s), (who, a), collateralId, deltaDebt, deltaCollateral)
    ensures r.Rejected? ==>
      || !MayUpdate(old(db.s), a, collateralId, deltaDebt, deltaCollateral)
      || !MayBecome(old(db.s), (who, a), deltaDebt, deltaCollateral)
      || !CanPay(old(db.s), (who, a), collateralId, deltaDebt, deltaCollateral)
      || CannotStay(db, old(db.s), (who, a), deltaDebt, deltaCollateral, target)
    ensures r.Hangs? ==> exists t, u ::
      && Updated(old(db.s), t, (who, a), deltaDebt, deltaCollateral, target) && Inexact(t, a)
      && Trading(Watched(t, a), u, a) && JamsAtOrder(u, a)
  {
    hide Gap;
    hide DebtGap;
    hide Borrowed;
    hide Called;
    hide Inexact;
    hide JamsAtOrder;
    hide Inv;
    hide Sound;
    hide MetBut;
    hide FeedsValid;
    hide Trading;
    hide Less;
    hide CallsThrow;
    hide MayBecome;
    var k := (who, a);
    var may := CheckUpdate(db.s, k, collateralId, deltaDebt, deltaCollateral);
    if !may {
      return Rejected;
    }
    var saved := db.s;
    InvFeeds(saved);
    MayBecomeNat(saved, k, deltaDebt, deltaCollateral);
    var debt, collateral := DebtOf(db.s, k) + deltaDebt, Asset(CollateralOf(db.s, k) + deltaCollateral, collateralId);
    var ok := Borrow(db, k, collateral, debt, target);
    if !ok {
      db.s := saved;
      return Rejected;
    }
    ghost var s1 := db.s;
    assert Updated(saved, s1, k, deltaDebt, deltaCollateral, target);
    UpdatedPosition(saved, s1, k, deltaDebt, deltaCollateral, target);
    UpdatedWatched(saved, s1, k, deltaDebt, deltaCollateral, target);
    if debt == 0 || saved.assets[a].bitasset.value.predictionMarket {
      return Accepted;
    }
    var m, called := CheckCallOrders(db, a, false);
    if m.Thrown? {
      db.s := saved;
      return Rejected;
    }
    if m.Endless? {
      db.s := saved;
      return Hangs;
    }
    if called && k in db.s.calls {
      db.s := saved;
      return Rejected;
    }
    if !called {
      var c := db.s.calls[k];
      if Called(FeedOf(saved, a), c)
        && !(k in saved.calls && c.debt.amount <= saved.calls[k].debt.amount
             && Less(saved.calls[k].Collateralization(), c.Collateralization()))
      {
        db.s := saved;
        return Rejected;
      }
    }
    return Accepted;
  }
}
