/** Runs of market operations from the first state on. */
module MarketRuns {
  import opened Options
  import opened Prices
  import opened Sums
  import opened MarginCall
  import opened MarketState
  import opened MarketDatabase
  import opened OrderBook
  import opened Positions
  import opened Matching
  import opened Orders
  import opened GlobalSettlement
  import opened MarketInvariant
  import opened MarginCalls
  import opened MarketOperations
  import opened PositionUpdate
  import opened Settlements
  import opened Revival
  import opened Feeds
  import opened SettlementPass

  datatype Operation =
    | CreateOrder(seller: Account, sell: Asset, receive: Asset, fillOrKill: bool, fee: Asset, coreFee: nat, expiration: nat, now: nat)
    | CancelOrder(seller: Account, id: nat)
    | Expire(now: nat)
    | ServeSettlements(now: nat)
    | UpdateCall(who: Account, debt: AssetId, deltaDebt: int, collateral: AssetId, deltaCollateral: int, target: Option<nat>)
    | SettleAsset(who: Account, amount: Asset, allowed: bool, date: nat)
    | GlobalSettle(asset: AssetId, price: Price, permitted: bool)
    | PlaceBid(bidder: Account, additional: Asset, covered: Asset)
    | ApplyBids(asset: AssetId)
    | PublishFeed(asset: AssetId, feed: Option<Feed>, issuer: Account)

  // ------------------------------------------------------------------
  // A first state

  /// Accounts hold the whole supply of every asset; nothing else exists.
  ghost predicate IsGenesis(s: State) {
    && s.vesting == map[] && s.pendingFees == map[] && s.limits == map[] && s.calls == map[]
    && s.settles == map[] && s.bids == map[] && s.revived == {}
    && CORE in s.assets && (forall k <- s.balances :: k.1 in s.assets)
    && forall a <- s.assets ::
      var d := s.assets[a];
      && AssetValid(a, d, s.assets.Keys) && d.accumulatedFees == 0 && d.feePool == 0
      && d.supply == Sum(s.balances, BalanceIn(a))
      && (d.bitasset.Some? ==> d.supply == 0 && d.bitasset.value.settlement.None?)
  }

  lemma GenesisConserved(s: State)
    requires IsGenesis(s)
    ensures Conserved(s)
  {
    forall a: AssetId ensures Gap(s, a) == 0 {
      assert forall k <- s.assets :: FundsIn(a)(k, s.assets[k]) == 0;
      SumOfZeros(s.assets, FundsIn(a));
      if a !in s.assets {
        assert forall k <- s.balances :: BalanceIn(a)(k, s.balances[k]) == 0;
        SumOfZeros(s.balances, BalanceIn(a));
      }
    }
  }

  /** The chain starts in a state that satisfies the invariant. */
  lemma GenesisInv(s: State)
    requires IsGenesis(s)
    ensures Inv(s)
  {
    hide Gap;
    GenesisConserved(s);
    SoundFeeds(s);
  }

  // ------------------------------------------------------------------
  // Settlements last

  /// A settled asset stays settled, at the price it was settled at.
  ghost predicate KeepsSettlement(s: State, t: State, a: AssetId) {
    s.Settled(a) ==>
      && t.Settled(a)
      && t.assets[a].bitasset.value.settlement.value.price == s.assets[a].bitasset.value.settlement.value.price
  }

  lemma SetupKeeps(s: State, t: State, a: AssetId)
    requires SameSetup(s, t)
    ensures KeepsSettlement(s, t, a)
  {
    if s.Settled(a) { assert s.assets[a].Setup().bitasset == t.assets[a].Setup().bitasset; }
  }

  lemma CoreKeeps(s: State, t: State, a: AssetId)
    requires SameCore(s, t)
    ensures KeepsSettlement(s, t, a)
  {
    CoreBurnsNothing(s, t, CORE);
    SetupKeeps(s, t, a);
  }

  lemma FundsKeep(s: State, t: State, u: State, seller: Account, sell: Asset, fee: Asset, coreFee: nat, o: LimitOrder, a: AssetId)
    requires FundsTaken(s, t, seller, sell, fee, coreFee) && Trading(WithOrder(t, o), u, sell.id)
    ensures KeepsSettlement(s, u, a)
  {
    hide Gap;
    hide DebtGap;
    SetupKeeps(WithOrder(t, o), u, a);
  }

  lemma SettlementKeepsOther(s: State, t: State, b: AssetId, p: Price, a: AssetId)
    requires GloballySettled(s, t, b, p)
    ensures KeepsSettlement(s, t, a)
  {
  }

  lemma CallsKeep(s: State, t: State, b: AssetId, a: AssetId)
    requires CallsMade(s, t, b)
    ensures KeepsSettlement(s, t, a)
  {
    hide Trading;
    hide GloballySettled;
    hide Times;
    hide Squeezes;
    hide Called;
    hide Supported;
    if Trading(s, t, b) {
      TradingKeepsAssets(s, t, b);
      SetupKeeps(s, t, a);
    } else {
      var u :| Trading(s, u, b) && (StruckBySwan(u, t, b) || Overrun(u, t, b));
      TradingKeepsAssets(s, u, b);
      SetupKeeps(s, u, a);
      if StruckBySwan(u, t, b) {
        var feed := u.assets[b].bitasset.value.feed.value;
        var k :| k in u.calls && GloballySettled(u, t, b, SwanPrice(u.calls[k], feed));
        SettlementKeepsOther(u, t, b, SwanPrice(u.calls[k], feed), a);
      } else {
        SettlementKeepsOther(u, t, b, FeedOf(u, b).price, a);
      }
    }
  }

  lemma UpdateKeeps(s: State, t: State, u: State, k: (Account, AssetId), deltaDebt: int, deltaCollateral: int, target: Option<nat>, a: AssetId)
    requires Updated(s, t, k, deltaDebt, deltaCollateral, target) && (u == t || Trading(Watched(t, k.1), u, k.1))
    ensures KeepsSettlement(s, u, a)
  {
    hide Gap;
    hide DebtGap;
    hide Trading;
    SetupKeeps(s, t, a);
    if u != t {
      TradingKeepsAssets(Watched(t, k.1), u, k.1);
      SetupKeeps(Watched(t, k.1), u, a);
    }
  }

  lemma ServedKeeps(s: State, t: State, a: AssetId)
    requires Served(s, t)
    ensures KeepsSettlement(s, t, a)
  {
    if s.Settled(a) { SameFrame(s.assets[a], t.assets[a]); }
  }

  lemma RevivalKeepsOther(s: State, t: State, b: AssetId, a: AssetId)
    requires Revives(s, t, b) && a != b
    ensures KeepsSettlement(s, t, a)
  {
    hide SameGaps;
    hide DebtGap;
    RevivesElsewhere(s, t, b);
  }

  lemma FeedKeepsOther(s: State, t: State, u: State, b: AssetId, feed: Option<Feed>, issuer: Account, a: AssetId)
    requires Published(s, t, b, feed, issuer) && CallsMade(Watched(t, b), u, b) && a != b
    ensures KeepsSettlement(s, u, a)
  {
    hide Revives;
    hide ShouldRevive;
    var w := WithFeed(s, b, feed);
    if w.Settled(b) && ShouldRevive(w, b) { RevivalKeepsOther(w, t, b, a); }
    CallsKeep(Watched(t, b), u, b, a);
  }

  lemma ClaimKeeps(s: State, t: State, b: AssetId, a: AssetId)
    requires OnlySettled(s, t, b)
    ensures KeepsSettlement(s, t, a)
  {
    if a != b { OnlySettledElsewhere(s, t, b, a); }
  }

  /// Operations that may bring the asset back.
  predicate MayRevive(op: Operation, a: AssetId) {
    (op.ApplyBids? || op.PublishFeed?) && op.asset == a
  }

  ghost predicate SettlementsKept(s: State, t: State, op: Operation) {
    forall a :: !MayRevive(op, a) ==> KeepsSettlement(s, t, a)
  }

  lemma CreateKeeps(s: State, u: State, op: Operation)
    requires op.CreateOrder? && exists t ::
      && FundsTaken(s, t, op.seller, op.sell, op.fee, op.coreFee)
      && Trading(WithOrder(t, NewOrder(op.seller, op.sell, op.receive, op.fee, op.coreFee, op.expiration)), u, op.sell.id)
    ensures SettlementsKept(s, u, op)
  {
    hide FundsTaken;
    hide Trading;
    hide KeepsSettlement;
    var o := NewOrder(op.seller, op.sell, op.receive, op.fee, op.coreFee, op.expiration);
    var t :| FundsTaken(s, t, op.seller, op.sell, op.fee, op.coreFee) && Trading(WithOrder(t, o), u, op.sell.id);
    forall a { FundsKeep(s, t, u, op.seller, op.sell, op.fee, op.coreFee, o, a); }
  }

  lemma UpdateCallKeeps(s: State, u: State, op: Operation)
    requires op.UpdateCall? && s.MarketIssued(op.debt) && exists t ::
      && Updated(s, t, (op.who, op.debt), op.deltaDebt, op.deltaCollateral, op.target)
      && if DebtOf(s, (op.who, op.debt)) + op.deltaDebt == 0 || s.assets[op.debt].bitasset.value.predictionMarket then u == t
         else Trading(Watched(t, op.debt), u, op.debt)
    ensures SettlementsKept(s, u, op)
  {
    hide Updated;
    hide Trading;
    hide KeepsSettlement;
    var k := (op.who, op.debt);
    var t :| Updated(s, t, k, op.deltaDebt, op.deltaCollateral, op.target) && (u == t || Trading(Watched(t, op.debt), u, op.debt));
    forall a { UpdateKeeps(s, t, u, k, op.deltaDebt, op.deltaCollateral, op.target, a); }
  }

  lemma PublishKeeps(s: State, u: State, op: Operation)
    requires op.PublishFeed? && exists t ::
      Published(s, t, op.asset, op.feed, op.issuer) && CallsMade(Watched(t, op.asset), u, op.asset)
    ensures SettlementsKept(s, u, op)
  {
    hide Published;
    hide CallsMade;
    hide KeepsSettlement;
    var t :| Published(s, t, op.asset, op.feed, op.issuer) && CallsMade(Watched(t, op.asset), u, op.asset);
    forall a | a != op.asset ensures KeepsSettlement(s, u, a) { FeedKeepsOther(s, t, u, op.asset, op.feed, op.issuer, a); }
  }

  lemma SameKeeps(s: State, op: Operation)
    ensures SettlementsKept(s, s, op)
  {
  }

  lemma CoreKeepsAll(s: State, t: State, op: Operation)
    requires SameCore(s, t)
    ensures SettlementsKept(s, t, op)
  {
    forall a { CoreKeeps(s, t, a); }
  }

  // ------------------------------------------------------------------
  // What operations do

  /// What an operation that is carried out makes of the state.
  ghost predicate Performed(db: Database, s: State, t: State, op: Operation) {
    match op
    case CreateOrder(seller, sell, receive, fillOrKill, fee, coreFee, expiration, now) =>
      && MayPlace(db, s, seller, sell, receive, fee, coreFee, expiration, now)
      && (fillOrKill ==> s.nextId !in t.limits)
      && (exists u ::
           && FundsTaken(s, u, seller, sell, fee, coreFee)
           && Trading(WithOrder(u, NewOrder(seller, sell, receive, fee, coreFee, expiration)), t, sell.id))
    case CancelOrder(seller, id) => Cancelled(db, s, t, seller, id)
    case Expire(now) => Expired(db, s, t, now)
    case ServeSettlements(now) => Served(s, t) && forall b: AssetId :: Exhausted(t, b, now)
    case UpdateCall(who, debt, deltaDebt, collateral, deltaCollateral, target) =>
      && MayUpdate(s, debt, collateral, deltaDebt, deltaCollateral) && MayBecome(s, (who, debt), deltaDebt, deltaCollateral)
      && (exists u ::
           && Updated(s, u, (who, debt), deltaDebt, deltaCollateral, target)
           && if DebtOf(s, (who, debt)) + deltaDebt == 0 || s.assets[debt].bitasset.value.predictionMarket then t == u
              else Trading(Watched(u, debt), t, debt))
      && (Callable(s, debt) ==> FeedsValid(s) && Safe(s, t, (who, debt), FeedOf(s, debt)))
    case SettleAsset(who, amount, allowed, date) =>
      && MaySettle(s, who, amount, allowed)
      && (if s.Settled(amount.id) then ClaimPaid(s, t, who, amount.id, amount.amount) else Requested(s, t, who, amount, date))
    case GlobalSettle(asset, price, permitted) =>
      MaySettleGlobally(s, asset, permitted) && LeastPays(s, asset, price, true) && GloballySettled(s, t, asset, price)
    case PlaceBid(bidder, additional, covered) => MayBid(s, bidder, additional, covered) && BidReplaced(s, t, bidder, additional, covered)
    case ApplyBids(asset) => s.Settled(asset) && (if t == s then NothingToRevive(s, asset) else BidsApplied(s, t, asset))
    case PublishFeed(asset, feed, issuer) => MayPublish(s, asset, feed) && FeedChanged(s, t, asset, feed, issuer)
  }

  /// What an operation is refused for.
  ghost predicate Refused(db: Database, s: State, op: Operation) {
    match op
    case CreateOrder(seller, sell, receive, fillOrKill, fee, coreFee, expiration, now) =>
      || !MayPlace(db, s, seller, sell, receive, fee, coreFee, expiration, now)
      || CannotPlace(db, s, NewOrder(seller, sell, receive, fee, coreFee, expiration), sell, fee, coreFee, fillOrKill)
    case CancelOrder(seller, id) => id !in s.limits || s.limits[id].seller != seller
    case Expire(now) => false
    case ServeSettlements(now) => !CoversAll(s)
    case UpdateCall(who, debt, deltaDebt, collateral, deltaCollateral, target) =>
      || !MayUpdate(s, debt, collateral, deltaDebt, deltaCollateral) || !MayBecome(s, (who, debt), deltaDebt, deltaCollateral)
      || !CanPay(s, (who, debt), collateral, deltaDebt, deltaCollateral)
      || CannotStay(db, s, (who, debt), deltaDebt, deltaCollateral, target)
    case SettleAsset(who, amount, allowed, date) => !MaySettle(s, who, amount, allowed)
    case GlobalSettle(asset, price, permitted) =>
      || !MaySettleGlobally(s, asset, permitted) || LeastPays(s, asset, price, false) || !AllPayable(s.calls, asset, price)
    case PlaceBid(bidder, additional, covered) => !MayBid(s, bidder, additional, covered)
    case ApplyBids(asset) =>
      s.Settled(asset) ==>
        var b := s.assets[asset].bitasset.value;
        !b.predictionMarket && b.feed.Some? && b.settlement.value.price.quote.amount == 0
    case PublishFeed(asset, feed, issuer) =>
      MayPublish(s, asset, feed) ==> exists t, u ::
        Published(s, t, asset, feed, issuer) && Trading(Watched(t, asset), u, asset) && CallsThrow(db, u, asset, true)
  }

  /// Trading leads to a match that would be repeated for ever.
  ghost predicate Hung(s: State, op: Operation) {
    match op
    case CreateOrder(seller, sell, receive, fillOrKill, fee, coreFee, expiration, now) =>
      exists t, u ::
        && FundsTaken(s, t, seller, sell, fee, coreFee)
        && Trading(WithOrder(t, NewOrder(seller, sell, receive, fee, coreFee, expiration)), u, sell.id)
        && Jams(u, sell.id)
    case UpdateCall(who, debt, deltaDebt, collateral, deltaCollateral, target) =>
      exists t, u ::
        && Updated(s, t, (who, debt), deltaDebt, deltaCollateral, target) && Inexact(t, debt)
        && Trading(Watched(t, debt), u, debt) && JamsAtOrder(u, debt)
    case PublishFeed(asset, feed, issuer) =>
      exists t, u :: Published(s, t, asset, feed, issuer) && Trading(Watched(t, asset), u, asset) && JamsAtOrder(u, asset)
    case _ => false
  }

  /// One step of a run: the operation is carried out, or leaves no trace for a reason.
  ghost predicate Step(db: Database, s: State, t: State, op: Operation) {
    Performed(db, s, t, op) || (t == s && (Refused(db, s, op) || Hung(s, op)))
  }

  /// An operation, or a part of applying a block, in its undo session.
  method Perform(db: Database, op: Operation) returns (r: Result)
    requires Inv(db.s)
    modifies db
    ensures Inv(db.s)
    ensures r.Accepted? ==> Performed(db, old(db.s), db.s, op)
    ensures !r.Accepted? ==> db.s == old(db.s)
    ensures r.Rejected? ==> Refused(db, old(db.s), op)
    ensures r.Hangs? ==> Hung(old(db.s), op)
  {
    hide Gap;
    hide Inv;
    hide SameCore;
    hide FundsTaken;
    hide Trading;
    hide Updated;
    hide Published;
    hide CallsMade;
    hide GloballySettled;
    hide Revives;
    hide OnlySettled;
    hide OnlyBids;
    hide Served;
    hide Inexact;
    hide Jams;
    hide JamsAtOrder;
    hide CoversAll;
    hide Exhausted;
    hide Cancelled;
    hide Expired;
    hide MayPlace;
    hide CannotPlace;
    hide MayUpdate;
    hide MayBecome;
    hide CanPay;
    hide CannotStay;
    hide Safe;
    hide FeedsValid;
    hide MaySettle;
    hide ClaimPaid;
    hide Requested;
    hide MaySettleGlobally;
    hide LeastPays;
    hide AllPayable;
    hide MayBid;
    hide BidReplaced;
    hide NothingToRevive;
    hide BidsApplied;
    hide FeedChanged;
    hide MayPublish;
    hide CallsThrow;
    match op {
      case CreateOrder(seller, sell, receive, fillOrKill, fee, coreFee, expiration, now) =>
        r := CreateLimitOrder(db, seller, sell, receive, fillOrKill, fee, coreFee, expiration, now);
      case CancelOrder(seller, id) =>
        r := MarketOperations.CancelOrder(db, seller, id);
      case Expire(now) =>
        CancelExpired(db, now);
        r := Accepted;
      case ServeSettlements(now) =>
        var saved := db.s;
        var ok, count := ServeRequests(db, now);
        r := Accepted;
        if !ok {
          db.s := saved;
          r := Rejected;
        }
      case UpdateCall(who, debt, deltaDebt, collateral, deltaCollateral, target) =>
        r := UpdatePosition(db, who, debt, deltaDebt, collateral, deltaCollateral, target);
      case SettleAsset(who, amount, allowed, date) =>
        r := Settle(db, who, amount, allowed, date);
      case GlobalSettle(asset, price, permitted) =>
        r := SettleGlobally(db, asset, price, permitted);
      case PlaceBid(bidder, additional, covered) =>
        r := BidCollateral(db, bidder, additional, covered);
      case ApplyBids(asset) =>
        r := Rejected;
        if db.s.Settled(asset) {
          var ok := ProcessBids(db, asset);
          r := if ok then Accepted else Rejected;
        }
      case PublishFeed(asset, feed, issuer) =>
        r := ChangeFeed(db, asset, feed, issuer);
    }
  }

  lemma ServedKeepsAll(s: State, t: State, op: Operation)
    requires Served(s, t)
    ensures SettlementsKept(s, t, op)
  {
    hide KeepsSettlement;
    hide Served;
    forall a { ServedKeeps(s, t, a); }
  }

  lemma SettleKeeps(s: State, t: State, op: Operation)
    requires op.SettleAsset? && (s.Settled(op.amount.id) ==> ClaimPaid(s, t, op.who, op.amount.id, op.amount.amount))
    requires !s.Settled(op.amount.id) ==> Requested(s, t, op.who, op.amount, op.date)
    ensures SettlementsKept(s, t, op)
  {
    hide KeepsSettlement;
    hide OnlySettled;
    if s.Settled(op.amount.id) {
      forall a { ClaimKeeps(s, t, op.amount.id, a); }
    } else {
      CoreKeepsAll(s, t, op);
    }
  }

  lemma SettledKeepsAll(s: State, t: State, b: AssetId, p: Price, op: Operation)
    requires GloballySettled(s, t, b, p)
    ensures SettlementsKept(s, t, op)
  {
    hide KeepsSettlement;
    hide GloballySettled;
    forall a { SettlementKeepsOther(s, t, b, p, a); }
  }

  lemma BidKeeps(s: State, t: State, op: Operation)
    requires op.PlaceBid? && BidReplaced(s, t, op.bidder, op.additional, op.covered)
    ensures SettlementsKept(s, t, op)
  {
    CoreKeepsAll(s, t, op);
  }

  lemma ReviveKeepsAll(s: State, t: State, op: Operation)
    requires op.ApplyBids? && BidsApplied(s, t, op.asset)
    ensures SettlementsKept(s, t, op)
  {
    hide KeepsSettlement;
    hide Revives;
    hide FromBids;
    hide Realized;
    hide RestReturned;
    forall a | a != op.asset ensures KeepsSettlement(s, t, a) { RevivalKeepsOther(s, t, op.asset, a); }
  }

  lemma CancelKeeps(s: State, t: State, op: Operation, db: Database)
    requires (op.CancelOrder? && Cancelled(db, s, t, op.seller, op.id)) || (op.Expire? && Expired(db, s, t, op.now))
    ensures SettlementsKept(s, t, op)
  {
    CoreKeepsAll(s, t, op);
  }

  lemma FeedKeeps(s: State, t: State, op: Operation)
    requires op.PublishFeed? && FeedChanged(s, t, op.asset, op.feed, op.issuer)
    ensures SettlementsKept(s, t, op)
  {
    hide Published;
    hide CallsMade;
    hide SettlementsKept;
    SameKeeps(s, op);
    if t != s { PublishKeeps(s, t, op); }
  }

  /** Whatever an operation does, an asset that it may not revive stays settled at its price. */
  lemma StepKeeps(db: Database, s: State, t: State, op: Operation)
    requires Step(db, s, t, op)
    ensures SettlementsKept(s, t, op)
  {
    hide SettlementsKept;
    hide FundsTaken;
    hide Trading;
    hide Updated;
    hide GloballySettled;
    hide Served;
    hide Exhausted;
    hide Cancelled;
    hide Expired;
    hide MayPlace;
    hide MayBecome;
    hide Safe;
    hide FeedsValid;
    hide MaySettle;
    hide ClaimPaid;
    hide Requested;
    hide MaySettleGlobally;
    hide LeastPays;
    hide MayBid;
    hide BidReplaced;
    hide NothingToRevive;
    hide BidsApplied;
    hide FeedChanged;
    hide MayPublish;
    hide Refused;
    hide Hung;
    SameKeeps(s, op);
    if t != s {
      match op
      case CreateOrder(_, _, _, _, _, _, _, _) => CreateKeeps(s, t, op);
      case CancelOrder(_, _) => CancelKeeps(s, t, op, db);
      case Expire(_) => CancelKeeps(s, t, op, db);
      case ServeSettlements(_) => ServedKeepsAll(s, t, op);
      case UpdateCall(_, _, _, _, _, _) => UpdateCallKeeps(s, t, op);
      case SettleAsset(_, _, _, _) => SettleKeeps(s, t, op);
      case GlobalSettle(asset, price, _) => SettledKeepsAll(s, t, asset, price, op);
      case PlaceBid(_, _, _) => BidKeeps(s, t, op);
      case ApplyBids(_) => ReviveKeepsAll(s, t, op);
      case PublishFeed(_, _, _) => FeedKeeps(s, t, op);
    }
  }

  // ------------------------------------------------------------------
  // Which assets are not watched

  lemma TradedWatch(s: State, t: State, a: AssetId)
    requires Trading(s, t, a)
    ensures t.revived == s.revived
  {
  }

  lemma CreateWatch(s: State, u: State, op: Operation)
    requires op.CreateOrder? && exists t ::
      && FundsTaken(s, t, op.seller, op.sell, op.fee, op.coreFee)
      && Trading(WithOrder(t, NewOrder(op.seller, op.sell, op.receive, op.fee, op.coreFee, op.expiration)), u, op.sell.id)
    ensures u.revived == s.revived
  {
    hide Trading;
    var o := NewOrder(op.seller, op.sell, op.receive, op.fee, op.coreFee, op.expiration);
    var t :| FundsTaken(s, t, op.seller, op.sell, op.fee, op.coreFee) && Trading(WithOrder(t, o), u, op.sell.id);
    TradedWatch(WithOrder(t, o), u, op.sell.id);
  }

  lemma UpdateWatch(s: State, u: State, op: Operation)
    requires op.UpdateCall? && s.MarketIssued(op.debt) && exists t ::
      && Updated(s, t, (op.who, op.debt), op.deltaDebt, op.deltaCollateral, op.target)
      && if DebtOf(s, (op.who, op.debt)) + op.deltaDebt == 0 || s.assets[op.debt].bitasset.value.predictionMarket then u == t
         else Trading(Watched(t, op.debt), u, op.debt)
    ensures u.revived <= s.revived
  {
    hide Trading;
    hide Gap;
    hide DebtGap;
    hide Exchanged;
    var k := (op.who, op.debt);
    var t :| Updated(s, t, k, op.deltaDebt, op.deltaCollateral, op.target) && (u == t || Trading(Watched(t, op.debt), u, op.debt));
    if u != t { TradedWatch(Watched(t, op.debt), u, op.debt); }
  }

  lemma CallsWatch(s: State, t: State, a: AssetId)
    requires CallsMade(s, t, a)
    ensures t.revived == s.revived
  {
    hide Trading;
    hide Times;
    hide Squeezes;
    hide Called;
    hide Supported;
    hide SameGaps;
    hide Reimbursed;
    hide AllPayable;
    if Trading(s, t, a) {
      TradedWatch(s, t, a);
    } else {
      var u :| Trading(s, u, a) && (StruckBySwan(u, t, a) || Overrun(u, t, a));
      TradedWatch(s, u, a);
    }
  }

  lemma FeedWatch(s: State, t: State, op: Operation)
    requires op.PublishFeed? && FeedChanged(s, t, op.asset, op.feed, op.issuer)
    ensures t.revived <= s.revived
  {
    hide CallsMade;
    hide ShouldRevive;
    hide NoneCalled;
    hide SameGaps;
    hide DebtGap;
    hide TakenOver;
    if t != s {
      var u :| Published(s, u, op.asset, op.feed, op.issuer) && CallsMade(Watched(u, op.asset), t, op.asset);
      CallsWatch(Watched(u, op.asset), t, op.asset);
      assert u.revived - {op.asset} == s.revived - {op.asset};
    }
  }

  lemma BidsWatch(s: State, t: State, a: AssetId)
    requires BidsApplied(s, t, a)
    ensures t.revived <= s.revived + {a} && (a in t.revived <==> !NoneCalled(s, t.calls, a))
  {
    hide Realized;
    hide FromBids;
    hide RestReturned;
    hide NoneCalled;
    hide SameGaps;
    hide DebtGap;
    forall b | b in t.revived && b != a ensures b in s.revived {
      assert b in t.revived - {a};
    }
  }

  lemma SettleWatch(s: State, t: State, who: Account, amount: Asset, date: nat)
    requires ClaimPaid(s, t, who, amount.id, amount.amount) || Requested(s, t, who, amount, date)
    ensures t.revived == s.revived
  {
    hide OnlySettled;
    hide Gives;
    hide Gets;
  }

  lemma SwanWatch(s: State, t: State, a: AssetId, p: Price)
    requires GloballySettled(s, t, a, p)
    ensures t.revived == s.revived
  {
  }

  /// Bids are applied of which one becomes a position that is called.
  ghost predicate Exposes(s: State, t: State, op: Operation) {
    op.ApplyBids? && t != s && BidsApplied(s, t, op.asset) && !NoneCalled(s, t.calls, op.asset)
  }

  /** That takes a bid which is not above maintenance, so one that is not judged exactly. */
  lemma ExposedByBid(s: State, t: State, op: Operation)
    requires Exposes(s, t, op)
    ensures
      var d := s.assets[op.asset];
      var st, feed := d.bitasset.value.settlement.value, d.bitasset.value.feed.value;
      exists k <- s.bids ::
        && k.0 == op.asset && d.supply > 0 && Passes(s.bids[k], d.supply, st, feed)
        && !Above(s.bids[k], d.supply, st, feed) && !JudgedExactly(s.bids[k], d.supply, st, feed)
  {
    hide Revives;
    hide Realized;
    hide RestReturned;
    hide Passes;
    hide Above;
    hide JudgedExactly;
    hide Called;
    hide Funded;
    var feed := s.assets[op.asset].bitasset.value.feed.value;
    var k :| k in t.calls && k.1 == op.asset && Called(feed, t.calls[k]);
    assert (op.asset, k.0) in s.bids;
  }

  /** Only such bids take an asset out of sight. */
  lemma StepWatch(db: Database, s: State, t: State, op: Operation)
    requires Step(db, s, t, op) && !Exposes(s, t, op)
    ensures t.revived <= s.revived
  {
    hide FundsTaken;
    hide Trading;
    hide Updated;
    hide SameCore;
    hide GloballySettled;
    hide ClaimPaid;
    hide Requested;
    hide Exhausted;
    hide MayPlace;
    hide MayBecome;
    hide Safe;
    hide FeedsValid;
    hide MaySettle;
    hide MaySettleGlobally;
    hide LeastPays;
    hide MayBid;
    hide NothingToRevive;
    hide BidsApplied;
    hide NoneCalled;
    hide FeedChanged;
    hide MayPublish;
    hide Refused;
    hide Hung;
    if t != s {
      match op
      case CreateOrder(_, _, _, _, _, _, _, _) => CreateWatch(s, t, op);
      case UpdateCall(_, _, _, _, _, _) => UpdateWatch(s, t, op);
      case SettleAsset(who, amount, _, date) => SettleWatch(s, t, who, amount, date);
      case GlobalSettle(asset, price, _) => SwanWatch(s, t, asset, price);
      case ApplyBids(a) => BidsWatch(s, t, a);
      case PublishFeed(_, _, _) => FeedWatch(s, t, op);
      case _ =>
    }
  }

  // ------------------------------------------------------------------
  // Every run

  /// What the tests check after every block, and what the order book promises.
  ghost predicate Healthy(s: State) {
    && Conserved(s)
    && Uncrossed(s.limits) && Worth(s.limits)
    && Backed(s) && (forall a: AssetId, w: Account :: s.Settled(a) ==> (w, a) !in s.calls)
    && forall a :: s.Settled(a) ==>
      Solvent(a, s.Supply(a), s.assets[a].bitasset.value.backing, s.assets[a].bitasset.value.settlement.value)
  }

  lemma InvHealthy(s: State)
    requires Inv(s)
    ensures Healthy(s)
  {
    assert forall k <- s.calls :: CallValid(s, k, s.calls[k]);
    forall a | s.Settled(a)
      ensures Solvent(a, s.Supply(a), s.assets[a].bitasset.value.backing, s.assets[a].bitasset.value.settlement.value)
    {
      assert AssetValid(a, s.assets[a], s.assets.Keys);
    }
  }

  /// The states a run goes through.
  ghost predicate IsRun(db: Database, ops: seq<Operation>, trace: seq<State>) {
    && |trace| == |ops| + 1
    && forall i :: 0 <= i < |ops| ==> Step(db, trace[i], trace[i + 1], ops[i])
  }

  /** Every run from genesis goes, step by step, where its operations lead, and stays
      healthy in every state on the way. */
  method Run(db: Database, ops: seq<Operation>) returns (ghost trace: seq<State>)
    requires IsGenesis(db.s)
    modifies db
    ensures IsRun(db, ops, trace) && trace[0] == old(db.s) && trace[|ops|] == db.s
    ensures forall i :: 0 <= i <= |ops| ==> Inv(trace[i]) && Healthy(trace[i])
  {
    hide Inv;
    hide Healthy;
    hide Performed;
    hide Refused;
    hide Hung;
    hide IsGenesis;
    GenesisInv(db.s);
    InvHealthy(db.s);
    trace := [db.s];
    for i := 0 to |ops|
      invariant |trace| == i + 1 && trace[0] == old(db.s) && trace[i] == db.s
      invariant forall j :: 0 <= j < i ==> Step(db, trace[j], trace[j + 1], ops[j])
      invariant forall j :: 0 <= j <= i ==> Inv(trace[j]) && Healthy(trace[j])
    {
      var r := Perform(db, ops[i]);
      InvHealthy(db.s);
      trace := trace + [db.s];
    }
  }

  /** From its settlement on, and as long as no bids and no feed bring it back, an asset
      keeps its settlement price, and the fund covers every claim at that price. */
  lemma {:induction false} SolventAtOnePrice(db: Database, ops: seq<Operation>, trace: seq<State>, a: AssetId, i: nat, j: nat)
    requires IsRun(db, ops, trace) && i <= j <= |ops| && trace[i].Settled(a)
    requires forall k :: i <= k < j ==> !MayRevive(ops[k], a)
    requires forall k :: 0 <= k <= |ops| ==> Healthy(trace[k])
    ensures trace[j].Settled(a)
    ensures
      var was, st := trace[i].assets[a].bitasset.value.settlement.value, trace[j].assets[a].bitasset.value.settlement.value;
      st.price == was.price && st.fund * was.price.base.amount >= trace[j].Supply(a) * was.price.quote.amount
    decreases j - i
  {
    hide Conserved;
    hide Uncrossed;
    hide Worth;
    hide Backed;
    hide Performed;
    hide Refused;
    hide Hung;
    assert Healthy(trace[j]);
    if i < j {
      SolventAtOnePrice(db, ops, trace, a, i, j - 1);
      assert Step(db, trace[j - 1], trace[j], ops[j - 1]);
      StepKeeps(db, trace[j - 1], trace[j], ops[j - 1]);
    }
  }

  /// No resting order could fill a position that is in margin call territory.
  ghost predicate NoneMeets(s: State) {
    && FeedsValid(s)
    && forall k <- s.calls, i <- s.limits ::
      Callable(s, k.1) && Squeezes(FeedOf(s, k.1), s.limits[i]) ==> !Called(FeedOf(s, k.1), s.calls[k])
  }

  lemma WatchedMeetsNone(s: State)
    requires Inv(s) && s.revived == {}
    ensures NoneMeets(s)
  {
    hide Sound;
    hide Squeezes;
    hide Called;
    forall k <- s.calls, i <- s.limits | Callable(s, k.1) && Squeezes(FeedOf(s, k.1), s.limits[i])
      ensures !Called(FeedOf(s, k.1), s.calls[k])
    {
      assert NoneCallable(s, k.1, {});
    }
  }

  /** As long as no bid becomes a position that is called, there is no state in a run in
      which a resting order meets a called position. */
  lemma {:induction false} NoOrderMeetsCalled(db: Database, ops: seq<Operation>, trace: seq<State>, j: nat)
    requires IsRun(db, ops, trace) && j <= |ops| && trace[0].revived == {}
    requires forall k :: 0 <= k < j ==> !Exposes(trace[k], trace[k + 1], ops[k])
    requires forall k :: 0 <= k <= |ops| ==> Inv(trace[k])
    ensures trace[j].revived == {} && NoneMeets(trace[j])
  {
    hide Performed;
    hide Refused;
    hide Hung;
    hide Exposes;
    hide Inv;
    hide NoneMeets;
    if j > 0 {
      NoOrderMeetsCalled(db, ops, trace, j - 1);
      assert Step(db, trace[j - 1], trace[j], ops[j - 1]);
      StepWatch(db, trace[j - 1], trace[j], ops[j - 1]);
    }
    WatchedMeetsNone(trace[j]);
  }
}
