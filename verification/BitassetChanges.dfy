/** Changing what is recorded of a market-issued asset besides its backing and settlement. */
module BitassetChanges {
  import opened Options
  import opened Prices
  import opened MarginCall
  import opened MarketState
  import opened OrderBook
  import opened Positions
  import opened Orders
  import opened MarketInvariant
  import opened MarginCalls

  function WithBitasset(s: State, a: AssetId, b: Bitasset): State
    requires a in s.assets
  {
    SetAsset(s, a, s.assets[a].(bitasset := Some(b)))
  }

  /// The change leaves the backing, the settlement and the limits alone.
  ghost predicate MayChange(s: State, a: AssetId, b: Bitasset) {
    && s.MarketIssued(a)
    && var was := s.assets[a].bitasset.value;
       && b.backing == was.backing && b.settlement == was.settlement
       && b.maxForcePercent == was.maxForcePercent && b.offsetPercent == was.offsetPercent
       && (b.feed.Some? ==> b.feed.value.Valid(a, b.backing))
  }

  lemma BitassetMoves(s: State, a: AssetId, b: Bitasset)
    requires MayChange(s, a, b)
    ensures SameGaps(s, WithBitasset(s, a, b)) && SameDebtGaps(s, WithBitasset(s, a, b))
  {
    var t := WithBitasset(s, a, b);
    forall x: AssetId ensures Gap(t, x) == Gap(s, x) && DebtGap(t, x) == DebtGap(s, x) {
      SetAssetGap(s, a, t.assets[a], x);
    }
  }

  /** Such a change can break nothing but that margin calls have been made for the asset,
      and not even that when neither feed nor kind of asset changes. */
  lemma BitassetIsSound(s: State, a: AssetId, b: Bitasset)
    requires Inv(s) && MayChange(s, a, b)
    ensures Sound(WithBitasset(s, a, b)) && MetBut(WithBitasset(s, a, b), a)
    ensures s.Settled(a) || (b.feed == s.assets[a].bitasset.value.feed && b.predictionMarket == s.assets[a].bitasset.value.predictionMarket) ==>
      Inv(WithBitasset(s, a, b))
  {
    hide Gap;
    hide DebtGap;
    hide NoneCallable;
    hide BookSound;
    hide AssetValid;
    hide CallValid;
    hide AllMet;
    hide MetBut;
    hide FeedsValid;
    var t := WithBitasset(s, a, b);
    BitassetMoves(s, a, b);
    BitassetValid(s, a, b);
    BitassetCalls(s, a, b);
    BitassetBacked(s, a, b);
    BookUnchanged(s, t);
    SoundFeeds(t);
    BitassetMet(s, a, b);
  }

  lemma BitassetValid(s: State, a: AssetId, b: Bitasset)
    requires AssetsValid(s) && SettlesValid(s) && BidsValid(s) && MayChange(s, a, b)
    ensures var t := WithBitasset(s, a, b); AssetsValid(t) && SettlesValid(t) && BidsValid(t)
  {
    var t := WithBitasset(s, a, b);
    forall x <- t.assets ensures AssetValid(x, t.assets[x], t.assets.Keys) {
      assert AssetValid(x, s.assets[x], s.assets.Keys);
    }
  }

  lemma BitassetCalls(s: State, a: AssetId, b: Bitasset)
    requires CallsValid(s) && MayChange(s, a, b)
    ensures CallsValid(WithBitasset(s, a, b))
  {
    var t := WithBitasset(s, a, b);
    forall k <- t.calls ensures CallValid(t, k, t.calls[k]) {
      assert CallValid(s, k, s.calls[k]);
    }
  }

  lemma BitassetBacked(s: State, a: AssetId, b: Bitasset)
    requires Backed(s) && MayChange(s, a, b) && SameDebtGaps(s, WithBitasset(s, a, b))
    ensures Backed(WithBitasset(s, a, b))
  {
    hide DebtGap;
    var t := WithBitasset(s, a, b);
    forall x: AssetId | t.MarketIssued(x) && !t.Settled(x) ensures DebtGap(t, x) == 0 {
      assert DebtGap(t, x) == DebtGap(s, x);
    }
  }

  lemma BitassetMet(s: State, a: AssetId, b: Bitasset)
    requires AllMet(s, {}) && MayChange(s, a, b) && FeedsValid(WithBitasset(s, a, b))
    ensures MetBut(WithBitasset(s, a, b), a)
    ensures s.Settled(a) || (b.feed == s.assets[a].bitasset.value.feed && b.predictionMarket == s.assets[a].bitasset.value.predictionMarket) ==>
      AllMet(WithBitasset(s, a, b), {})
  {
    var t := WithBitasset(s, a, b);
    forall x | x != a || s.Settled(a) || (b.feed == s.assets[a].bitasset.value.feed && b.predictionMarket == s.assets[a].bitasset.value.predictionMarket)
      ensures NoneCallable(t, x, {})
    {
      assert NoneCallable(s, x, {});
    }
  }
}
