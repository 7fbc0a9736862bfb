/** The limit order book: its price order, and what it means for it to be uncrossed. */
module OrderBook {
  import opened Options
  import opened Prices
  import opened MarketState

  type Orders = map<nat, LimitOrder>

  predicate SameMarket(o: LimitOrder, p: LimitOrder) {
    o.price.base.id == p.price.base.id && o.price.quote.id == p.price.quote.id
  }

  /// The two orders want to trade at a price both accept: o's price is at least the
  /// inverse of p's.
  predicate Crosses(o: LimitOrder, p: LimitOrder) {
    && o.price.base.id == p.price.quote.id && o.price.quote.id == p.price.base.id
    && o.price.quote.amount * p.price.quote.amount <= o.price.base.amount * p.price.base.amount
  }

  /// The index limit orders are kept in: highest price first, oldest first.
  predicate Ahead(i: nat, o: LimitOrder, j: nat, p: LimitOrder) {
    Less(p.price, o.price) || (!Less(o.price, p.price) && i < j)
  }

  /// Giving `x` for `y` suits the first order, and the other way round the second.
  predicate Suits(o: LimitOrder, p: LimitOrder, x: nat, y: nat) {
    x > 0 && y > 0 && x * o.price.quote.amount <= y * o.price.base.amount && y * p.price.quote.amount <= x * p.price.base.amount
  }

  /** Two orders cross exactly when there are amounts whose exchange suits both. */
  lemma CrossesMeans(o: LimitOrder, p: LimitOrder)
    requires o.price.Valid() && p.price.Valid()
    requires o.price.base.id == p.price.quote.id && o.price.quote.id == p.price.base.id
    ensures Crosses(o, p) <==> exists x, y :: Suits(o, p, x, y)
  {
    var ob, oq, pb, pq := o.price.base.amount, o.price.quote.amount, p.price.base.amount, p.price.quote.amount;
    if Crosses(o, p) {
      assert Suits(o, p, ob, oq);
    }
    if exists x, y :: Suits(o, p, x, y) {
      var x, y :| Suits(o, p, x, y);
      FractionsTransitive(oq, ob, y, x, pb, pq);
    }
  }

  /** The front of the book asks least, and of equal prices is the oldest. */
  lemma AheadMeans(i: nat, o: LimitOrder, j: nat, p: LimitOrder)
    ensures Ahead(i, o, j, p) <==>
      || o.price.quote.amount * p.price.base.amount < p.price.quote.amount * o.price.base.amount
      || (o.price.quote.amount * p.price.base.amount == p.price.quote.amount * o.price.base.amount && i < j)
  {
  }

  ghost predicate Uncrossed(m: Orders) {
    forall i <- m, j <- m :: !Crosses(m[i], m[j])
  }

  ghost predicate UncrossedExcept(m: Orders, id: nat) {
    forall i <- m, j <- m :: i != id && j != id ==> !Crosses(m[i], m[j])
  }

  /// Every order would get something for its rest at its own price.
  ghost predicate Worth(m: Orders) {
    forall i <- m :: m[i].price.Valid() && m[i].ToReceive() > 0
  }

  ghost predicate WorthExcept(m: Orders, id: nat) {
    forall i <- m :: i != id ==> m[i].price.Valid() && m[i].ToReceive() > 0
  }

  /// Orders were only filled or removed.
  ghost predicate Shrinks(m: Orders, n: Orders) {
    && n.Keys <= m.Keys
    && forall i <- n :: n[i].price == m[i].price && n[i].forSale <= m[i].forSale && n[i].seller == m[i].seller
  }

  lemma UncrossedShrinks(m: Orders, n: Orders, id: nat)
    requires UncrossedExcept(m, id) && Shrinks(m, n)
    ensures UncrossedExcept(n, id)
  {
    forall i <- n, j <- n | i != id && j != id ensures !Crosses(n[i], n[j]) {
      assert !Crosses(m[i], m[j]);
    }
  }

  lemma ShrinksReflexive(m: Orders)
    ensures Shrinks(m, m)
  {
  }

  lemma ShrinksTransitive(m: Orders, n: Orders, k: Orders)
    requires Shrinks(m, n) && Shrinks(n, k)
    ensures Shrinks(m, k)
  {
  }

  /** The price order is transitive, so the best price is well defined. */
  lemma AheadTransitive(i: nat, o: LimitOrder, j: nat, p: LimitOrder, k: nat, r: LimitOrder)
    requires o.price.Valid() && p.price.Valid() && r.price.Valid()
    requires Ahead(i, o, j, p) && Ahead(j, p, k, r)
    ensures Ahead(i, o, k, r)
  {
    FractionsTransitive(o.price.quote.amount, o.price.base.amount, p.price.quote.amount, p.price.base.amount,
      r.price.quote.amount, r.price.base.amount);
  }

  /** An order behind another one of its market crosses nothing the other does not. */
  lemma BehindCrossesLess(o: LimitOrder, p: LimitOrder, m: LimitOrder)
    requires o.price.Valid() && p.price.Valid() && m.price.Valid()
    requires SameMarket(o, p) && !Less(o.price, p.price) && Crosses(p, m)
    ensures Crosses(o, m)
  {
    FractionsTransitive(o.price.quote.amount, o.price.base.amount, p.price.quote.amount, p.price.base.amount,
      m.price.base.amount, m.price.quote.amount);
  }

  lemma CrossesSymmetric(o: LimitOrder, p: LimitOrder)
    ensures Crosses(o, p) == Crosses(p, o)
  {
  }

  /** A book to which an order crossing nothing is added stays uncrossed. */
  lemma UncrossedWith(m: Orders, id: nat)
    requires UncrossedExcept(m, id) && id in m && m[id].price.Valid()
    requires forall j <- m :: !Crosses(m[id], m[j])
    ensures Uncrossed(m)
  {
    forall i <- m, j <- m ensures !Crosses(m[i], m[j]) {
      CrossesSymmetric(m[i], m[j]);
      if i != id && j == id {
        assert !Crosses(m[id], m[i]);
      }
    }
  }

  predicate Sells(o: LimitOrder, base: AssetId, quote: AssetId) {
    o.price.base.id == base && o.price.quote.id == quote
  }

  /// The front of one side of a market.
  method BestSeller(m: Orders, base: AssetId, quote: AssetId) returns (r: Option<nat>)
    requires forall j <- m :: m[j].price.Valid()
    ensures r.Some? ==>
      && r.value in m && Sells(m[r.value], base, quote)
      && forall j <- m :: Sells(m[j], base, quote) && j != r.value ==> Ahead(r.value, m[r.value], j, m[j])
    ensures r.None? ==> forall j <- m :: !Sells(m[j], base, quote)
  {
    r := None;
    var todo := m.Keys;
    while todo != {}
      invariant todo <= m.Keys
      invariant r.Some? ==>
        && r.value in m && r.value !in todo && Sells(m[r.value], base, quote)
        && forall j <- m :: j !in todo && Sells(m[j], base, quote) && j != r.value ==> Ahead(r.value, m[r.value], j, m[j])
      invariant r.None? ==> forall j <- m :: j !in todo ==> !Sells(m[j], base, quote)
      decreases |todo|
    {
      var k :| k in todo;
      todo := todo - {k};
      if Sells(m[k], base, quote) {
        if r.None? {
          r := Some(k);
        } else if Ahead(k, m[k], r.value, m[r.value]) {
          forall j <- m | j !in todo && Sells(m[j], base, quote) && j != k ensures Ahead(k, m[k], j, m[j]) {
            if j != r.value {
              AheadTransitive(k, m[k], r.value, m[r.value], j, m[j]);
            }
          }
          r := Some(k);
        }
      }
    }
  }

  /** The counterpart an order would trade with first: the front of the opposite side,
      unless it asks for too much. */
  method BestMaker(m: Orders, o: LimitOrder) returns (r: Option<nat>)
    requires o.price.Valid() && forall j <- m :: m[j].price.Valid()
    ensures r.Some? ==>
      && r.value in m && Crosses(o, m[r.value])
      && forall j <- m :: Crosses(o, m[j]) && j != r.value ==> Ahead(r.value, m[r.value], j, m[j])
    ensures r.None? ==> forall j <- m :: !Crosses(o, m[j])
  {
    r := BestSeller(m, o.price.quote.id, o.price.base.id);
    if r.Some? && !Crosses(o, m[r.value]) {
      forall j <- m ensures !Crosses(o, m[j]) {
        if Crosses(o, m[j]) && j != r.value {
          assert Ahead(r.value, m[r.value], j, m[j]);
          CrossesSymmetric(o, m[j]);
          BehindCrossesLess(m[r.value], m[j], o);
          CrossesSymmetric(o, m[r.value]);
          assert false;
        }
      }
      r := None;
    }
  }
}
