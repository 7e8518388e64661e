/** The persistent exchange simulator: balances, orders and protections that reserve balance. */
module Exchange {
  import opened Domain
  import opened Sums

  /** The three durable tables. */
  datatype Books = Books(
    balances: map<Symbol, real>,
    orders: map<ClientId, Order>,
    protections: map<ClientId, ProtectionOrder>)

  type Wallet = map<Symbol, real>

  function Held(w: Wallet, symbol: Symbol): real {
    if symbol in w then w[symbol] else 0.0
  }

  function Balance(x: Books, symbol: Symbol): real {
    Held(x.balances, symbol)
  }

  // --- What is reserved, and what is exposed ---

  function ReservedQty(p: ProtectionOrder, symbol: Symbol): real {
    if p.active && p.symbol == symbol then p.baseQty else 0.0
  }

  function ReservedBy(protections: map<ClientId, ProtectionOrder>, symbol: Symbol): ClientId -> real {
    c => if c in protections then ReservedQty(protections[c], symbol) else 0.0
  }

  ghost function Reserved(x: Books, symbol: Symbol): real {
    Sum(x.protections.Keys, ReservedBy(x.protections, symbol))
  }

  predicate Active(x: Books, c: ClientId) {
    c in x.protections && x.protections[c].active
  }

  predicate Covered(x: Books, o: Origin) {
    Active(x, ClientId(o, Protection)) || Active(x, ClientId(o, PartialProtection))
  }

  predicate Sold(x: Books, o: Origin) {
    ClientId(o, EmergencyExitSale) in x.orders
  }

  /** The net fill of an entry order that is neither protected nor sold again. */
  function ExposureOf(x: Books, o: Origin): real {
    var c := ClientId(o, Entry);
    if c in x.orders && !Covered(x, o) && !Sold(x, o) then NetQty(x.orders[c], x.orders[c].symbol) else 0.0
  }

  function ExposureBy(x: Books, symbol: Symbol): ClientId -> real {
    c => if c in x.orders && c.suffix == Entry && x.orders[c].symbol == symbol then ExposureOf(x, c.origin) else 0.0
  }

  ghost function Exposure(x: Books, symbol: Symbol): real {
    Sum(x.orders.Keys, ExposureBy(x, symbol))
  }

  /** Exposure conservation: what is neither reserved nor sold is the wallet's baseline plus the
      net fill of every unprotected entry. */
  ghost predicate Conserved(x: Books, base: Wallet) {
    forall s: Symbol :: ConservedAt(x, base, s)
  }

  ghost predicate ConservedAt(x: Books, base: Wallet, s: Symbol) {
    Balance(x, s) - Reserved(x, s) == Held(base, s) + Exposure(x, s)
  }

  // --- The three state changes ---

  function Commission(quote: real, price: real, rate: real, ratio: real): real
    requires price > 0.0
  {
    quote * ratio / price * rate
  }

  function EntryOrder(symbol: Symbol, quote: real, price: real, rate: real, ratio: real): Order
    requires price > 0.0
  {
    Order(symbol, if ratio == 1.0 then OrderFilled else OrderPartiallyFilled, quote,
          quote * ratio / price, price, Commission(quote, price, rate, ratio), Some(symbol.base))
  }

  function Bought(x: Books, c: ClientId, o: Order): Books {
    x.(orders := x.orders[c := o],
       balances := x.balances[o.symbol := Balance(x, o.symbol) + (o.filledQty - o.commission)])
  }

  function Placed(x: Books, c: ClientId, symbol: Symbol, qty: real): Books {
    x.(protections := x.protections[c := ProtectionOrder(symbol, qty, true)])
  }

  function ExitOrder(symbol: Symbol, qty: real, price: real): Order {
    Order(symbol, OrderFilled, qty * price, qty, price, 0.0, None)
  }

  function SoldOff(x: Books, c: ClientId, symbol: Symbol, qty: real, price: real): Books {
    x.(orders := x.orders[c := ExitOrder(symbol, qty, price)],
       balances := x.balances[symbol := Balance(x, symbol) - qty])
  }

  function CanceledBehind(x: Books, c: ClientId, symbol: Symbol): Books {
    if c in x.protections && x.protections[c].symbol == symbol
    then x.(protections := x.protections[c := x.protections[c].(active := false)])
    else x
  }

  ghost function Free(x: Books, symbol: Symbol): real {
    Max(0.0, Balance(x, symbol) - Reserved(x, symbol))
  }

  // --- Laws ---

  lemma {:induction false} ReservedAfterPlacing(x: Books, c: ClientId, symbol: Symbol, qty: real, s: Symbol)
    requires c !in x.protections
    ensures Reserved(Placed(x, c, symbol, qty), s) == Reserved(x, s) + (if s == symbol then qty else 0.0)
  {
    var y := Placed(x, c, symbol, qty);
    assert y.protections.Keys == x.protections.Keys + {c};
    SumAdd(x.protections.Keys, ReservedBy(y.protections, s), c);
    SumSame(x.protections.Keys, ReservedBy(x.protections, s), ReservedBy(y.protections, s));
  }

  /** Exposure moves only where one origin's own exposure moves. */
  lemma {:induction false} ExposureAfter(x: Books, y: Books, o: Origin, s: Symbol)
    requires
      || y.orders.Keys == x.orders.Keys
      || exists c: ClientId :: c.origin == o && c !in x.orders && y.orders.Keys == x.orders.Keys + {c}
    requires forall c :: c in x.orders ==> c in y.orders && y.orders[c] == x.orders[c]
    requires forall p: Origin :: p != o ==> ExposureOf(y, p) == ExposureOf(x, p)
    ensures var e := ClientId(o, Entry);
            Exposure(y, s) == Exposure(x, s)
              + (if e in y.orders && y.orders[e].symbol == s then ExposureOf(y, o) - ExposureOf(x, o) else 0.0)
  {
    var e := ClientId(o, Entry);
    var keys := x.orders.Keys;
    var f, g := ExposureBy(x, s), ExposureBy(y, s);
    if e in keys {
      SumChange(keys, f, g, e);
    } else {
      SumSame(keys, f, g);
    }
    if y.orders.Keys != keys {
      var c: ClientId :| c.origin == o && c !in x.orders && y.orders.Keys == keys + {c};
      SumAdd(keys, g, c);
    }
  }

  /** A fresh market buy keeps the books balanced. */
  lemma BuyConserves(x: Books, base: Wallet, o: Origin, ord: Order)
    requires Conserved(x, base)
    requires ClientId(o, Entry) !in x.orders && !Covered(x, o) && !Sold(x, o)
    requires ord.commissionAsset == Some(ord.symbol.base) && ord.commission <= ord.filledQty
    ensures Conserved(Bought(x, ClientId(o, Entry), ord), base)
  {
    var c := ClientId(o, Entry);
    var y := Bought(x, c, ord);
    assert y.orders.Keys == x.orders.Keys + {c};
    forall s: Symbol ensures ConservedAt(y, base, s) {
      ExposureAfter(x, y, o, s);
      assert ConservedAt(x, base, s);
    }
  }

  /** Reserving balance for an entry keeps the books balanced exactly when the quantity reserved
      is what that entry still leaves exposed. */
  lemma PlacementConservesIff(x: Books, base: Wallet, o: Origin, partial: bool, symbol: Symbol, qty: real)
    requires Conserved(x, base)
    requires ClientId(o, ProtectionSuffix(partial)) !in x.protections
    requires ClientId(o, Entry) in x.orders ==> x.orders[ClientId(o, Entry)].symbol == symbol
    ensures Conserved(Placed(x, ClientId(o, ProtectionSuffix(partial)), symbol, qty), base) <==> qty == ExposureOf(x, o)
  {
    var c := ClientId(o, ProtectionSuffix(partial));
    var y := Placed(x, c, symbol, qty);
    assert Covered(y, o);
    forall s: Symbol
      ensures ConservedAt(y, base, s) <==> s != symbol || qty == ExposureOf(x, o)
    {
      ReservedAfterPlacing(x, c, symbol, qty, s);
      ExposureAfter(x, y, o, s);
      assert ConservedAt(x, base, s);
    }
    assert ConservedAt(y, base, symbol) <==> qty == ExposureOf(x, o);
  }

  /** Selling out of the free balance keeps the books balanced exactly when the quantity sold is
      what the entry leaves exposed. */
  lemma SaleConservesIff(x: Books, base: Wallet, o: Origin, symbol: Symbol, qty: real, price: real)
    requires Conserved(x, base)
    requires ClientId(o, EmergencyExitSale) !in x.orders
    requires ClientId(o, Entry) in x.orders ==> x.orders[ClientId(o, Entry)].symbol == symbol
    ensures Conserved(SoldOff(x, ClientId(o, EmergencyExitSale), symbol, qty, price), base) <==> qty == ExposureOf(x, o)
  {
    var c := ClientId(o, EmergencyExitSale);
    var y := SoldOff(x, c, symbol, qty, price);
    assert y.orders.Keys == x.orders.Keys + {c};
    forall s: Symbol
      ensures ConservedAt(y, base, s) <==> s != symbol || qty == ExposureOf(x, o)
    {
      ExposureAfter(x, y, o, s);
      assert ConservedAt(x, base, s);
    }
    assert ConservedAt(y, base, symbol) <==> qty == ExposureOf(x, o);
  }

  /** The free balance always covers what any one entry still leaves exposed. */
  lemma FreeCoversExposure(x: Books, base: Wallet, o: Origin, symbol: Symbol)
    requires Conserved(x, base) && Held(base, symbol) >= 0.0
    requires ClientId(o, Entry) in x.orders && x.orders[ClientId(o, Entry)].symbol == symbol
    ensures Free(x, symbol) >= ExposureOf(x, o)
  {
    assert ConservedAt(x, base, symbol);
    var f := ExposureBy(x, symbol);
    assert f(ClientId(o, Entry)) == ExposureOf(x, o);
    SumAtLeast(x.orders.Keys, f, ExposureOf(x, o));
  }

  class PersistentExchange {
    var books: Books
    var price: real
    var commissionRate: real
    var partialFillRatio: real

    /** Wallet contents before the first order. */
    ghost const baseline: Wallet

    /** One entry per call of SubmitMarketBuy, by trade intent. */
    ghost var buyCalls: multiset<Name>

    ghost predicate Valid()
      reads this
    {
      price > 0.0 && 0.0 <= commissionRate <= 1.0 && 0.0 <= partialFillRatio
    }

    constructor (balances: Wallet, price: real, commissionRate: real, partialFillRatio: real)
      requires price > 0.0 && 0.0 <= commissionRate <= 1.0 && 0.0 <= partialFillRatio
      ensures Valid() && books == Books(balances, map[], map[]) && baseline == balances && buyCalls == multiset{}
      ensures Conserved(books, baseline)
    {
      this.books := Books(balances, map[], map[]);
      this.baseline := balances;
      this.price := price;
      this.commissionRate := commissionRate;
      this.partialFillRatio := partialFillRatio;
      this.buyCalls := multiset{};
      new;
      forall s: Symbol ensures ConservedAt(books, baseline, s) {
      }
    }

    /** Sum of the active protections of a symbol. */
    method ReservedBalance(symbol: Symbol) returns (total: real)
      ensures total == Reserved(books, symbol)
    {
      total := 0.0;
      var left := books.protections.Keys;
      ghost var f := ReservedBy(books.protections, symbol);
      while left != {}
        invariant left <= books.protections.Keys
        invariant total + Sum(left, f) == Reserved(books, symbol)
        decreases left
      {
        var c :| c in left;
        SumSplit(left, f, c);
        if books.protections[c].active && books.protections[c].symbol == symbol {
          total := total + books.protections[c].baseQty;
        }
        left := left - {c};
      }
    }

    method FreeBaseBalance(symbol: Symbol) returns (free: real)
      ensures free == Free(books, symbol)
      ensures var net := Balance(books, symbol) - Reserved(books, symbol); free == if net > 0.0 then net else 0.0
    {
      var reserved := ReservedBalance(symbol);
      free := Max(0.0, Balance(books, symbol) - reserved);
    }

    function QueryOrder(symbol: Symbol, c: ClientId): (o: Option<Order>)
      reads this
      ensures o.Some? <==> c in books.orders && books.orders[c].symbol == symbol
      ensures o.Some? ==> o.value == books.orders[c]
    {
      if c in books.orders && books.orders[c].symbol == symbol then Some(books.orders[c]) else None
    }

    function ProtectionDetails(symbol: Symbol, c: ClientId): (p: Option<ProtectionOrder>)
      reads this
      ensures p.Some? <==> Active(books, c) && books.protections[c].symbol == symbol
      ensures p.Some? ==> p.value == books.protections[c]
    {
      if c in books.protections && books.protections[c].symbol == symbol && books.protections[c].active
      then Some(books.protections[c]) else None
    }

    /** Idempotent on the client id; an id already used for another symbol fails. */
    method SubmitMarketBuy(symbol: Symbol, quote: real, c: ClientId) returns (r: Result<Order>)
      requires Valid()
      modifies this`books, this`buyCalls
      ensures buyCalls == old(buyCalls) + multiset{c.origin.intentId}
      ensures c in old(books.orders) ==> books == old(books)
      ensures c !in old(books.orders) ==>
        books == Bought(old(books), c, EntryOrder(symbol, quote, price, commissionRate, partialFillRatio))
      ensures c !in old(books.orders) ==>
        && r.Ok? && r.value.symbol == symbol && r.value.requestedQuote == quote
        && r.value.status == (if partialFillRatio == 1.0 then OrderFilled else OrderPartiallyFilled)
        && r.value.filledQty * price == quote * partialFillRatio && r.value.avgPrice == price
        && r.value.commission == r.value.filledQty * commissionRate && r.value.commissionAsset == Some(symbol.base)
        && books.orders == old(books.orders)[c := r.value] && books.protections == old(books.protections)
        && Balance(books, symbol) == Balance(old(books), symbol) + (r.value.filledQty - r.value.commission)
        && forall s: Symbol :: s != symbol ==> Balance(books, s) == Balance(old(books), s)
      ensures r.Ok? <==> c in books.orders && books.orders[c].symbol == symbol
      ensures r.Ok? ==> r.value == books.orders[c]
      ensures r.Err? ==> r.exn == Faulted
    {
      buyCalls := buyCalls + multiset{c.origin.intentId};
      var existing := QueryOrder(symbol, c);
      if existing.Some? {
        return Ok(existing.value);
      }
      if c in books.orders {
        return Err(Faulted);
      }
      books := Bought(books, c, EntryOrder(symbol, quote, price, commissionRate, partialFillRatio));
      r := Ok(books.orders[c]);
      assert quote * partialFillRatio / price * price == quote * partialFillRatio;
    }

    /** Idempotent on the client id; refuses a quantity that is not positive or not free. */
    method PlaceProtection(symbol: Symbol, qty: real, c: ClientId) returns (r: Result<()>)
      modifies this`books
      ensures c in old(books.protections) ==> books == old(books) && r.Ok?
      ensures c !in old(books.protections) ==>
        (r.Ok? <==> 0.0 < qty <= Free(old(books), symbol))
      ensures c !in old(books.protections) ==>
        books == if r.Ok? then Placed(old(books), c, symbol, qty) else old(books)
      ensures c !in old(books.protections) && r.Ok? ==>
        && books.protections == old(books.protections)[c := ProtectionOrder(symbol, qty, true)]
        && books.orders == old(books.orders) && books.balances == old(books.balances)
      ensures r.Err? ==> r.exn == Faulted
    {
      if c in books.protections {
        return Ok(());
      }
      if qty <= 0.0 {
        return Err(Faulted);
      }
      var free := FreeBaseBalance(symbol);
      if qty > free {
        return Err(Faulted);
      }
      books := Placed(books, c, symbol, qty);
      r := Ok(());
    }

    /** Sells at most what is free; idempotent on the client id. */
    method EmergencyMarketSell(symbol: Symbol, qty: real, c: ClientId) returns (r: Result<()>)
      modifies this`books
      ensures c in old(books.orders) ==> books == old(books) && (r.Ok? <==> books.orders[c].symbol == symbol)
      ensures c !in old(books.orders) ==>
        var q := Min(qty, Free(old(books), symbol));
        && (r.Ok? <==> q > 0.0)
        && books == (if r.Ok? then SoldOff(old(books), c, symbol, q, price) else old(books))
        && (r.Ok? ==>
              && c in books.orders && books.orders[c].symbol == symbol && books.orders[c].status == OrderFilled
              && books.orders[c].filledQty == q && books.orders[c].avgPrice == price
              && books.orders[c].requestedQuote == books.orders[c].filledQty * price
              && books.orders[c].commission == 0.0 && books.orders[c].commissionAsset == None
              && books.orders == old(books.orders)[c := books.orders[c]]
              && books.protections == old(books.protections)
              && Balance(books, symbol) == Balance(old(books), symbol) - q
              && forall s: Symbol :: s != symbol ==> Balance(books, s) == Balance(old(books), s))
      ensures r.Err? ==> r.exn == Faulted
    {
      var existing := QueryOrder(symbol, c);
      if existing.Some? {
        return Ok(());
      }
      if c in books.orders {
        return Err(Faulted);
      }
      var free := FreeBaseBalance(symbol);
      var q := Min(qty, free);
      if q <= 0.0 {
        return Err(Faulted);
      }
      books := SoldOff(books, c, symbol, q, price);
      r := Ok(());
    }

    /** Out-of-band: somebody cancels a protection behind the engine's back. */
    method CancelProtection(symbol: Symbol, c: ClientId)
      modifies this`books
      ensures books == CanceledBehind(old(books), c, symbol)
      ensures !(c in books.protections && books.protections[c].active && books.protections[c].symbol == symbol)
      ensures forall k :: k != c ==> Lookup(books.protections, k) == Lookup(old(books.protections), k)
      ensures books.orders == old(books.orders) && books.balances == old(books.balances)
    {
      books := CanceledBehind(books, c, symbol);
    }
  }
}
