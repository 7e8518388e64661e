/** What ties the rows of the ledger to the books of the exchange, on values. */
module Protocol {
  import opened Domain
  import opened Exchange
  import opened Ledger

  /** Everything the exchange holds for one intent. */
  datatype Position = Position(
    entry: Option<Order>, exit: Option<Order>,
    full: Option<ProtectionOrder>, partial: Option<ProtectionOrder>)

  function PositionOf(x: Books, o: Origin): Position {
    Position(Lookup(x.orders, ClientId(o, Entry)), Lookup(x.orders, ClientId(o, EmergencyExitSale)),
             Lookup(x.protections, ClientId(o, Protection)), Lookup(x.protections, ClientId(o, PartialProtection)))
  }

  predicate Unprotected(p: Position) {
    p.full == None && p.partial == None
  }

  /** A protection is worth what it claims: it reserves the net fill of the entry, no more, no less. */
  predicate Exact(p: Option<ProtectionOrder>, entry: Option<Order>, status: OrderStatus, symbol: Symbol) {
    p.Some? ==>
      && entry.Some? && entry.value.status == status
      && p.value == ProtectionOrder(symbol, NetQty(entry.value, symbol), true)
      && p.value.baseQty > 0.0
  }

  predicate EntryFits(e: Order, symbol: Symbol) {
    && e.symbol == symbol && e.status in {OrderFilled, OrderPartiallyFilled}
    && e.commissionAsset == Some(symbol.base) && 0.0 <= e.commission <= e.filledQty
  }

  lemma ShareOf(gross: real, rate: real)
    requires gross >= 0.0 && 0.0 <= rate <= 1.0
    ensures 0.0 <= gross * rate <= gross
  {
    assert gross * (1.0 - rate) >= 0.0;
  }

  /** A market buy of a positive amount fills with a commission that the fill covers. */
  lemma EntryOrderFits(symbol: Symbol, quote: real, price: real, rate: real, ratio: real)
    requires price > 0.0 && 0.0 <= rate <= 1.0 && ratio >= 0.0 && quote > 0.0
    ensures EntryFits(EntryOrder(symbol, quote, price, rate, ratio), symbol)
  {
    var spent := quote * ratio;
    assert spent >= 0.0;
    var gross := spent / price;
    assert gross * price == spent;
    assert gross >= 0.0;
    ShareOf(gross, rate);
  }

  /** Something is left of a fill exactly when something was filled, and not all of it went to the commission. */
  lemma FillLeaves(quote: real, price: real, rate: real, ratio: real)
    requires quote > 0.0 && price > 0.0 && 0.0 <= rate <= 1.0 && ratio >= 0.0
    ensures quote * ratio / price - Commission(quote, price, rate, ratio) > 0.0 <==> ratio > 0.0 && rate < 1.0
  {
    var gross := quote * ratio / price;
    assert gross * price == quote * ratio;
    assert Commission(quote, price, rate, ratio) == gross * rate;
    assert gross - gross * rate == gross * (1.0 - rate);
    if ratio > 0.0 {
      assert quote * ratio > 0.0;
      assert gross > 0.0;
      assert rate < 1.0 ==> gross * (1.0 - rate) > 0.0;
    } else {
      assert gross == 0.0;
    }
  }

  /** An intent's orders and protections make sense together. */
  predicate PositionSound(p: Position, symbol: Symbol) {
    && (p.entry.Some? ==> EntryFits(p.entry.value, symbol))
    && Exact(p.full, p.entry, OrderFilled, symbol)
    && Exact(p.partial, p.entry, OrderPartiallyFilled, symbol)
    && (p.exit.Some? ==>
          && p.entry.Some? && Unprotected(p) && p.exit.value.status == OrderFilled
          && p.exit.value.symbol == symbol && p.exit.value.filledQty == NetQty(p.entry.value, symbol))
  }

  /** What a durable state says about the position behind it. */
  predicate StateFits(s: TradeState, prepared: bool, p: Position) {
    && (!prepared ==> s in {Created, RiskApproved, Halted, Rejected} && p.entry == None)
    && (prepared ==> s !in {Created, RiskApproved, Rejected, TradeState.Canceled, Expired, UnderProtected, ExitPending})
    && (s == Protected ==> p.full.Some?)
    && (s == PartiallyProtected ==> p.partial.Some?)
    && (s == ProtectionPending ==> p.entry.Some? && p.entry.value.status == OrderFilled)
    && (s == PartialProtectionPending ==> p.entry.Some? && p.entry.value.status == OrderPartiallyFilled)
    && (s == EmergencyExit ==> p.entry.Some? && Unprotected(p))
    && (s == Closed ==> p.exit.Some?)
  }

  predicate RowFits(row: Row, i: TradeIntent, p: Position) {
    && row.payload == Readable(i) && row.entryId == ClientId(OriginOf(i), Entry)
    && PositionSound(p, i.symbol)
    && StateFits(row.state, row.prepared, p)
    && (row.expectedQty.Some? ==> p.entry.Some? && row.expectedQty.value == NetQty(p.entry.value, i.symbol))
  }

  predicate RowSound(rows: Rows, id: Name, x: Books) {
    id in rows ==>
      && rows[id].payload.Readable? && rows[id].payload.intent.id == id
      && RowFits(rows[id], rows[id].payload.intent, PositionOf(x, OriginOf(rows[id].payload.intent)))
  }

  predicate Owns(rows: Rows, o: Origin) {
    o.intentId in rows && rows[o.intentId].payload.Readable? && OriginOf(rows[o.intentId].payload.intent) == o
  }

  /** Nothing on the exchange is without a row. */
  ghost predicate AllOwned(rows: Rows, x: Books) {
    && (forall c: ClientId {:trigger Owns(rows, c.origin)} :: c in x.orders || c in x.protections ==>
      Owns(rows, c.origin))
  }

  /** The invariant of the trade protocol. */
  ghost predicate Sound(rows: Rows, x: Books, base: Wallet) {
    && (forall id :: RowSound(rows, id, x))
    && AllOwned(rows, x)
    && Conserved(x, base)
    && (forall s: Symbol :: Held(base, s) >= 0.0)
  }

  /** Every sold position is on its way to Closed. */
  ghost predicate SoldSettled(rows: Rows, x: Books) {
    forall id :: id in rows && rows[id].payload.Readable? && Sold(x, OriginOf(rows[id].payload.intent))
                 ==> rows[id].state in {EmergencyExit, Closed}
  }

  /** A row that waits, or was turned away, is not marked; one that claims protection knows how much. */
  predicate RowOrderly(rows: Rows, id: Name) {
    id in rows ==>
      && (rows[id].state in {Created, RiskApproved, Rejected} ==> !rows[id].prepared)
      && (ClaimsProtection(rows[id].state) ==> rows[id].expectedQty.Some?)
  }

  /** The stamp of a claim is no older than `since`, or it is the one the claim carried before. */
  predicate StampedSince(before: Rows, rows: Rows, id: Name, since: int) {
    ClaimsAt(rows, id) ==>
      || (rows[id].verifiedAt.Some? && since <= rows[id].verifiedAt.value)
      || (ClaimsAt(before, id) && rows[id].verifiedAt == before[id].verifiedAt)
  }

  /** A claim that stands, and has lost its stamp: its withdrawal was cut between the two writes. */
  predicate StampCut(before: Rows, rows: Rows, id: Name) {
    ClaimsAt(before, id) && ClaimsAt(rows, id) && rows[id].verifiedAt == None
  }

  predicate AskedOnce(rows: Rows, id: Name, buyCalls: multiset<Name>) {
    id in buyCalls ==> buyCalls[id] == 1 && id in rows && rows[id].prepared
  }

  predicate EntryAsked(x: Books, c: ClientId, buyCalls: multiset<Name>) {
    c in x.orders && c.suffix == Entry ==> c.origin.intentId in buyCalls
  }

  /** Write-ahead: no entry and no attempt at one without the durable mark, and one attempt per intent. */
  ghost predicate WriteAhead(rows: Rows, x: Books, buyCalls: multiset<Name>) {
    && (forall id :: RowOrderly(rows, id))
    && (forall id :: AskedOnce(rows, id, buyCalls))
    && (forall c :: EntryAsked(x, c, buyCalls))
  }

  predicate RowIs(rows: Rows, id: Name, s: TradeState) {
    id in rows && rows[id].state == s
  }

  predicate SameRow(rows: Rows, rows': Rows, id: Name) {
    Lookup(rows', id) == Lookup(rows, id)
  }

  ghost predicate OnlyRow(rows: Rows, rows': Rows, id: Name) {
    forall k {:trigger SameRow(rows, rows', k)} :: k != id ==> SameRow(rows, rows', k)
  }

  lemma OnlyRowTwice(a: Rows, b: Rows, c: Rows, id: Name)
    requires OnlyRow(a, b, id) && OnlyRow(b, c, id)
    ensures OnlyRow(a, c, id)
  {
    forall k | k != id ensures SameRow(a, c, k) {
      assert SameRow(a, b, k) && SameRow(b, c, k);
    }
  }

  predicate SameOrders(x: Books, x': Books, c: ClientId) {
    Lookup(x'.orders, c) == Lookup(x.orders, c) && Lookup(x'.protections, c) == Lookup(x.protections, c)
  }

  /** Nothing belonging to another intent is touched. */
  ghost predicate OnlyOrigin(x: Books, x': Books, o: Origin) {
    forall c: ClientId {:trigger SameOrders(x, x', c)} :: c.origin != o ==> SameOrders(x, x', c)
  }

  /** Nothing under any other intent's id is touched. */
  ghost predicate OnlyIntent(x: Books, x': Books, id: Name) {
    forall c: ClientId {:trigger SameOrders(x, x', c)} :: c.origin.intentId != id ==> SameOrders(x, x', c)
  }

  /** The row, if there is one, was written for this very intent. */
  predicate Matches(rows: Rows, i: TradeIntent) {
    i.id in rows ==> rows[i.id].payload == Readable(i)
  }

  // --- One write at a time ---

  lemma RowWriteSound(rows: Rows, rows': Rows, x: Books, base: Wallet, i: TradeIntent)
    requires Sound(rows, x, base) && Matches(rows, i)
    requires i.id in rows' && OnlyRow(rows, rows', i.id)
    requires RowFits(rows'[i.id], i, PositionOf(x, OriginOf(i)))
    ensures Sound(rows', x, base)
  {
    assert RowSound(rows, i.id, x);
    forall id ensures RowSound(rows', id, x) {
      assert RowSound(rows, id, x);
      assert id != i.id ==> SameRow(rows, rows', id);
    }
    forall c: ClientId | c in x.orders || c in x.protections ensures Owns(rows', c.origin) {
      assert Owns(rows, c.origin);
      assert c.origin.intentId != i.id ==> SameRow(rows, rows', c.origin.intentId);
    }
  }

  lemma BooksWriteSound(rows: Rows, x: Books, x': Books, base: Wallet, i: TradeIntent)
    requires Sound(rows, x, base) && i.id in rows && Matches(rows, i)
    requires OnlyOrigin(x, x', OriginOf(i)) && Conserved(x', base)
    requires RowFits(rows[i.id], i, PositionOf(x', OriginOf(i)))
    ensures Sound(rows, x', base)
  {
    assert RowSound(rows, i.id, x);
    forall id ensures RowSound(rows, id, x') {
      assert RowSound(rows, id, x);
      if id in rows && id != i.id {
        var o := OriginOf(rows[id].payload.intent);
        assert o != OriginOf(i);
        forall suffix: Suffix ensures SameOrders(x, x', ClientId(o, suffix)) {
        }
        assert PositionOf(x', o) == PositionOf(x, o);
      }
    }
    forall c: ClientId | c in x'.orders || c in x'.protections ensures Owns(rows, c.origin) {
      assert c.origin != OriginOf(i) ==> SameOrders(x, x', c);
      assert c in x.orders || c in x.protections ==> Owns(rows, c.origin);
    }
  }

  /** A sound position that is neither protected nor sold is exposed by its whole net fill; any
      other position is not exposed at all. */
  lemma ExposureOfSound(x: Books, i: TradeIntent)
    requires PositionSound(PositionOf(x, OriginOf(i)), i.symbol)
    ensures var p := PositionOf(x, OriginOf(i));
            ExposureOf(x, OriginOf(i)) == if p.entry.Some? && Unprotected(p) && p.exit == None
                                          then NetQty(p.entry.value, i.symbol) else 0.0
  {
  }

  lemma BuySound(rows: Rows, x: Books, base: Wallet, i: TradeIntent, ord: Order)
    requires Sound(rows, x, base) && i.id in rows && Matches(rows, i)
    requires rows[i.id].prepared && rows[i.id].state == Submitted
    requires PositionOf(x, OriginOf(i)).entry == None
    requires EntryFits(ord, i.symbol)
    ensures Sound(rows, Bought(x, ClientId(OriginOf(i), Entry), ord), base)
  {
    var o := OriginOf(i);
    var p := PositionOf(x, o);
    assert RowSound(rows, i.id, x);
    assert Unprotected(p) && p.exit == None;
    BuyConserves(x, base, o, ord);
    BooksWriteSound(rows, x, Bought(x, ClientId(o, Entry), ord), base, i);
  }

  lemma PlacementSound(rows: Rows, x: Books, base: Wallet, i: TradeIntent, partial: bool, qty: real)
    requires Sound(rows, x, base) && i.id in rows && Matches(rows, i)
    requires rows[i.id].state != EmergencyExit
    requires var p := PositionOf(x, OriginOf(i));
             && p.entry.Some? && Unprotected(p) && p.exit == None
             && p.entry.value.status == (if partial then OrderPartiallyFilled else OrderFilled)
             && qty == NetQty(p.entry.value, i.symbol) > 0.0
    ensures Sound(rows, Placed(x, ClientId(OriginOf(i), ProtectionSuffix(partial)), i.symbol, qty), base)
  {
    var o := OriginOf(i);
    assert RowSound(rows, i.id, x);
    ExposureOfSound(x, i);
    PlacementConservesIff(x, base, o, partial, i.symbol, qty);
    BooksWriteSound(rows, x, Placed(x, ClientId(o, ProtectionSuffix(partial)), i.symbol, qty), base, i);
  }

  lemma SaleSound(rows: Rows, x: Books, base: Wallet, i: TradeIntent, qty: real, price: real)
    requires Sound(rows, x, base) && i.id in rows && Matches(rows, i)
    requires var p := PositionOf(x, OriginOf(i));
             p.entry.Some? && Unprotected(p) && p.exit == None && qty == NetQty(p.entry.value, i.symbol)
    ensures Sound(rows, SoldOff(x, ClientId(OriginOf(i), EmergencyExitSale), i.symbol, qty, price), base)
  {
    var o := OriginOf(i);
    assert RowSound(rows, i.id, x);
    ExposureOfSound(x, i);
    SaleConservesIff(x, base, o, i.symbol, qty, price);
    BooksWriteSound(rows, x, SoldOff(x, ClientId(o, EmergencyExitSale), i.symbol, qty, price), base, i);
  }

  /** An unprotected entry can always be protected, or sold, in full. */
  lemma FreeCoversEntry(rows: Rows, x: Books, base: Wallet, i: TradeIntent)
    requires Sound(rows, x, base) && i.id in rows && Matches(rows, i)
    requires var p := PositionOf(x, OriginOf(i)); p.entry.Some? && Unprotected(p) && p.exit == None
    ensures Free(x, i.symbol) >= NetQty(PositionOf(x, OriginOf(i)).entry.value, i.symbol)
  {
    assert RowSound(rows, i.id, x);
    ExposureOfSound(x, i);
    FreeCoversExposure(x, base, OriginOf(i), i.symbol);
  }

  /** A fresh row fits an exchange that knows nothing of its intent. */
  lemma EnsureSound(rows: Rows, x: Books, base: Wallet, i: TradeIntent, epoch: nat)
    requires Sound(rows, x, base) && i.id !in rows
    ensures Sound(rows[i.id := Row(Readable(i), Created, ClientId(OriginOf(i), Entry), epoch, false, None, None,
              None)], x, base)
    ensures PositionOf(x, OriginOf(i)) == Position(None, None, None, None)
  {
    forall suffix: Suffix
      ensures ClientId(OriginOf(i), suffix) !in x.orders && ClientId(OriginOf(i), suffix) !in x.protections
    {
      assert !Owns(rows, ClientId(OriginOf(i), suffix).origin);
    }
    var rows' := rows[i.id := Row(Readable(i), Created, ClientId(OriginOf(i), Entry), epoch, false, None, None, None)];
    assert PositionOf(x, OriginOf(i)) == Position(None, None, None, None);
    RowWriteSound(rows, rows', x, base, i);
  }

  lemma RowWriteAhead(rows: Rows, rows': Rows, x: Books, calls: multiset<Name>, id: Name)
    requires WriteAhead(rows, x, calls) && OnlyRow(rows, rows', id)
    requires id in rows ==> id in rows' && (rows[id].prepared ==> rows'[id].prepared)
    requires RowOrderly(rows', id)
    ensures WriteAhead(rows', x, calls)
  {
    forall k ensures RowOrderly(rows', k) && AskedOnce(rows', k, calls) {
      assert RowOrderly(rows, k) && AskedOnce(rows, k, calls);
      assert k != id ==> SameRow(rows, rows', k);
    }
  }

  lemma BooksWriteAhead(rows: Rows, x: Books, x': Books, calls: multiset<Name>, o: Origin)
    requires WriteAhead(rows, x, calls) && OnlyOrigin(x, x', o)
    requires ClientId(o, Entry) in x'.orders ==> ClientId(o, Entry) in x.orders
    ensures WriteAhead(rows, x', calls)
  {
    forall c ensures EntryAsked(x', c, calls) {
      assert EntryAsked(x, c, calls);
      assert c.origin != o ==> SameOrders(x, x', c);
    }
  }

  /** The first, and only, request to buy: the row is marked and nothing was asked before. */
  lemma BuyWriteAhead(rows: Rows, x: Books, x': Books, calls: multiset<Name>, o: Origin)
    requires WriteAhead(rows, x, calls) && OnlyOrigin(x, x', o)
    requires o.intentId in rows && rows[o.intentId].prepared && o.intentId !in calls
    ensures WriteAhead(rows, x', calls + multiset{o.intentId})
  {
    var calls' := calls + multiset{o.intentId};
    forall id ensures AskedOnce(rows, id, calls') {
      assert AskedOnce(rows, id, calls);
    }
    forall c ensures EntryAsked(x', c, calls') {
      assert EntryAsked(x, c, calls);
      assert c.origin != o ==> SameOrders(x, x', c);
    }
  }

  /** The client id of the protection that a state claims. */
  function ClaimId(i: TradeIntent, claim: TradeState): ClientId {
    ClientId(OriginOf(i), ProtectionSuffix(claim == PartiallyProtected))
  }

  /** The claim of this row is what the exchange holds: an active protection of the stored quantity. */
  predicate BackedBy(x: Books, row: Row, i: TradeIntent) {
    var c := ClaimId(i, row.state);
    row.expectedQty.Some? && Active(x, c) && x.protections[c] == ProtectionOrder(i.symbol, row.expectedQty.value, true)
  }

  // --- One operation, from its beginning ---

  /** The durable state, seen at one moment. */
  datatype Moment = Moment(rows: Rows, books: Books)

  /** A row rewritten without touching what it was created and dispatched with, nor how it ended. */
  predicate SameRecord(a: Row, b: Row) {
    a.payload == b.payload && a.entryId == b.entryId && (a.prepared ==> b.prepared)
    && (Terminal(a.state) ==> b.state == a.state)
  }

  /** From one moment to the next only this intent's row and orders moved, and its record stood. */
  ghost predicate Moved(a: Moment, b: Moment, i: TradeIntent) {
    && OnlyRow(a.rows, b.rows, i.id) && OnlyOrigin(a.books, b.books, OriginOf(i))
    && (i.id in a.rows ==> i.id in b.rows && SameRecord(a.rows[i.id], b.rows[i.id]))
  }

  lemma MovedRow(a: Moment, b: Moment, rows: Rows, i: TradeIntent)
    requires Moved(a, b, i) && OnlyRow(b.rows, rows, i.id)
    requires i.id in b.rows ==> i.id in rows && SameRecord(b.rows[i.id], rows[i.id])
    ensures Moved(a, b.(rows := rows), i)
  {
    forall k | k != i.id ensures SameRow(a.rows, rows, k) {
      assert SameRow(a.rows, b.rows, k) && SameRow(b.rows, rows, k);
    }
  }

  lemma MovedBooks(a: Moment, b: Moment, books: Books, i: TradeIntent)
    requires Moved(a, b, i) && OnlyOrigin(b.books, books, OriginOf(i))
    ensures Moved(a, b.(books := books), i)
  {
    forall c: ClientId | c.origin != OriginOf(i) ensures SameOrders(a.books, books, c) {
      assert SameOrders(a.books, b.books, c) && SameOrders(b.books, books, c);
    }
  }

  /** This intent, if sold, is on its way to Closed. */
  predicate SettledAt(rows: Rows, x: Books, i: TradeIntent) {
    Sold(x, OriginOf(i)) ==> i.id in rows && rows[i.id].state in {EmergencyExit, Closed}
  }

  /** Recovery would reserve balance for a position that has already been sold. */
  ghost predicate Overreach(rows: Rows, x: Books, i: TradeIntent) {
    && i.id in rows && rows[i.id].state !in {EmergencyExit, Closed} && Sold(x, OriginOf(i))
    && ClientId(OriginOf(i), Entry) in x.orders
    && Min(NetQty(x.orders[ClientId(OriginOf(i), Entry)], i.symbol), Free(x, i.symbol)) > 0.0
  }

  /** What a claim comes to when it is held against the protection there is. */
  function Rechecked(row: Row, p: Option<ProtectionOrder>): TradeState
    requires row.expectedQty.Some?
  {
    if p.None? then Unknown else if p.value.baseQty == row.expectedQty.value then row.state else UnderProtected
  }

  /** Where one undisturbed recovery leaves a sound row that it does not overreach for. */
  function Recovered(s: TradeState, prepared: bool, p: Position, symbol: Symbol): TradeState {
    if Terminal(s) then s
    else if !prepared then Rejected
    else if ClaimsProtection(s) then s
    else if s == EmergencyExit then if p.exit.Some? then Closed else Unknown
    else if p.entry.None? || p.exit.Some? || NetQty(p.entry.value, symbol) <= 0.0 then Unknown
    else if p.entry.value.status == OrderFilled then Protected else PartiallyProtected
  }

  /** An order, as a query for this symbol shows it. */
  function Shown(x: Books, symbol: Symbol, c: ClientId): Option<Order> {
    if c in x.orders && x.orders[c].symbol == symbol then Some(x.orders[c]) else None
  }

  /** Rows whose recovery asks the exchange for the entry. */
  predicate AsksForEntry(row: Row) {
    && row.prepared && !Terminal(row.state) && !ClaimsProtection(row.state)
    && row.state !in {UnderProtected, EmergencyExit, ExitPending}
  }

  /** Whether recovery would place the partial protection or the full one: a row that waits for one says
      which, for any other it is how the entry was filled. */
  function WantsPartial(s: TradeState, status: OrderStatus): Option<bool> {
    if s == ProtectionPending || (s != PartialProtectionPending && status == OrderFilled) then Some(false)
    else if s == PartialProtectionPending || status == OrderPartiallyFilled then Some(true)
    else None
  }

  /** Reserves for this entry whatever the free balance can back, unless something is reserved already. */
  ghost function Reprotected(x: Books, i: TradeIntent, order: Order, partial: bool): Books {
    var c := ClientId(OriginOf(i), ProtectionSuffix(partial));
    var qty := Min(NetQty(order, i.symbol), Free(x, i.symbol));
    if c in x.protections || qty <= 0.0 then x else Placed(x, c, i.symbol, qty)
  }

  /** What one undisturbed recovery of an intent does to the books, whatever is in its row. */
  ghost function RecoveredBooks(row: Row, x: Books, i: TradeIntent): Books {
    var entry := Shown(x, i.symbol, row.entryId);
    if !AsksForEntry(row) || entry.None? then x
    else
      match WantsPartial(row.state, entry.value.status)
      case None => x
      case Some(partial) => Reprotected(x, i, entry.value, partial)
  }

  /** For a row caught while protecting, the state alone says which protection is meant. */
  lemma PendingBooks(row: Row, x: Books, i: TradeIntent, partial: bool)
    requires row.prepared && row.state == if partial then PartialProtectionPending else ProtectionPending
    ensures var entry := Shown(x, i.symbol, row.entryId);
            RecoveredBooks(row, x, i) == if entry.None? then x else Reprotected(x, i, entry.value, partial)
  {
  }

  /** For any other row that asks, it is how the entry was filled that says so. */
  lemma EntryBooks(row: Row, x: Books, i: TradeIntent)
    requires AsksForEntry(row) && row.state !in {ProtectionPending, PartialProtectionPending}
    ensures var entry := Shown(x, i.symbol, row.entryId);
            RecoveredBooks(row, x, i) ==
              if entry.Some? && entry.value.status == OrderFilled then Reprotected(x, i, entry.value, false)
              else if entry.Some? && entry.value.status == OrderPartiallyFilled
              then Reprotected(x, i, entry.value, true)
              else x
  {
  }

  /** What a filled entry is protected as, and what reserves its net fill. */
  function ClaimFor(entry: Order): TradeState {
    if entry.status == OrderFilled then Protected else PartiallyProtected
  }

  predicate ProtectedInFull(p: Position, i: TradeIntent) {
    p.entry.Some? &&
      (if p.entry.value.status == OrderFilled then p.full else p.partial)
        == Some(ProtectionOrder(i.symbol, NetQty(p.entry.value, i.symbol), true))
  }

  /** What an intent comes to when it is recovered in peace from a row and a position, and what is on the exchange
      for it then. */
  predicate EndsWell(i: TradeIntent, row: Row, p: Position, state: TradeState, q: Position) {
    && q.entry == p.entry && q.exit == p.exit
    && (p.entry.None? ==> state == (if row.prepared then Unknown else Rejected) && Unprotected(q))
    && (p.exit.Some? ==> state == (if row.state in {EmergencyExit, Closed} then Closed else Unknown) && Unprotected(q))
    && (p.entry.Some? && p.exit.None? ==>
          if NetQty(p.entry.value, i.symbol) <= 0.0 then state == Unknown && Unprotected(q)
          else if row.state == EmergencyExit then state == Unknown
          else state == ClaimFor(p.entry.value) && ProtectedInFull(q, i))
  }

  /** The same, from one moment to another. */
  predicate RecoveredWell(i: TradeIntent, a: Moment, state: TradeState, b: Moment) {
    && i.id in a.rows && RowIs(b.rows, i.id, state)
    && EndsWell(i, a.rows[i.id], PositionOf(a.books, OriginOf(i)), state, PositionOf(b.books, OriginOf(i)))
  }

  lemma RecoveryEndsWell(i: TradeIntent, row: Row, p: Position, row': Row, q: Position)
    requires RowFits(row, i, p) && RowFits(row', i, q) && q.entry == p.entry && q.exit == p.exit
    requires row'.state == Recovered(row.state, row.prepared, p, i.symbol)
    ensures EndsWell(i, row, p, row'.state, q)
  {
  }

  /** Recovery keeps the books balanced exactly when it does not overreach. */
  lemma RecoveryConservesIff(rows: Rows, x: Books, base: Wallet, i: TradeIntent)
    requires Sound(rows, x, base) && i.id in rows && Matches(rows, i)
    ensures Conserved(RecoveredBooks(rows[i.id], x, i), base) <==> !Overreach(rows, x, i)
  {
    var o := OriginOf(i);
    var p := PositionOf(x, o);
    assert RowSound(rows, i.id, x);
    if RecoveredBooks(rows[i.id], x, i) != x {
      var order := p.entry.value;
      ExposureOfSound(x, i);
      if p.exit.None? && Unprotected(p) {
        FreeCoversEntry(rows, x, base, i);
      }
      assert order.status == OrderFilled || order.status == OrderPartiallyFilled;
      PlacementConservesIff(x, base, o, order.status == OrderPartiallyFilled, i.symbol,
        Min(NetQty(order, i.symbol), Free(x, i.symbol)));
    }
  }

  /** A step on one intent keeps every other sold position where it was. */
  lemma SettledAfter(a: Moment, b: Moment, i: TradeIntent)
    requires SoldSettled(a.rows, a.books) && Filed(a.rows) && Filed(b.rows) && Moved(a, b, i)
    requires SettledAt(b.rows, b.books, i) && Matches(b.rows, i)
    ensures SoldSettled(b.rows, b.books)
  {
    forall id | id in b.rows && b.rows[id].payload.Readable? && Sold(b.books, OriginOf(b.rows[id].payload.intent))
      ensures b.rows[id].state in {EmergencyExit, Closed}
    {
      assert FiledAt(b.rows, id);
      if id != i.id {
        assert SameRow(a.rows, b.rows, id);
        assert SameOrders(a.books, b.books, ClientId(OriginOf(b.rows[id].payload.intent), EmergencyExitSale));
      }
    }
  }

  /** Everything known about one intent of a settled ledger. */
  lemma SettledHere(rows: Rows, x: Books, base: Wallet, i: TradeIntent)
    requires Sound(rows, x, base) && SoldSettled(rows, x) && Matches(rows, i)
    ensures SettledAt(rows, x, i) && !Overreach(rows, x, i)
  {
    if Sold(x, OriginOf(i)) {
      assert Owns(rows, ClientId(OriginOf(i), EmergencyExitSale).origin);
    }
  }

  /** A position that is claimed to be protected has not been sold, so there is nothing to overreach for. */
  lemma ClaimIsNoOverreach(rows: Rows, x: Books, base: Wallet, i: TradeIntent)
    requires Sound(rows, x, base) && ClaimsAt(rows, i.id) && Matches(rows, i)
    ensures !Overreach(rows, x, i)
  {
    assert RowSound(rows, i.id, x);
  }

  /** Rewriting the epoch of a row changes nothing of this. */
  lemma EpochWriteIsHarmless(rows: Rows, rows': Rows, x: Books, base: Wallet, id: Name)
    requires Sound(rows, x, base) && id in rows && OnlyRow(rows, rows', id)
    requires id in rows' && rows'[id] == rows[id].(epoch := rows'[id].epoch)
    ensures Sound(rows', x, base) && (SoldSettled(rows, x) ==> SoldSettled(rows', x))
  {
    assert RowSound(rows, id, x);
    RowWriteSound(rows, rows', x, base, rows[id].payload.intent);
    forall k | SoldSettled(rows, x) && k in rows' && rows'[k].payload.Readable?
               && Sold(x, OriginOf(rows'[k].payload.intent))
      ensures rows'[k].state in {EmergencyExit, Closed}
    {
      assert k != id ==> SameRow(rows, rows', k);
    }
  }

  /** What a durable change of state asks for. */
  predicate MayBecome(row: Row, next: TradeState, p: Position, sound: bool, settled: bool, since: int) {
    && (Terminal(row.state) ==> next == row.state)
    && (next in {Created, RiskApproved, Rejected} ==> !row.prepared)
    && (ClaimsProtection(next) ==> row.expectedQty.Some? && row.verifiedAt.Some? && since <= row.verifiedAt.value)
    && (sound ==> StateFits(next, row.prepared, p))
    && (settled && p.exit.Some? ==> next in {EmergencyExit, Closed})
  }

  predicate EpochAtMost(rows: Rows, id: Name, epoch: nat) {
    id in rows ==> rows[id].epoch <= epoch
  }

  ghost predicate EpochsWithin(rows: Rows, epoch: nat) {
    forall id :: EpochAtMost(rows, id, epoch)
  }

  lemma EpochsAfterWrite(rows: Rows, rows': Rows, id: Name, epoch: nat)
    requires EpochsWithin(rows, epoch) && OnlyRow(rows, rows', id) && EpochAtMost(rows', id, epoch)
    ensures EpochsWithin(rows', epoch)
  {
    forall k ensures EpochAtMost(rows', k, epoch) {
      assert EpochAtMost(rows, k, epoch);
      assert k != id ==> SameRow(rows, rows', k);
    }
  }
}
