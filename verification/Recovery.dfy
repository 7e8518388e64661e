/** What recovery, repeated, comes to. */
module Recovery {
  import opened Domain
  import opened Sums
  import opened Exchange
  import opened Ledger
  import opened Protocol

  /** Once every row is resolved, what is free is exactly the baseline. */
  lemma ResolvedMeansBaseline(rows: Rows, x: Books, base: Wallet, s: Symbol)
    requires Sound(rows, x, base) && forall id :: id in rows ==> Resolved(rows[id].state)
    ensures Balance(x, s) - Reserved(x, s) == Held(base, s)
  {
    var f := ExposureBy(x, s);
    forall c: ClientId | c in x.orders.Keys ensures f(c) == 0.0 {
      assert Owns(rows, c.origin);
      assert RowSound(rows, c.origin.intentId, x);
      ExposureOfSound(x, rows[c.origin.intentId].payload.intent);
    }
    SumZero(x.orders.Keys, f);
    assert ConservedAt(x, base, s);
  }

  /** A row whose sale could not be read in time: recovery then reserves balance that is not the
      trade's own.  One coin at the start, two bought and sold, one reserved again. */
  lemma OverreachHappens(i: TradeIntent) returns (rows: Rows, x: Books, base: Wallet)
    ensures Sound(rows, x, base) && i.id in rows && Matches(rows, i) && rows[i.id].state == Unknown
    ensures Overreach(rows, x, i) && !Conserved(RecoveredBooks(rows[i.id], x, i), base)
  {
    hide Sound, Conserved;
    rows, x, base := SoldAndLost(i);
    RecoveryConservesIff(rows, x, base, i);
  }

  lemma SoldAndLost(i: TradeIntent) returns (rows: Rows, x: Books, base: Wallet)
    ensures Sound(rows, x, base) && i.id in rows && Matches(rows, i) && rows[i.id].state == Unknown
    ensures Sold(x, OriginOf(i)) && ClientId(OriginOf(i), Entry) in x.orders
    ensures NetQty(x.orders[ClientId(OriginOf(i), Entry)], i.symbol) == 2.0 && Free(x, i.symbol) == 1.0
  {
    var o := OriginOf(i);
    base := map[i.symbol := 1.0];
    rows := map[i.id := Row(Readable(i), Unknown, ClientId(o, Entry), 1, true, None, None, None)];
    x := Books(base, map[], map[]);
    forall s: Symbol ensures ConservedAt(x, base, s) {
    }
    var bought := Bought(x, ClientId(o, Entry), Order(i.symbol, OrderFilled, 2.0, 2.0, 1.0, 0.0, Some(i.symbol.base)));
    BuyConserves(x, base, o, bought.orders[ClientId(o, Entry)]);
    x := SoldOff(bought, ClientId(o, EmergencyExitSale), i.symbol, 2.0, 1.0);
    SaleConservesIff(bought, base, o, i.symbol, 2.0, 1.0);
    forall id ensures RowSound(rows, id, x) {
    }
    assert Balance(x, i.symbol) == 1.0;
    assert Reserved(x, i.symbol) == 0.0;
  }

  /** Recovery of `j` would find the entry of another intent behind the row, and something to reserve for it. */
  ghost predicate Trespass(row: Row, x: Books, j: TradeIntent) {
    && AsksForEntry(row) && Shown(x, j.symbol, row.entryId).Some?
    && Min(NetQty(Shown(x, j.symbol, row.entryId).value, j.symbol), Free(x, j.symbol)) > 0.0
  }

  lemma OwnsNothing(rows: Rows, x: Books, o: Origin, suffix: Suffix)
    requires AllOwned(rows, x) && !Owns(rows, o)
    ensures ClientId(o, suffix) !in x.orders && ClientId(o, suffix) !in x.protections
  {
    assert !Owns(rows, ClientId(o, suffix).origin);
  }

  /** A second intent under a used id is recovered against the row of the first.  If its client ids are its own,
      the books stay balanced exactly when it does not trespass; if they are the first one's, exactly when the
      first one's recovery does not overreach, or the symbols differ. */
  lemma ReusedIdConservesIff(rows: Rows, x: Books, base: Wallet, i: TradeIntent, j: TradeIntent)
    requires Sound(rows, x, base) && i.id in rows && Matches(rows, i) && j.id == i.id
    ensures Conserved(RecoveredBooks(rows[i.id], x, j), base) <==>
              if OriginOf(j) != OriginOf(i) then !Trespass(rows[i.id], x, j)
              else j.symbol != i.symbol || !Overreach(rows, x, i)
  {
    var row := rows[i.id];
    assert RowSound(rows, i.id, x);
    var entry := Shown(x, j.symbol, row.entryId);
    if OriginOf(j) == OriginOf(i) {
      RecoveryConservesIff(rows, x, base, i);
    } else if AsksForEntry(row) && entry.Some? {
      var partial := WantsPartial(row.state, entry.value.status).value;
      OwnsNothing(rows, x, OriginOf(j), ProtectionSuffix(partial));
      OwnsNothing(rows, x, OriginOf(j), Entry);
      PlacementConservesIff(x, base, OriginOf(j), partial, j.symbol,
        Min(NetQty(entry.value, j.symbol), Free(x, j.symbol)));
    }
  }

  /** It does happen: two coins bought for `i`, then `j`, the same trade by another strategy under the same id,
      is recovered and reserves both of them in its own name. */
  lemma ReusedIdTrespasses(i: TradeIntent) returns (rows: Rows, x: Books, base: Wallet, j: TradeIntent)
    ensures Sound(rows, x, base) && i.id in rows && Matches(rows, i) && j.id == i.id && j.symbol == i.symbol
    ensures Trespass(rows[i.id], x, j) && !Conserved(RecoveredBooks(rows[i.id], x, j), base)
    ensures Conserved(RecoveredBooks(rows[i.id], x, i), base)
  {
    var o := OriginOf(i);
    j := i.(strategyId := i.strategyId + 1);
    base := map[];
    rows := map[i.id := Row(Readable(i), Unknown, ClientId(o, Entry), 1, true, None, None, None)];
    var empty := Books(base, map[], map[]);
    forall s: Symbol ensures ConservedAt(empty, base, s) {
    }
    var order := Order(i.symbol, OrderFilled, 2.0, 2.0, 1.0, 0.0, Some(i.symbol.base));
    BuyConserves(empty, base, o, order);
    x := Bought(empty, ClientId(o, Entry), order);
    forall id ensures RowSound(rows, id, x) {
    }
    assert Balance(x, i.symbol) == 2.0;
    assert Reserved(x, i.symbol) == 0.0;
    RecoveryConservesIff(rows, x, base, i);
    ReusedIdConservesIff(rows, x, base, i, j);
  }
}
