/** What the ledger keeps over every operation, every batch and every run. */
module LedgerLaws {
  import opened Ledger

  /** get_portfolio succeeds exactly when a record for the pair exists, and returns that record's
      primary key. */
  lemma FindCorrect(s: Store, account: string, symbol: string)
    requires Ok(s)
    ensures forall k :: k in s.tables.portfolios && IsFor(s.tables.portfolios[k], account, symbol)
              <==> Find(s.tables, account, symbol) == Some(k)
  {
  }

  /** The scan finds the same record whatever order the account index enumerates the keys in. */
  lemma ScanOrderIrrelevant(s: Store, index: seq<nat>, account: string, symbol: string)
    requires Ok(s)
    requires forall k :: k in index <==> k in s.tables.index
    ensures Scan(index, s.tables.portfolios, account, symbol) == Find(s.tables, account, symbol)
  {
  }

  /** The stocks an account holds of a symbol. */
  function Hold(t: Tables, account: string, symbol: string): int
    requires IndexInTable(t)
  {
    match Find(t, account, symbol)
    case None => 0
    case Some(id) => t.portfolios[id].hold
  }

  /** What a list of items asks for one pair, repeats included. */
  function Amount(items: seq<Item>, account: string, symbol: string): int {
    if items == [] then 0
    else (if items[0].account == account && items[0].symbol == symbol then items[0].amount else 0)
         + Amount(items[1..], account, symbol)
  }

  lemma {:induction false} AmountAppend(items: seq<Item>, last: Item, account: string, symbol: string)
    ensures Amount(items + [last], account, symbol)
         == Amount(items, account, symbol) + Amount([last], account, symbol)
  {
    if items == [] {
      assert items + [last] == [last];
    } else {
      assert (items + [last])[1..] == items[1..] + [last];
      AmountAppend(items[1..], last, account, symbol);
    }
  }

  /** The catalogs and prices an order is checked against. */
  predicate SameCatalogs(t: Tables, u: Tables) {
    t.accounts == u.accounts && t.stocks == u.stocks && t.quotes == u.quotes
  }

  predicate Known(t: Tables, item: Item) {
    && item.account != "" && item.account in t.accounts
    && item.symbol != "" && item.symbol in t.stocks && item.symbol in t.quotes
  }

  predicate CanBuy(t: Tables, item: Item) {
    Known(t, item) && t.quotes[item.symbol] <= item.price
  }

  /** A record for the pair holds enough, and the market pays the asked price. */
  predicate CanSell(t: Tables, item: Item)
    requires IndexInTable(t)
  {
    && Known(t, item) && t.quotes[item.symbol] >= item.price
    && Find(t, item.account, item.symbol).Some?
    && Hold(t, item.account, item.symbol) >= item.amount
  }

  lemma OverwriteOk(s: Store, id: nat, p: Portfolio)
    requires Ok(s) && id in s.tables.portfolios && SamePair(p, s.tables.portfolios[id])
    ensures Ok(Overwrite(s, id, p))
  {
    var t, u := s.tables, Overwrite(s, id, p).tables;
    forall j, k | j in u.portfolios && k in u.portfolios && SamePair(u.portfolios[j], u.portfolios[k])
      ensures j == k
    {
      assert SamePair(t.portfolios[j], t.portfolios[k]);
    }
  }

  /** create_portfolio's put never meets an existing key, and the new record keeps pairs unique. */
  lemma CreateOk(s: Store, account: string, symbol: string, price: real, amount: int, force: int)
    requires Ok(s) && Find(s.tables, account, symbol).None?
    ensures var (s', rc) := Create(s, account, symbol, price, amount, force);
            rc == SUCCESS && Ok(s') && s'.nextId == s.nextId + 1
  {
    var (s', rc) := Create(s, account, symbol, price, amount, force);
    var t, u := s.tables, s'.tables;
    assert s.nextId !in t.portfolios;
    assert u.index == t.index + [s.nextId];
    forall k ensures k in u.index <==> k in u.portfolios {
      assert k in u.index <==> k in t.index || k == s.nextId;
    }
    forall j, k | j in u.portfolios && k in u.portfolios && SamePair(u.portfolios[j], u.portfolios[k])
      ensures j == k
    {
      if j != s.nextId && k != s.nextId {
        assert SamePair(t.portfolios[j], t.portfolios[k]);
      }
      assert j in t.portfolios ==> j in t.index && !IsFor(t.portfolios[j], account, symbol);
      assert k in t.portfolios ==> k in t.index && !IsFor(t.portfolios[k], account, symbol);
    }
  }

  /** The record an order leaves, if the pair has one. */
  function Ordered(p: Portfolio, price: real, amount: int, force: int): Portfolio {
    if force == 1 then p.(hold := p.hold + amount)
    else p.(toBuy := true, numberBuy := amount, priceBuy := Truncate(price))
  }

  function Sold(p: Portfolio, price: real, amount: int, force: int): Portfolio {
    if force == 1 then p.(hold := p.hold - amount)
    else p.(toSell := true, numberSell := amount, priceSell := Truncate(price))
  }

  lemma PlaceOrderCases(s: Store, account: string, symbol: string, price: real, amount: int, force: int)
    requires IndexInTable(s.tables)
    ensures var s' := PlaceOrder(s, account, symbol, price, amount, force).0;
            match Find(s.tables, account, symbol)
            case None => s' == s || s' == Create(s, account, symbol, price, amount, force).0
            case Some(id) => s' == s || s' == Overwrite(s, id, Ordered(s.tables.portfolios[id], price, amount, force))
  {
  }

  /** An order, forced or not, keeps the ledger sound. */
  lemma PlaceOrderOk(s: Store, account: string, symbol: string, price: real, amount: int, force: int)
    requires Ok(s)
    ensures Ok(PlaceOrder(s, account, symbol, price, amount, force).0)
  {
    PlaceOrderCases(s, account, symbol, price, amount, force);
    match Find(s.tables, account, symbol)
    case None => CreateOk(s, account, symbol, price, amount, force);
    case Some(id) => OverwriteOk(s, id, Ordered(s.tables.portfolios[id], price, amount, force));
  }

  lemma SellStocksCases(s: Store, account: string, symbol: string, price: real, amount: int, force: int)
    requires IndexInTable(s.tables)
    ensures var s' := SellStocks(s, account, symbol, price, amount, force).0;
            match Find(s.tables, account, symbol)
            case None => s' == s
            case Some(id) => s' == s || s' == Overwrite(s, id, Sold(s.tables.portfolios[id], price, amount, force))
  {
  }

  /** So does a sale. */
  lemma SellStocksOk(s: Store, account: string, symbol: string, price: real, amount: int, force: int)
    requires Ok(s)
    ensures Ok(SellStocks(s, account, symbol, price, amount, force).0)
  {
    SellStocksCases(s, account, symbol, price, amount, force);
    match Find(s.tables, account, symbol)
    case None =>
    case Some(id) => OverwriteOk(s, id, Sold(s.tables.portfolios[id], price, amount, force));
  }

  /** The holdings move by `delta` for one pair and by nothing for every other. */
  ghost predicate Moved(t: Tables, u: Tables, account: string, symbol: string, delta: int)
    requires IndexInTable(t) && IndexInTable(u)
  {
    forall a, y :: Hold(u, a, y) == Hold(t, a, y) + (if a == account && y == symbol then delta else 0)
  }

  /** Records for other pairs stay found, and the given pair has one afterwards. */
  ghost predicate Kept(t: Tables, u: Tables, account: string, symbol: string)
    requires IndexInTable(t) && IndexInTable(u)
  {
    forall a, y :: Find(u, a, y).Some? <==> Find(t, a, y).Some? || (a == account && y == symbol)
  }

  /** The scan looks at accounts and symbols only. */
  lemma {:induction false} ScanSame(index: seq<nat>, p: map<nat, Portfolio>, q: map<nat, Portfolio>,
                                    a: string, y: string)
    requires forall k :: k in index ==> k in p && k in q && SamePair(p[k], q[k])
    ensures Scan(index, p, a, y) == Scan(index, q, a, y)
  {
    if index != [] {
      assert SamePair(p[index[0]], q[index[0]]);
      ScanSame(index[1..], p, q, a, y);
    }
  }

  lemma {:induction false} ScanAppend(index: seq<nat>, id: nat, p: map<nat, Portfolio>, a: string, y: string)
    requires id in p && forall k :: k in index ==> k in p
    ensures var first := Scan(index, p, a, y);
            Scan(index + [id], p, a, y)
              == if first.Some? then first else if IsFor(p[id], a, y) then Some(id) else None
  {
    if index == [] {
      assert index + [id] == [id];
    } else {
      assert (index + [id])[0] == index[0];
      assert (index + [id])[1..] == index[1..] + [id];
      ScanAppend(index[1..], id, p, a, y);
    }
  }

  lemma OverwriteHold(s: Store, id: nat, delta: int, a: string, y: string)
    requires Ok(s) && id in s.tables.portfolios
    ensures var p := s.tables.portfolios[id]; var s' := Overwrite(s, id, p.(hold := p.hold + delta));
            && IndexInTable(s'.tables)
            && Find(s'.tables, a, y) == Find(s.tables, a, y)
            && Hold(s'.tables, a, y) == Hold(s.tables, a, y) + (if a == p.account && y == p.symbol then delta else 0)
            && (a == p.account && y == p.symbol ==> Find(s.tables, a, y).Some?)
  {
  }

  lemma OverwriteMoves(s: Store, id: nat, delta: int)
    requires Ok(s) && id in s.tables.portfolios
    ensures var p := s.tables.portfolios[id]; var s' := Overwrite(s, id, p.(hold := p.hold + delta));
            && Ok(s')
            && Moved(s.tables, s'.tables, p.account, p.symbol, delta)
            && Kept(s.tables, s'.tables, p.account, p.symbol)
  {
    var p := s.tables.portfolios[id];
    OverwriteOk(s, id, p.(hold := p.hold + delta));
    forall a, y {
      OverwriteHold(s, id, delta, a, y);
    }
  }

  lemma CreateHold(s: Store, account: string, symbol: string, price: real, amount: int, a: string, y: string)
    requires Ok(s) && Find(s.tables, account, symbol).None?
    ensures var s' := Create(s, account, symbol, price, amount, 1).0;
            && IndexInTable(s'.tables)
            && Find(s'.tables, a, y)
                 == (if a == account && y == symbol then Some(s.nextId) else Find(s.tables, a, y))
            && Hold(s'.tables, a, y) == Hold(s.tables, a, y) + (if a == account && y == symbol then amount else 0)
  {
    CreateOk(s, account, symbol, price, amount, 1);
    var s' := Create(s, account, symbol, price, amount, 1).0;
    ScanAppend(s.tables.index, s.nextId, s'.tables.portfolios, a, y);
    forall k | k in s.tables.index ensures SamePair(s'.tables.portfolios[k], s.tables.portfolios[k]) {
      assert k != s.nextId;
    }
    ScanSame(s.tables.index, s'.tables.portfolios, s.tables.portfolios, a, y);
  }

  lemma CreateMoves(s: Store, account: string, symbol: string, price: real, amount: int)
    requires Ok(s) && Find(s.tables, account, symbol).None?
    ensures var (s', rc) := Create(s, account, symbol, price, amount, 1);
            && rc == SUCCESS && Ok(s')
            && Moved(s.tables, s'.tables, account, symbol, amount)
            && Kept(s.tables, s'.tables, account, symbol)
  {
    CreateOk(s, account, symbol, price, amount, 1);
    forall a, y {
      CreateHold(s, account, symbol, price, amount, a, y);
    }
  }

  /** A forced order succeeds exactly when the account, the stock and its quote exist and the quote
      does not exceed the limit; then it moves just that holding, and otherwise it changes no table. */
  lemma BuyEffect(s: Store, item: Item)
    requires Ok(s)
    ensures var (s', rc) := PlaceOrder(s, item.account, item.symbol, item.price, item.amount, 1);
            && Ok(s') && s.nextId <= s'.nextId && SameCatalogs(s.tables, s'.tables)
            && (rc == SUCCESS <==> CanBuy(s.tables, item))
            && (rc != SUCCESS ==> s'.tables == s.tables)
            && (rc == SUCCESS ==> Moved(s.tables, s'.tables, item.account, item.symbol, item.amount))
  {
    if CanBuy(s.tables, item) {
      match Find(s.tables, item.account, item.symbol)
      case None =>
        CreateMoves(s, item.account, item.symbol, item.price, item.amount);
        assert PlaceOrder(s, item.account, item.symbol, item.price, item.amount, 1)
            == Create(s, item.account, item.symbol, item.price, item.amount, 1);
      case Some(id) =>
        OverwriteMoves(s, id, item.amount);
        var p := s.tables.portfolios[id];
        assert PlaceOrder(s, item.account, item.symbol, item.price, item.amount, 1)
            == (Overwrite(s, id, p.(hold := p.hold + item.amount)), SUCCESS);
    } else {
      assert PlaceOrder(s, item.account, item.symbol, item.price, item.amount, 1) == (s, FAIL);
    }
  }

  /** A forced sale succeeds exactly when, besides, a record for the pair holds enough stocks. */
  lemma SellEffect(s: Store, item: Item)
    requires Ok(s)
    ensures var (s', rc) := SellStocks(s, item.account, item.symbol, item.price, item.amount, 1);
            && Ok(s') && s.nextId == s'.nextId && SameCatalogs(s.tables, s'.tables)
            && (rc == SUCCESS <==> CanSell(s.tables, item))
            && (rc != SUCCESS ==> s'.tables == s.tables)
            && (rc == SUCCESS ==> Moved(s.tables, s'.tables, item.account, item.symbol, -item.amount))
            && (rc == SUCCESS ==> Kept(s.tables, s'.tables, item.account, item.symbol))
  {
    if CanSell(s.tables, item) {
      var id := Find(s.tables, item.account, item.symbol).value;
      OverwriteMoves(s, id, -item.amount);
      var p := s.tables.portfolios[id];
      assert SellStocks(s, item.account, item.symbol, item.price, item.amount, 1)
          == (Overwrite(s, id, p.(hold := p.hold + -item.amount)), SUCCESS);
    } else {
      assert SellStocks(s, item.account, item.symbol, item.price, item.amount, 1) == (s, FAIL);
    }
  }

  /** Every item can be bought at the catalogs the batch starts from. */
  ghost predicate AllCanBuy(t: Tables, items: seq<Item>) {
    forall i :: 0 <= i < |items| ==> CanBuy(t, items[i])
  }

  /** Every item can be sold once the items before it have been. */
  ghost predicate AllCanSell(t: Tables, items: seq<Item>)
    requires IndexInTable(t)
  {
    forall i :: 0 <= i < |items| ==> CanSellAt(t, items, i)
  }

  ghost predicate CanSellAt(t: Tables, items: seq<Item>, i: nat)
    requires IndexInTable(t) && i < |items|
  {
    var x := items[i];
    && Known(t, x) && t.quotes[x.symbol] >= x.price
    && Find(t, x.account, x.symbol).Some?
    && Hold(t, x.account, x.symbol) - Amount(items[..i], x.account, x.symbol) >= x.amount
  }

  /** All holdings move by what the items ask, in one direction. */
  ghost predicate MovedAll(t: Tables, u: Tables, items: seq<Item>, sign: int)
    requires IndexInTable(t) && IndexInTable(u)
  {
    forall a, y :: Hold(u, a, y) == Hold(t, a, y) + sign * Amount(items, a, y)
  }

  lemma {:induction false} PlaceAllEffect(s: Store, items: seq<Item>)
    requires Ok(s)
    ensures var (s', rc) := PlaceAll(s, items);
            && Ok(s') && s.nextId <= s'.nextId && SameCatalogs(s.tables, s'.tables)
            && (rc == SUCCESS <==> AllCanBuy(s.tables, items))
            && (rc == SUCCESS ==> MovedAll(s.tables, s'.tables, items, 1))
    decreases |items|
  {
    if items != [] {
      BuyEffect(s, items[0]);
      var x := items[0];
      var (s1, rc) := PlaceOrder(s, x.account, x.symbol, x.price, x.amount, 1);
      if rc == SUCCESS {
        PlaceAllEffect(s1, items[1..]);
        assert forall i :: 0 <= i < |items| ==> items[i] == if i == 0 then x else items[1..][i - 1];
        assert forall i :: 0 <= i < |items| - 1 ==> items[1..][i] == items[i + 1];
        assert AllCanBuy(s.tables, items) <==> AllCanBuy(s1.tables, items[1..]);
      } else {
        assert !CanBuy(s.tables, items[0]);
      }
    }
  }

  lemma SellStep(t: Tables, t1: Tables, items: seq<Item>, i: nat)
    requires IndexInTable(t) && IndexInTable(t1) && 0 < i < |items| && SameCatalogs(t, t1)
    requires Moved(t, t1, items[0].account, items[0].symbol, -items[0].amount)
    requires Kept(t, t1, items[0].account, items[0].symbol)
    requires Find(t, items[0].account, items[0].symbol).Some?
    ensures CanSellAt(t, items, i) <==> CanSellAt(t1, items[1..], i - 1)
  {
    assert items[1..][i - 1] == items[i];
    assert items[..i][1..] == items[1..][..i - 1];
  }

  lemma {:induction false} SellAllEffect(s: Store, items: seq<Item>)
    requires Ok(s)
    ensures var (s', rc) := SellAll(s, items);
            && Ok(s') && s.nextId == s'.nextId && SameCatalogs(s.tables, s'.tables)
            && (rc == SUCCESS <==> AllCanSell(s.tables, items))
            && (rc == SUCCESS ==> MovedAll(s.tables, s'.tables, items, -1))
    decreases |items|
  {
    if items != [] {
      SellEffect(s, items[0]);
      var x := items[0];
      var (s1, rc) := SellStocks(s, x.account, x.symbol, x.price, x.amount, 1);
      assert CanSellAt(s.tables, items, 0) <==> CanSell(s.tables, x);
      if rc == SUCCESS {
        SellAllEffect(s1, items[1..]);
        forall i: nat | 0 < i < |items|
          ensures CanSellAt(s.tables, items, i) <==> CanSellAt(s1.tables, items[1..], i - 1)
        {
          SellStep(s.tables, s1.tables, items, i);
        }
        assert AllCanSell(s1.tables, items[1..]) ==> AllCanSell(s.tables, items);
        if AllCanSell(s.tables, items) {
          forall j | 0 <= j < |items[1..]| ensures CanSellAt(s1.tables, items[1..], j) {
            assert CanSellAt(s.tables, items, j + 1);
          }
        }
      }
    }
  }

  /** A purchase batch commits exactly when every item names an account and a stock that exist, at a
      quote within its limit. It then moves every holding by what it asked, and otherwise leaves all
      the tables as they were; the id counter may have advanced either way. */
  lemma PurchaseAtomic(s: Store, items: seq<Item>)
    requires Ok(s)
    ensures var (s', rc) := PurchaseBatch(s, items);
            && Ok(s') && s.nextId <= s'.nextId
            && (rc == SUCCESS <==> AllCanBuy(s.tables, items))
            && (rc == SUCCESS ==> SameCatalogs(s.tables, s'.tables) && MovedAll(s.tables, s'.tables, items, 1))
            && (rc != SUCCESS ==> s'.tables == s.tables)
  {
    PlaceAllEffect(s, items);
  }

  /** A sale batch commits exactly when every item, after the ones before it, has the stocks and a
      quote at or above its limit. */
  lemma SaleAtomic(s: Store, items: seq<Item>)
    requires Ok(s)
    ensures var (s', rc) := SaleBatch(s, items);
            && Ok(s') && s.nextId == s'.nextId
            && (rc == SUCCESS <==> AllCanSell(s.tables, items))
            && (rc == SUCCESS ==> SameCatalogs(s.tables, s'.tables) && MovedAll(s.tables, s'.tables, items, -1))
            && (rc != SUCCESS ==> s'.tables == s.tables)
  {
    SellAllEffect(s, items);
  }

  // ---------------------------------------------------------------- orders and sales that are not forced

  /** Nothing but one record changed, and of that no holding. */
  ghost predicate OnlyRecord(s: Store, s': Store, id: nat) {
    var t, u := s.tables, s'.tables;
    && s'.nextId == s.nextId && SameCatalogs(t, u) && u.index == t.index && u.portfolios.Keys == t.portfolios.Keys
    && id in t.portfolios && u.portfolios == t.portfolios[id := u.portfolios[id]]
    && SamePair(u.portfolios[id], t.portfolios[id]) && u.portfolios[id].hold == t.portfolios[id].hold
  }

  /** An order whose flag is not 1 looks at no quote. It succeeds exactly when account and stock exist, and
      leaves the wish to buy in the pair's record. If there was none, a new record starts with that wish and
      no stocks if the flag is 0, and with the stocks themselves if it is anything else. */
  lemma UnforcedOrder(s: Store, account: string, symbol: string, price: real, amount: int, force: int)
    requires Ok(s) && force != 1
    ensures var (s', rc) := PlaceOrder(s, account, symbol, price, amount, force);
            && (rc == SUCCESS <==> account != "" && account in s.tables.accounts
                                   && symbol != "" && symbol in s.tables.stocks)
            && (rc != SUCCESS ==> s' == s)
            && (rc == SUCCESS ==>
                  match Find(s.tables, account, symbol) {
                    case None =>
                      var id := s.nextId;
                      && s'.nextId == id + 1 && SameCatalogs(s.tables, s'.tables)
                      && id !in s.tables.portfolios && s'.tables.index == s.tables.index + [id]
                      && s'.tables.portfolios.Keys == s.tables.portfolios.Keys + {id}
                      && (forall k :: k in s.tables.portfolios ==> s'.tables.portfolios[k] == s.tables.portfolios[k])
                      && s'.tables.portfolios[id]
                           == (if force == 0
                               then Portfolio(account, symbol, 0, false, 0, 0, true, amount, Truncate(price))
                               else Portfolio(account, symbol, amount, false, 0, 0, false, 0, 0))
                    case Some(id) =>
                      var p, p' := s.tables.portfolios[id], s'.tables.portfolios[id];
                      && OnlyRecord(s, s', id)
                      && p'.toBuy && p'.numberBuy == amount && p'.priceBuy == Truncate(price)
                      && p'.toSell == p.toSell && p'.numberSell == p.numberSell && p'.priceSell == p.priceSell
                  })
  {
    PlaceOrderCases(s, account, symbol, price, amount, force);
    if Find(s.tables, account, symbol).None? {
      assert s.nextId !in s.tables.portfolios;
    }
  }

  /** A sale whose flag is not 1 looks at no quote either, but at the holding. */
  lemma UnforcedSale(s: Store, account: string, symbol: string, price: real, amount: int, force: int)
    requires Ok(s) && force != 1
    ensures var (s', rc) := SellStocks(s, account, symbol, price, amount, force);
            && (rc == SUCCESS <==> account != "" && account in s.tables.accounts
                                   && symbol != "" && symbol in s.tables.stocks
                                   && Find(s.tables, account, symbol).Some?
                                   && Hold(s.tables, account, symbol) >= amount)
            && (rc != SUCCESS ==> s' == s)
            && (rc == SUCCESS ==>
                  var id := Find(s.tables, account, symbol).value;
                  var p, p' := s.tables.portfolios[id], s'.tables.portfolios[id];
                  && OnlyRecord(s, s', id)
                  && p'.toSell && p'.numberSell == amount && p'.priceSell == Truncate(price)
                  && p'.toBuy == p.toBuy && p'.numberBuy == p.numberBuy && p'.priceBuy == p.priceBuy)
  {
    SellStocksCases(s, account, symbol, price, amount, force);
  }

  // ---------------------------------------------------------------- quotes

  /** A price update succeeds exactly when the symbol has a quote, and otherwise changes nothing. It sets
      that one quote: to the value given, if that is not negative, and else a tenth up or down, as drawn,
      but always up from zero or below. All other quotes, the other tables and the counter are kept. */
  lemma UpdateEffect(s: Store, symbol: string, newValue: real, up: bool)
    ensures var (s', rc) := UpdateStock(s, symbol, newValue, up);
            var q, q' := s.tables.quotes, s'.tables.quotes;
            && (rc == SUCCESS <==> symbol != "" && symbol in q)
            && (rc != SUCCESS ==> s' == s)
            && s' == s.(tables := s.tables.(quotes := q')) && q'.Keys == q.Keys
            && (forall y :: y in q && y != symbol ==> q'[y] == q[y])
            && (rc == SUCCESS ==>
                  if newValue >= 0.0 then q'[symbol] == newValue
                  else if up || q[symbol] <= 0.0 then q'[symbol] - q[symbol] == 0.1
                  else q[symbol] - q'[symbol] == 0.1)
  {
    if symbol != "" && symbol in s.tables.quotes {
      assert UpdateStock(s, symbol, newValue, up).0.tables.quotes.Keys == s.tables.quotes.Keys;
    }
  }

  lemma {:induction false} PlaceAllKeepsQuotes(s: Store, items: seq<Item>)
    requires IndexInTable(s.tables)
    ensures SameCatalogs(PlaceAll(s, items).0.tables, s.tables)
    decreases |items|
  {
    if items != [] {
      var x := items[0];
      PlaceOrderCases(s, x.account, x.symbol, x.price, x.amount, 1);
      var (s1, rc) := PlaceOrder(s, x.account, x.symbol, x.price, x.amount, 1);
      if rc == SUCCESS {
        PlaceAllKeepsQuotes(s1, items[1..]);
      }
    }
  }

  lemma {:induction false} SellAllKeepsQuotes(s: Store, items: seq<Item>)
    requires IndexInTable(s.tables)
    ensures SameCatalogs(SellAll(s, items).0.tables, s.tables)
    decreases |items|
  {
    if items != [] {
      var x := items[0];
      SellStocksCases(s, x.account, x.symbol, x.price, x.amount, 1);
      var (s1, rc) := SellStocks(s, x.account, x.symbol, x.price, x.amount, 1);
      if rc == SUCCESS {
        SellAllKeepsQuotes(s1, items[1..]);
      }
    }
  }

  /** What a user request answers and leaves alone, in every store. Viewing stocks succeeds exactly when
      every symbol has a quote, viewing portfolios always, and neither changes anything; no request changes
      accounts, stocks or quotes. */
  lemma RequestEffect(s: Store, r: Request)
    requires IndexInTable(s.tables)
    ensures var (s', rc) := Dispatch(s, r);
            && SameCatalogs(s'.tables, s.tables) && (rc == SUCCESS || rc == FAIL)
            && (r.ViewStock? || r.ViewPortfolio? ==> s' == s)
            && (r.ViewStock? ==> (rc == SUCCESS <==> forall y :: y in r.symbols ==> y != "" && y in s.tables.quotes))
            && (r.ViewPortfolio? ==> rc == SUCCESS)
            && (rc == FAIL ==> s'.tables == s.tables)
  {
    match r
    case ViewStock(symbols) =>
      assert AllQuoted(s.tables, symbols) <==> forall y :: y in symbols ==> HasQuote(s.tables, y);
    case ViewPortfolio(_) =>
    case Purchase(items) => PlaceAllKeepsQuotes(s, items);
    case Sale(items) => SellAllKeepsQuotes(s, items);
  }
}
