/** BENCHMARK_DBS: the open database handle, whose records the transactions overwrite in place. */
module BenchmarkDbs {
  import opened Ledger

  class BenchmarkDbs {
    const accounts: set<string>
    const stocks: set<string>
    var quotes: map<string, real>
    var portfolios: map<nat, Portfolio>
    var accountIndex: seq<nat>
    var numberPortfolios: nat
    var saved: Option<Tables>       // the tables as they were when the open transaction started

    /** The store the handle gives access to. */
    function View(): Store
      reads this
    {
      Store(Tables(accounts, stocks, quotes, portfolios, accountIndex), numberPortfolios)
    }

    ghost predicate Valid()
      reads this
    {
      IndexInTable(View().tables)
    }

    constructor (accounts: set<string>, stocks: set<string>, quotes: map<string, real>)
      ensures Valid() && saved == None
      ensures View() == Store(Tables(accounts, stocks, quotes, map[], []), 0)
    {
      this.accounts, this.stocks, this.quotes := accounts, stocks, quotes;
      portfolios, accountIndex, numberPortfolios, saved := map[], [], 0, None;
    }

    method StartXact()
      requires saved == None
      modifies this`saved
      ensures saved == Some(View().tables)
    {
      saved := Some(Tables(accounts, stocks, quotes, portfolios, accountIndex));
    }

    method CommitXact()
      requires saved.Some?
      modifies this`saved
      ensures saved == None
    {
      saved := None;
    }

    /** Puts the tables back; the counter is no table. */
    method AbortXact()
      requires saved.Some? && saved.value.accounts == accounts && saved.value.stocks == stocks
      modifies this`quotes, this`portfolios, this`accountIndex, this`saved
      ensures saved == None
      ensures View() == Store(old(saved.value), old(numberPortfolios))
    {
      quotes, portfolios, accountIndex := saved.value.quotes, saved.value.portfolios, saved.value.index;
      saved := None;
    }

    /** get_portfolio: the cursor loop over the account index. */
    method GetPortfolio(account: string, symbol: string) returns (key: Option<nat>)
      requires Valid()
      ensures key == Find(View().tables, account, symbol)
    {
      var i := 0;
      while i < |accountIndex|
        invariant 0 <= i <= |accountIndex|
        invariant Find(View().tables, account, symbol) == Scan(accountIndex[i..], portfolios, account, symbol)
      {
        assert accountIndex[i..][1..] == accountIndex[i + 1..];
        var record := portfolios[accountIndex[i]];
        if account == record.account && symbol == record.symbol {
          return Some(accountIndex[i]);
        }
        i := i + 1;
      }
      return None;
    }

    /** create_portfolio. */
    method CreatePortfolio(account: string, symbol: string, price: real, amount: int, force: int) returns (rc: int)
      requires Valid()
      modifies this`portfolios, this`accountIndex, this`numberPortfolios
      ensures Valid() && (View(), rc) == Create(old(View()), account, symbol, price, amount, force)
    {
      var id := numberPortfolios;
      numberPortfolios := numberPortfolios + 1;
      if id in portfolios {
        return FAIL;
      }
      portfolios := portfolios[id := NewPortfolio(account, symbol, price, amount, force)];
      accountIndex := accountIndex + [id];
      rc := SUCCESS;
    }

    /** place_order inside an open transaction. */
    method PlaceOrder(account: string, symbol: string, price: real, amount: int, force: int) returns (rc: int)
      requires Valid()
      modifies this`portfolios, this`accountIndex, this`numberPortfolios
      ensures Valid() && (View(), rc) == Ledger.PlaceOrder(old(View()), account, symbol, price, amount, force)
    {
      if account == "" || account !in accounts {
        return FAIL;
      }
      if symbol == "" || symbol !in stocks {
        return FAIL;
      }
      var key := GetPortfolio(account, symbol);
      match key
      case Some(id) =>
        var record := portfolios[id];
        if force == 1 {
          if symbol !in quotes || quotes[symbol] > price {
            return FAIL;
          }
          record := record.(hold := record.hold + amount);
        } else {
          record := record.(toBuy := true, numberBuy := amount, priceBuy := Truncate(price));
        }
        portfolios := portfolios[id := record];
        rc := SUCCESS;
      case None =>
        if force == 1 && (symbol !in quotes || quotes[symbol] > price) {
          return FAIL;
        }
        rc := CreatePortfolio(account, symbol, price, amount, force);
    }

    /** sell_stocks inside an open transaction. */
    method SellStocks(account: string, symbol: string, price: real, amount: int, force: int) returns (rc: int)
      requires Valid()
      modifies this`portfolios
      ensures Valid() && (View(), rc) == Ledger.SellStocks(old(View()), account, symbol, price, amount, force)
    {
      if account == "" || account !in accounts {
        return FAIL;
      }
      if symbol == "" || symbol !in stocks {
        return FAIL;
      }
      var key := GetPortfolio(account, symbol);
      if key == None {
        return FAIL;
      }
      var record := portfolios[key.value];
      if record.hold < amount {
        return FAIL;
      }
      if force == 1 {
        if symbol !in quotes || quotes[symbol] < price {
          return FAIL;
        }
        record := record.(hold := record.hold - amount);
      } else {
        record := record.(toSell := true, numberSell := amount, priceSell := Truncate(price));
      }
      portfolios := portfolios[key.value := record];
      rc := SUCCESS;
    }

    /** update_stock, with the direction rand() drew. */
    method UpdateStock(symbol: string, newValue: real, up: bool) returns (rc: int)
      requires Valid()
      modifies this`quotes
      ensures Valid() && (View(), rc) == Ledger.UpdateStock(old(View()), symbol, newValue, up)
      ensures rc == SUCCESS <==> symbol != "" && symbol in old(quotes)
      ensures quotes.Keys == old(quotes.Keys)
      ensures forall y :: y in quotes && (y != symbol || rc != SUCCESS) ==> quotes[y] == old(quotes)[y]
      ensures rc == SUCCESS ==> quotes[symbol] == if newValue >= 0.0 then newValue
                else old(quotes)[symbol] + (if up || old(quotes)[symbol] <= 0.0 then 0.1 else -0.1)
    {
      if symbol == "" || symbol !in quotes {
        return FAIL;
      }
      var price := quotes[symbol];
      if newValue >= 0.0 {
        price := newValue;
      } else if up || price <= 0.0 {
        price := price + 0.1;
      } else {
        price := price - 0.1;
      }
      quotes := quotes[symbol := price];
      rc := SUCCESS;
    }

    /** benchmark_purchase2: all of the orders, or none. */
    method Purchase(data: seq<Item>) returns (rc: int)
      requires Valid() && saved == None
      modifies this
      ensures Valid() && saved == None
      ensures (View(), rc) == PurchaseBatch(old(View()), data)
    {
      ghost var before := View();
      StartXact();
      var i := 0;
      assert data[0..] == data;
      while i < |data|
        invariant 0 <= i <= |data|
        invariant Valid() && saved == Some(before.tables)
        invariant PlaceAll(before, data) == PlaceAll(View(), data[i..])
      {
        assert data[i..][1..] == data[i + 1..];
        rc := PlaceOrder(data[i].account, data[i].symbol, data[i].price, data[i].amount, 1);
        if rc != SUCCESS {
          AbortXact();
          return FAIL;
        }
        i := i + 1;
      }
      CommitXact();
      rc := SUCCESS;
    }

    /** benchmark_sell2: all of the sales, or none. */
    method Sell(data: seq<Item>) returns (rc: int)
      requires Valid() && saved == None
      modifies this
      ensures Valid() && saved == None
      ensures (View(), rc) == SaleBatch(old(View()), data)
    {
      ghost var before := View();
      StartXact();
      var i := 0;
      assert data[0..] == data;
      while i < |data|
        invariant 0 <= i <= |data|
        invariant Valid() && saved == Some(before.tables)
        invariant SellAll(before, data) == SellAll(View(), data[i..])
      {
        assert data[i..][1..] == data[i + 1..];
        rc := SellStocks(data[i].account, data[i].symbol, data[i].price, data[i].amount, 1);
        if rc != SUCCESS {
          AbortXact();
          return FAIL;
        }
        i := i + 1;
      }
      CommitXact();
      rc := SUCCESS;
    }

    /** benchmark_view_stock2: succeeds when every symbol has a quote. */
    method ViewStock(symbols: seq<string>) returns (rc: int)
      requires Valid()
      ensures rc == if AllQuoted(View().tables, symbols) then SUCCESS else FAIL
    {
      for i := 0 to |symbols|
        invariant AllQuoted(View().tables, symbols[..i])
      {
        if symbols[i] == "" || symbols[i] !in quotes {
          assert !HasQuote(View().tables, symbols[i]);
          return FAIL;
        }
      }
      assert symbols[..|symbols|] == symbols;
      rc := SUCCESS;
    }

    /** The transaction switch of processUserTransaction. */
    method Execute(request: Request) returns (rc: int)
      requires Valid() && saved == None
      modifies this
      ensures Valid() && saved == None
      ensures (View(), rc) == Dispatch(old(View()), request)
    {
      match request
      case ViewStock(symbols) => rc := ViewStock(symbols);
      case ViewPortfolio(_) => rc := SUCCESS;
      case Purchase(items) => rc := Purchase(items);
      case Sale(items) => rc := Sell(items);
    }
  }
}
