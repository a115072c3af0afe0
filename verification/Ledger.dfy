/** The benchmark database as values: the tables Berkeley DB keeps, one transaction at a time, the
    portfolio id counter that lives outside of transactions, and what each operation of
    benchmark_common.c makes of them. */
module Ledger {

  const SUCCESS: int := 0
  const FAIL: int := 1

  datatype Option<T> = None | Some(value: T)

  /** A record of the Portfolios table; its primary key is the portfolio id. */
  datatype Portfolio = Portfolio(
    account: string, symbol: string, hold: int,
    toSell: bool, numberSell: int, priceSell: int,
    toBuy: bool, numberBuy: int, priceBuy: int)

  /** The transactional tables. `index` is the order in which a cursor on the account index meets
      the primary keys. */
  datatype Tables = Tables(
    accounts: set<string>, stocks: set<string>, quotes: map<string, real>,
    portfolios: map<nat, Portfolio>, index: seq<nat>)

  /** The database handle: the tables, and number_portfolios, which no abort restores. */
  datatype Store = Store(tables: Tables, nextId: nat)

  datatype Item = Item(account: string, symbol: string, price: real, amount: int)

  datatype Request =
    | ViewStock(symbols: seq<string>)
    | ViewPortfolio(accounts: seq<string>)
    | Purchase(items: seq<Item>)
    | Sale(items: seq<Item>)

  /** Conversion of a C float to int. */
  function Truncate(x: real): (n: int)
    ensures x >= 0.0 ==> n as real <= x < (n + 1) as real
    ensures x <= 0.0 ==> (n - 1) as real < x <= n as real
  {
    if x >= 0.0 then x.Floor else -((-x).Floor)
  }

  predicate AccountExists(t: Tables, account: string) {
    account != "" && account in t.accounts
  }

  predicate SymbolExists(t: Tables, symbol: string) {
    symbol != "" && symbol in t.stocks
  }

  predicate HasQuote(t: Tables, symbol: string) {
    symbol != "" && symbol in t.quotes
  }

  predicate IsFor(p: Portfolio, account: string, symbol: string) {
    p.account == account && p.symbol == symbol
  }

  predicate SamePair(p: Portfolio, q: Portfolio) {
    IsFor(p, q.account, q.symbol)
  }

  /** Every index entry has its record. */
  ghost predicate IndexInTable(t: Tables) {
    forall k :: k in t.index ==> k in t.portfolios
  }

  /** get_portfolio's scan of the account index: the first match in cursor order. */
  function Scan(index: seq<nat>, portfolios: map<nat, Portfolio>, account: string, symbol: string): (r: Option<nat>)
    requires forall k :: k in index ==> k in portfolios
    ensures r.Some? ==> r.value in index && IsFor(portfolios[r.value], account, symbol)
    ensures r.None? ==> forall k :: k in index ==> !IsFor(portfolios[k], account, symbol)
  {
    if index == [] then None
    else if IsFor(portfolios[index[0]], account, symbol) then Some(index[0])
    else Scan(index[1..], portfolios, account, symbol)
  }

  function Find(t: Tables, account: string, symbol: string): Option<nat>
    requires IndexInTable(t)
  {
    Scan(t.index, t.portfolios, account, symbol)
  }

  function NewPortfolio(account: string, symbol: string, price: real, amount: int, force: int): Portfolio {
    if force != 0
    then Portfolio(account, symbol, amount, false, 0, 0, false, 0, 0)
    else Portfolio(account, symbol, 0, false, 0, 0, true, amount, Truncate(price))
  }

  /** create_portfolio: the id is drawn before the put, which refuses to overwrite. */
  function Create(s: Store, account: string, symbol: string, price: real, amount: int, force: int): (Store, int) {
    var id := s.nextId;
    if id in s.tables.portfolios then (s.(nextId := id + 1), FAIL)
    else
      var t := s.tables.(portfolios := s.tables.portfolios[id := NewPortfolio(account, symbol, price, amount, force)],
                         index := s.tables.index + [id]);
      (Store(t, id + 1), SUCCESS)
  }

  function Overwrite(s: Store, id: nat, p: Portfolio): Store {
    s.(tables := s.tables.(portfolios := s.tables.portfolios[id := p]))
  }

  function PlaceOrder(s: Store, account: string, symbol: string, price: real, amount: int, force: int): (Store, int)
    requires IndexInTable(s.tables)
  {
    var t := s.tables;
    if !AccountExists(t, account) || !SymbolExists(t, symbol) then (s, FAIL)
    else
      match Find(t, account, symbol)
      case Some(id) =>
        if force == 1 then
          if !HasQuote(t, symbol) || t.quotes[symbol] > price then (s, FAIL)
          else (Overwrite(s, id, t.portfolios[id].(hold := t.portfolios[id].hold + amount)), SUCCESS)
        else
          var p := t.portfolios[id].(toBuy := true, numberBuy := amount, priceBuy := Truncate(price));
          (Overwrite(s, id, p), SUCCESS)
      case None =>
        if force == 1 && (!HasQuote(t, symbol) || t.quotes[symbol] > price) then (s, FAIL)
        else Create(s, account, symbol, price, amount, force)
  }

  function SellStocks(s: Store, account: string, symbol: string, price: real, amount: int, force: int): (Store, int)
    requires IndexInTable(s.tables)
  {
    var t := s.tables;
    if !AccountExists(t, account) || !SymbolExists(t, symbol) then (s, FAIL)
    else
      match Find(t, account, symbol)
      case None => (s, FAIL)
      case Some(id) =>
        if t.portfolios[id].hold < amount then (s, FAIL)
        else if force == 1 then
          if !HasQuote(t, symbol) || t.quotes[symbol] < price then (s, FAIL)
          else (Overwrite(s, id, t.portfolios[id].(hold := t.portfolios[id].hold - amount)), SUCCESS)
        else
          var p := t.portfolios[id].(toSell := true, numberSell := amount, priceSell := Truncate(price));
          (Overwrite(s, id, p), SUCCESS)
  }

  /** update_stock; `up` is the drawn direction, used when no price is given. */
  function UpdateStock(s: Store, symbol: string, newValue: real, up: bool): (Store, int) {
    var t := s.tables;
    if !HasQuote(t, symbol) then (s, FAIL)
    else
      var p := if newValue >= 0.0 then newValue
               else if up || t.quotes[symbol] <= 0.0 then t.quotes[symbol] + 0.1
               else t.quotes[symbol] - 0.1;
      (s.(tables := t.(quotes := t.quotes[symbol := p])), SUCCESS)
  }

  /** What a state keeps: the index lists every record once, ids are below the counter, and an
      (account, symbol) pair has one record. */
  ghost predicate Ok(s: Store) {
    var t := s.tables;
    && (forall k :: k in t.index <==> k in t.portfolios)
    && (forall i, j :: 0 <= i < j < |t.index| ==> t.index[i] != t.index[j])
    && (forall k :: k in t.portfolios ==> k < s.nextId)
    && (forall j, k | j in t.portfolios && k in t.portfolios :: SamePair(t.portfolios[j], t.portfolios[k]) ==> j == k)
  }

  /** The orders of a purchase batch, up to the first that fails. */
  function PlaceAll(s: Store, items: seq<Item>): (res: (Store, int))
    requires IndexInTable(s.tables)
    ensures IndexInTable(res.0.tables)
    decreases |items|
  {
    if items == [] then (s, SUCCESS)
    else
      var (s1, rc) := PlaceOrder(s, items[0].account, items[0].symbol, items[0].price, items[0].amount, 1);
      if rc != SUCCESS then (s1, FAIL) else PlaceAll(s1, items[1..])
  }

  function SellAll(s: Store, items: seq<Item>): (res: (Store, int))
    requires IndexInTable(s.tables)
    ensures IndexInTable(res.0.tables)
    decreases |items|
  {
    if items == [] then (s, SUCCESS)
    else
      var (s1, rc) := SellStocks(s, items[0].account, items[0].symbol, items[0].price, items[0].amount, 1);
      if rc != SUCCESS then (s1, FAIL) else SellAll(s1, items[1..])
  }

  /** Commit keeps the new tables, abort puts the old ones back; the counter stays where it got. */
  function Finish(before: Tables, res: (Store, int)): (Store, int) {
    if res.1 == SUCCESS then res else (Store(before, res.0.nextId), FAIL)
  }

  function PurchaseBatch(s: Store, items: seq<Item>): (res: (Store, int))
    requires IndexInTable(s.tables)
    ensures IndexInTable(res.0.tables)
  {
    Finish(s.tables, PlaceAll(s, items))
  }

  function SaleBatch(s: Store, items: seq<Item>): (res: (Store, int))
    requires IndexInTable(s.tables)
    ensures IndexInTable(res.0.tables)
  {
    Finish(s.tables, SellAll(s, items))
  }

  predicate AllQuoted(t: Tables, symbols: seq<string>) {
    forall i :: 0 <= i < |symbols| ==> HasQuote(t, symbols[i])
  }

  /** The switch of processUserTransaction: the one place where a user request meets the database. */
  function Dispatch(s: Store, r: Request): (res: (Store, int))
    requires IndexInTable(s.tables)
    ensures IndexInTable(res.0.tables)
  {
    match r
    case ViewStock(symbols) => (s, if AllQuoted(s.tables, symbols) then SUCCESS else FAIL)
    case ViewPortfolio(_) => (s, SUCCESS)
    case Purchase(items) => PurchaseBatch(s, items)
    case Sale(items) => SaleBatch(s, items)
  }

  /** benchmark_refresh_quotes2 as the server calls it: a negative value asks for a random move. */
  function Refresh(s: Store, symbol: string, up: bool): (res: (Store, int))
    requires IndexInTable(s.tables)
    ensures IndexInTable(res.0.tables)
  {
    UpdateStock(s, symbol, -1.0, up)
  }
}
