/** The ledger over whole runs: conservation, non-negative holdings, and the life of the id counter. */
module LedgerRuns {
  import opened Ledger
  import opened LedgerLaws

  /** One transaction against the database: a user request, or a price update with its drawn direction. */
  datatype Op = User(request: Request) | Quote(symbol: string, newValue: real, up: bool)

  function Apply(s: Store, op: Op): (res: (Store, int))
    requires IndexInTable(s.tables)
    ensures IndexInTable(res.0.tables)
  {
    match op
    case User(r) => Dispatch(s, r)
    case Quote(symbol, newValue, up) => UpdateStock(s, symbol, newValue, up)
  }

  function Run(s: Store, ops: seq<Op>): (s': Store)
    requires IndexInTable(s.tables)
    ensures IndexInTable(s'.tables)
    decreases |ops|
  {
    if ops == [] then s else Run(Apply(s, ops[0]).0, ops[1..])
  }

  /** What a committed operation asks for one pair: purchases add, sales subtract. */
  function Delta(op: Op, a: string, y: string): int {
    match op
    case User(Purchase(items)) => Amount(items, a, y)
    case User(Sale(items)) => -Amount(items, a, y)
    case _ => 0
  }

  /** Committed purchases minus committed sales of a pair over a run. */
  function Net(s: Store, ops: seq<Op>, a: string, y: string): int
    requires IndexInTable(s.tables)
    decreases |ops|
  {
    if ops == [] then 0
    else
      var (s1, rc) := Apply(s, ops[0]);
      (if rc == SUCCESS then Delta(ops[0], a, y) else 0) + Net(s1, ops[1..], a, y)
  }

  lemma ApplyEffect(s: Store, op: Op)
    requires Ok(s)
    ensures var (s', rc) := Apply(s, op);
            && Ok(s') && s.nextId <= s'.nextId
            && (rc != SUCCESS ==> s'.tables == s.tables)
            && (rc == SUCCESS ==> forall a, y :: Hold(s'.tables, a, y) == Hold(s.tables, a, y) + Delta(op, a, y))
  {
    match op
    case User(Purchase(items)) => PurchaseAtomic(s, items);
    case User(Sale(items)) => SaleAtomic(s, items);
    case _ =>
  }

  /** Conservation: over every run the stocks held of a pair change by exactly what was bought in
      committed purchases less what was sold in committed sales, and the ledger stays sound. */
  lemma {:induction false} Conservation(s: Store, ops: seq<Op>, a: string, y: string)
    requires Ok(s)
    ensures Ok(Run(s, ops)) && s.nextId <= Run(s, ops).nextId
    ensures Hold(Run(s, ops).tables, a, y) == Hold(s.tables, a, y) + Net(s, ops, a, y)
    decreases |ops|
  {
    if ops != [] {
      ApplyEffect(s, ops[0]);
      Conservation(Apply(s, ops[0]).0, ops[1..], a, y);
    }
  }

  /** From an empty Portfolios table the holding is the net of the run, and every record ever stored
      keeps a pair of its own and an id below the counter: the no-overwrite put has a free key,
      whatever transactions were aborted. */
  lemma EmptyTableRun(s: Store, ops: seq<Op>, a: string, y: string)
    requires s.tables.portfolios == map[] && s.tables.index == []
    ensures var s' := Run(s, ops);
            && Hold(s'.tables, a, y) == Net(s, ops, a, y)
            && Ok(s')
            && (forall k :: k >= s'.nextId ==> k !in s'.tables.portfolios)
            && (Find(s'.tables, a, y).None? ==> Create(s', a, y, 0.0, 0, 1).1 == SUCCESS)
  {
    Conservation(s, ops, a, y);
    if Find(Run(s, ops).tables, a, y).None? {
      CreateOk(Run(s, ops), a, y, 0.0, 0, 1);
    }
  }

  ghost predicate NonNegative(t: Tables)
    requires IndexInTable(t)
  {
    forall a, y :: Hold(t, a, y) >= 0
  }

  /** No sale can drive a holding below zero, whatever amounts its items name. */
  lemma {:induction false} SaleCovered(t: Tables, items: seq<Item>, n: nat, a: string, y: string)
    requires IndexInTable(t) && NonNegative(t) && AllCanSell(t, items) && n <= |items|
    ensures Hold(t, a, y) - Amount(items[..n], a, y) >= 0
  {
    if n > 0 {
      SaleCovered(t, items, n - 1, a, y);
      assert items[..n] == items[..n - 1] + [items[n - 1]];
      AmountAppend(items[..n - 1], items[n - 1], a, y);
      assert CanSellAt(t, items, n - 1);
    }
  }

  /** Every quote is above a tenth below zero. */
  ghost predicate PricesAbove(t: Tables) {
    forall y :: y in t.quotes ==> t.quotes[y] > -0.1
  }

  /** No item can be bought at quotes that a run can reach, or no item at all. */
  ghost predicate Hopeless(item: Item) {
    item.account == "" || item.symbol == "" || item.price <= -0.1
  }

  /** A purchase batch that cannot make a holding negative: it can never commit, or it asks for no pair
      less than nothing in all. */
  ghost predicate Harmless(items: seq<Item>) {
    (exists i :: 0 <= i < |items| && Hopeless(items[i])) || (forall a, y :: Amount(items, a, y) >= 0)
  }

  lemma HarmlessKeeps(s: Store, items: seq<Item>)
    requires Ok(s) && NonNegative(s.tables) && PricesAbove(s.tables) && Harmless(items)
    ensures NonNegative(PurchaseBatch(s, items).0.tables)
  {
    PurchaseAtomic(s, items);
    if i :| 0 <= i < |items| && Hopeless(items[i]) {
      assert !CanBuy(s.tables, items[i]);
    }
  }

  function LowestPrice(items: seq<Item>): (p: real)
    ensures forall i :: 0 <= i < |items| ==> p <= items[i].price
    ensures (forall i :: 0 <= i < |items| ==> items[i].price > -0.1) ==> p > -0.1
  {
    if items == [] then 0.0
    else
      var q := LowestPrice(items[1..]);
      assert forall i :: 1 <= i < |items| ==> items[i] == items[1..][i - 1];
      if items[0].price < q then items[0].price else q
  }

  /** A ledger without portfolios in which every item of the batch can be bought. */
  function Market(items: seq<Item>): Store {
    var symbols := set i | 0 <= i < |items| :: items[i].symbol;
    Store(Tables(set i | 0 <= i < |items| :: items[i].account, symbols,
                 map y | y in symbols :: LowestPrice(items), map[], []), 0)
  }

  /** The server checks no amounts. A purchase batch keeps holdings non-negative in every sound ledger with
      quotes that runs can reach, if and only if it is harmless. */
  lemma NonNegativeIff(items: seq<Item>)
    ensures Harmless(items) <==>
            forall s :: Ok(s) && PricesAbove(s.tables) && NonNegative(s.tables) ==>
              NonNegative(PurchaseBatch(s, items).0.tables)
  {
    if Harmless(items) {
      forall s | Ok(s) && PricesAbove(s.tables) && NonNegative(s.tables)
        ensures NonNegative(PurchaseBatch(s, items).0.tables)
      {
        HarmlessKeeps(s, items);
      }
    } else {
      MarketGoesNegative(items);
    }
  }

  lemma MarketGoesNegative(items: seq<Item>)
    requires !Harmless(items)
    ensures var s := Market(items);
            && Ok(s) && PricesAbove(s.tables) && NonNegative(s.tables)
            && !NonNegative(PurchaseBatch(s, items).0.tables)
  {
    var a, y :| Amount(items, a, y) < 0;
    var s := Market(items);
    forall i | 0 <= i < |items| ensures items[i].price > -0.1 && CanBuy(s.tables, items[i]) {
      assert !Hopeless(items[i]);
    }
    PurchaseAtomic(s, items);
    assert Hold(PurchaseBatch(s, items).0.tables, a, y) < 0;
  }

  /** The random walk of refreshes never takes a price to a tenth below zero, over any run. */
  lemma {:induction false} PricesStayAbove(s: Store, ops: seq<Op>)
    requires Ok(s) && PricesAbove(s.tables)
    ensures PricesAbove(Run(s, ops).tables)
    decreases |ops|
  {
    if ops != [] {
      ApplyEffect(s, ops[0]);
      PriceStep(s, ops[0]);
      PricesStayAbove(Apply(s, ops[0]).0, ops[1..]);
    }
  }

  lemma PriceStep(s: Store, op: Op)
    requires Ok(s) && PricesAbove(s.tables)
    ensures PricesAbove(Apply(s, op).0.tables)
  {
    match op
    case User(Purchase(items)) => PurchaseAtomic(s, items);
    case User(Sale(items)) => SaleAtomic(s, items);
    case _ =>
  }

  /** A price as the last value that was set, or the first one, and tenths since then. */
  datatype Walk = Walk(base: real, steps: int) {
    function Price(): real {
      base + 0.1 * steps as real
    }
  }

  /** Where a price update takes its symbol: to the value given, or a tenth as drawn, but up from zero or
      below. */
  function Moves(w: Walk, op: Op, y: string): Walk {
    if op.User? || op.symbol != y then w
    else if op.newValue >= 0.0 then Walk(op.newValue, 0)
    else w.(steps := w.steps + (if op.up || w.Price() <= 0.0 then 1 else -1))
  }

  function Walked(w: Walk, ops: seq<Op>, y: string): Walk
    decreases |ops|
  {
    if ops == [] then w else Walked(Moves(w, ops[0], y), ops[1..], y)
  }

  lemma ApplyKeepsQuotes(s: Store, op: Op)
    requires IndexInTable(s.tables)
    ensures var q, q' := s.tables.quotes, Apply(s, op).0.tables.quotes;
            && q'.Keys == q.Keys
            && forall y :: y in q && (op.User? || y != op.symbol) ==> q'[y] == q[y]
  {
    match op
    case User(r) => RequestEffect(s, r);
    case Quote(symbol, newValue, up) => UpdateEffect(s, symbol, newValue, up);
  }

  /** Over every run from any store, sound or not, no symbol gains or loses a quote, and a quote is the last
      value it was set to, or the one it started from, plus a tenth for each step up and less a tenth for
      each step down since then. */
  lemma {:induction false} QuotesWalk(s: Store, ops: seq<Op>, y: string, w: Walk)
    requires IndexInTable(s.tables) && y != "" && (y in s.tables.quotes ==> s.tables.quotes[y] == w.Price())
    ensures var q := Run(s, ops).tables.quotes;
            q.Keys == s.tables.quotes.Keys && (y in q ==> q[y] == Walked(w, ops, y).Price())
    decreases |ops|
  {
    if ops != [] {
      ApplyMoves(s, ops[0], y, w);
      QuotesWalk(Apply(s, ops[0]).0, ops[1..], y, Moves(w, ops[0], y));
    }
  }

  lemma ApplyMoves(s: Store, op: Op, y: string, w: Walk)
    requires IndexInTable(s.tables) && y != "" && (y in s.tables.quotes ==> s.tables.quotes[y] == w.Price())
    ensures var q := Apply(s, op).0.tables.quotes;
            q.Keys == s.tables.quotes.Keys && (y in q ==> q[y] == Moves(w, op, y).Price())
  {
    ApplyKeepsQuotes(s, op);
    if op.Quote? && op.symbol == y {
      UpdateEffect(s, y, op.newValue, op.up);
    }
  }

  /** A tenth up or down for each refresh of a symbol. */
  function Drift(price: real, ops: seq<Op>, y: string): int
    decreases |ops|
  {
    if ops == [] then 0
    else if ops[0].Quote? && ops[0].symbol == y then
      var step := if ops[0].up || price <= 0.0 then 1 else -1;
      step + Drift(price + 0.1 * step as real, ops[1..], y)
    else Drift(price, ops[1..], y)
  }

  lemma {:induction false} WalkDrifts(w: Walk, ops: seq<Op>, y: string)
    requires forall i :: 0 <= i < |ops| && ops[i].Quote? && ops[i].symbol == y ==> ops[i].newValue < 0.0
    ensures Walked(w, ops, y) == Walk(w.base, w.steps + Drift(w.Price(), ops, y))
    decreases |ops|
  {
    if ops != [] {
      var w1 := Moves(w, ops[0], y);
      if w1 != w {
        assert w1.Price() == w.Price() + 0.1 * (w1.steps - w.steps) as real;
      }
      WalkDrifts(w1, ops[1..], y);
    }
  }

  /** A quote that is only refreshed ends where it started, a tenth further for each refresh. */
  lemma RefreshedQuote(s: Store, ops: seq<Op>, y: string)
    requires IndexInTable(s.tables) && y != "" && y in s.tables.quotes
    requires forall i :: 0 <= i < |ops| && ops[i].Quote? && ops[i].symbol == y ==> ops[i].newValue < 0.0
    ensures var start, q := s.tables.quotes[y], Run(s, ops).tables.quotes;
            y in q && q[y] == start + 0.1 * Drift(start, ops, y) as real
  {
    var w := Walk(s.tables.quotes[y], 0);
    QuotesWalk(s, ops, y, w);
    WalkDrifts(w, ops, y);
  }

  /** Over every run whose purchase batches are harmless, no holding is ever negative. */
  lemma {:induction false} NeverNegative(s: Store, ops: seq<Op>)
    requires Ok(s) && PricesAbove(s.tables) && NonNegative(s.tables)
    requires forall i :: 0 <= i < |ops| && ops[i].User? && ops[i].request.Purchase? ==> Harmless(ops[i].request.items)
    ensures Ok(Run(s, ops)) && NonNegative(Run(s, ops).tables)
    decreases |ops|
  {
    if ops != [] {
      ApplyEffect(s, ops[0]);
      match ops[0] {
        case User(Purchase(items)) => HarmlessKeeps(s, items);
        case User(Sale(items)) =>
          SaleAtomic(s, items);
          if AllCanSell(s.tables, items) {
            assert items[..|items|] == items;
            forall a, y ensures Hold(s.tables, a, y) - Amount(items, a, y) >= 0 {
              SaleCovered(s.tables, items, |items|, a, y);
            }
          }
        case _ =>
      }
      PriceStep(s, ops[0]);
      NeverNegative(Apply(s, ops[0]).0, ops[1..]);
    }
  }

  /** benchmark_portfolios_stats_get, run when a handle is opened: the counter restarts at the number
      of records. */
  function Reopen(s: Store): Store {
    s.(nextId := |s.tables.portfolios|)
  }

  /** The ids 0, ..., n-1. */
  ghost function Below(n: nat): (ids: set<nat>)
    ensures |ids| == n && forall k: nat :: k in ids <==> k < n
  {
    if n == 0 then {} else Below(n - 1) + {n - 1}
  }

  lemma SubsetOfSameSize(a: set<nat>, b: set<nat>)
    requires a <= b && |a| == |b|
    ensures a == b
  {
    if x :| x in b && x !in a {
      assert a <= b - {x};
      SubsetSize(a, b - {x});
    }
  }

  lemma {:induction false} SubsetSize(a: set<nat>, b: set<nat>)
    requires a <= b
    ensures |a| <= |b|
  {
    if x :| x in a {
      SubsetSize(a - {x}, b - {x});
    }
  }

  /** A reopened handle has only free ids ahead of it if and only if the stored ids have no gap. Aborted
      batches leave gaps, because the counter is bumped outside of the transaction. */
  lemma ReopenSafeIff(s: Store)
    ensures (forall k :: k >= Reopen(s).nextId ==> k !in s.tables.portfolios)
            <==> s.tables.portfolios.Keys == Below(|s.tables.portfolios|)
  {
    var keys, n := s.tables.portfolios.Keys, |s.tables.portfolios|;
    if forall k :: k >= n ==> k !in s.tables.portfolios {
      SubsetOfSameSize(keys, Below(n));
    }
  }

  /** Without a gap the reopened ledger is sound, and stays so: over any further run, every batch whose
      items can be bought commits. */
  lemma ReopenRuns(s: Store, ops: seq<Op>, items: seq<Item>)
    requires Ok(s)
    ensures Ok(Reopen(s)) <==> s.tables.portfolios.Keys == Below(|s.tables.portfolios|)
    ensures Ok(Reopen(s)) ==>
              (PurchaseBatch(Run(Reopen(s), ops), items).1 == SUCCESS <==> AllCanBuy(Run(Reopen(s), ops).tables, items))
  {
    ReopenSafeIff(s);
    if Ok(Reopen(s)) {
      Conservation(Reopen(s), ops, "", "");
      PurchaseAtomic(Run(Reopen(s), ops), items);
    }
  }

  /** The first new portfolio of a reopened handle fails exactly when its id is taken. */
  lemma ReopenFirstCreateIff(s: Store, item: Item)
    requires Ok(s) && CanBuy(s.tables, item) && Find(s.tables, item.account, item.symbol).None?
    ensures PurchaseBatch(Reopen(s), [item]).1 == SUCCESS
            <==> |s.tables.portfolios| !in s.tables.portfolios
  {
    var r := Reopen(s);
    assert [item][1..] == [];
    assert PlaceOrder(r, item.account, item.symbol, item.price, item.amount, 1)
        == Create(r, item.account, item.symbol, item.price, item.amount, 1);
    var (s1, rc) := Create(r, item.account, item.symbol, item.price, item.amount, 1);
    assert PlaceAll(r, [item]) == if rc != SUCCESS then (s1, FAIL) else (s1, SUCCESS);
  }

  /** The same purchase of one item, k times. */
  function Tries(item: Item, k: nat): seq<Op> {
    if k == 0 then [] else [User(Purchase([item]))] + Tries(item, k - 1)
  }

  lemma TakenTry(s: Store, item: Item)
    requires IndexInTable(s.tables) && CanBuy(s.tables, item) && Find(s.tables, item.account, item.symbol).None?
    ensures PurchaseBatch(s, [item]).1 == SUCCESS <==> s.nextId !in s.tables.portfolios
    ensures s.nextId in s.tables.portfolios ==> PurchaseBatch(s, [item]).0 == s.(nextId := s.nextId + 1)
  {
    assert [item][1..] == [];
    var (s1, rc) := Create(s, item.account, item.symbol, item.price, item.amount, 1);
    assert PlaceOrder(s, item.account, item.symbol, item.price, item.amount, 1) == (s1, rc);
    assert PlaceAll(s, [item]) == if rc != SUCCESS then (s1, FAIL) else PlaceAll(s1, []);
  }

  /** A failed attempt changes nothing but the counter. So where ids are taken, a purchase that is repeated
      fails exactly as often as there are taken ids in a row from the counter on, and then succeeds. */
  lemma {:induction false} RetriesRecover(s: Store, item: Item, k: nat)
    requires IndexInTable(s.tables) && CanBuy(s.tables, item) && Find(s.tables, item.account, item.symbol).None?
    requires forall i :: s.nextId <= i < s.nextId + k ==> i in s.tables.portfolios
    requires s.nextId + k !in s.tables.portfolios
    ensures Run(s, Tries(item, k)) == s.(nextId := s.nextId + k)
    ensures PurchaseBatch(Run(s, Tries(item, k)), [item]).1 == SUCCESS
    ensures k > 0 ==> PurchaseBatch(s, [item]).1 == FAIL
    decreases k
  {
    TakenTry(s, item);
    if k > 0 {
      var ops, s1 := Tries(item, k), s.(nextId := s.nextId + 1);
      assert ops[0] == User(Purchase([item])) && ops[1..] == Tries(item, k - 1);
      RetriesRecover(s1, item, k - 1);
    }
  }

  /** A purchase of one item for a pair without a record. */
  lemma BuyFirst(s: Store, item: Item)
    requires Ok(s) && CanBuy(s.tables, item) && Find(s.tables, item.account, item.symbol).None?
    ensures PurchaseBatch(s, [item]) == Create(s, item.account, item.symbol, item.price, item.amount, 1)
    ensures PurchaseBatch(s, [item]).1 == SUCCESS
  {
    CreateOk(s, item.account, item.symbol, item.price, item.amount, 1);
    assert [item][1..] == [];
    var s1 := Create(s, item.account, item.symbol, item.price, item.amount, 1).0;
    assert PlaceOrder(s, item.account, item.symbol, item.price, item.amount, 1) == (s1, SUCCESS);
    assert PlaceAll(s, [item]) == PlaceAll(s1, []) == (s1, SUCCESS);
  }

  /** A batch whose second item cannot be bought: it aborts, and costs an id. */
  lemma AbortAfterCreate(s: Store, good: Item, bad: Item)
    requires Ok(s) && CanBuy(s.tables, good) && Find(s.tables, good.account, good.symbol).None?
    requires !CanBuy(s.tables, bad)
    ensures PurchaseBatch(s, [good, bad]) == (s.(nextId := s.nextId + 1), FAIL)
  {
    var s1 := Create(s, good.account, good.symbol, good.price, good.amount, 1).0;
    CreateOk(s, good.account, good.symbol, good.price, good.amount, 1);
    assert [good, bad][1..] == [bad];
    assert PlaceOrder(s, good.account, good.symbol, good.price, good.amount, 1) == (s1, SUCCESS);
    assert !CanBuy(s1.tables, bad);
    BuyEffect(s1, bad);
    assert PlaceOrder(s1, bad.account, bad.symbol, bad.price, bad.amount, 1) == (s1, FAIL);
    assert PlaceAll(s, [good, bad]) == PlaceAll(s1, [bad]) == (s1, FAIL);
  }

  /** And it does happen: an aborted batch, a committed purchase and a restart make the next, perfectly
      valid, purchase fail. */
  lemma ReopenCollides() returns (s: Store, first: seq<Item>, second: seq<Item>, third: Item)
    ensures s.tables.portfolios == map[] && s.tables.index == [] && s.nextId == 0
    ensures var s2 := Run(s, [User(Purchase(first)), User(Purchase(second))]);
            && CanBuy(s2.tables, third)
            && PurchaseBatch(s2, [third]).1 == SUCCESS
            && PurchaseBatch(Reopen(s2), [third]).1 == FAIL
  {
    var good, bad := Item("a", "x", 1.0, 5), Item("a", "x", 0.0, 5);
    third := Item("a", "y", 1.0, 5);
    s := Store(Tables({"a"}, {"x", "y"}, map["x" := 1.0, "y" := 1.0], map[], []), 0);
    first, second := [third, bad], [good];
    AbortAfterCreate(s, third, bad);
    var s1 := s.(nextId := 1);
    BuyFirst(s1, good);
    var s2 := Create(s1, "a", "x", 1.0, 5, 1).0;
    RunTwo(s, User(Purchase(first)), User(Purchase(second)));
    CreateOk(s1, "a", "x", 1.0, 5, 1);
    assert s2.tables.index == [1] && s2.tables.index[1..] == [] && Find(s2.tables, "a", "y").None?;
    BuyFirst(s2, third);
    ReopenFirstCreateIff(s2, third);
  }

  lemma RunTwo(s: Store, a: Op, b: Op)
    requires IndexInTable(s.tables)
    ensures Run(s, [a, b]) == Apply(Apply(s, a).0, b).0
  {
    var ops, s1 := [a, b], Apply(s, a).0;
    assert ops[1..] == [b] && [b][1..] == [];
    assert Run(s1, [b]) == Run(Apply(s1, b).0, []);
  }
}
