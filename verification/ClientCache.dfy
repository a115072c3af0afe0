/** The client side cache: which users each client thread acts for. */
module ClientCache {

  const ROOM: nat := 100       // of both arrays
  const NUM_USERS: nat := 50   // CHRONOS_CLIENT_NUM_USERS

  datatype Stock = Stock(symbolId: nat, symbol: string, amount: nat, price: real)
  datatype Portfolio = Portfolio(userId: nat, user: string, numSymbols: nat)

  /** What two calls of rand() returned. */
  datatype Draw = Draw(symbol: nat, amount: nat)

  function Min(a: nat, b: nat): nat {
    if a < b then a else b
  }

  function Max(a: nat, b: nat): nat {
    if a > b then a else b
  }

  /** How many of `things` each of `parts` gets: at least ten, at most a hundred. */
  function Share(things: nat, parts: nat): (share: nat)
    requires parts > 0
    ensures 10 <= share <= 100
    ensures things / parts < 10 ==> share == 10
    ensures things / parts > 100 ==> share == 100
    ensures 10 <= things / parts <= ROOM ==> share == things / parts
  {
    Max(Min(things / parts, 100), 10)
  }

  /** The user of slot i of a client; clients are numbered from 1. */
  function UserOf(client: nat, i: nat, portfolios: nat, users: nat): (u: nat)
    requires client >= 1 && users > 0
    ensures u < users
  {
    (i + portfolios * (client - 1)) % users
  }

  /** A user's entry. */
  function PortfolioAt(u: nat, users: seq<string>, symbols: seq<string>): Portfolio
    requires u < |users|
  {
    Portfolio(u, users[u], Share(|symbols|, |users|))
  }

  function StockAt(symbols: seq<string>, draw: Draw): Stock
    requires symbols != []
  {
    Stock(draw.symbol % |symbols|, symbols[draw.symbol % |symbols|], draw.amount % 100, 500.0)
  }

  /** The stock is the one whose id was drawn, under its own symbol, at the fixed price. */
  ghost predicate Drawn(stock: Stock, symbols: seq<string>, draw: Draw)
    requires symbols != []
  {
    && stock.symbolId < |symbols| && stock.symbol == symbols[stock.symbolId]
    && (draw.symbol - stock.symbolId) % |symbols| == 0
    && stock.amount < 100 && (draw.amount - stock.amount) % 100 == 0
    && stock.price == 500.0
  }

  lemma StockAtDrawn(symbols: seq<string>, draw: Draw)
    requires symbols != []
    ensures Drawn(StockAt(symbols, draw), symbols, draw)
  {
    var n := |symbols|;
    var q, r := draw.symbol / n, draw.symbol % n;
    assert draw.symbol - r == n * q + 0;
    MultipleOf(n, q);
  }

  lemma MultipleOf(n: nat, q: nat)
    requires n > 0
    ensures (n * q) % n == 0
  {
    DivModUnique(n * q, n, q, 0);
  }

  class ClientCache {
    var numPortfolios: nat
    const portfoliosArr: array<Portfolio>
    const stockInfoArr: array2<Stock>

    ghost predicate Valid() {
      portfoliosArr.Length == ROOM && stockInfoArr.Length0 == ROOM && stockInfoArr.Length1 == ROOM
    }

    constructor ()
      ensures Valid() && fresh(portfoliosArr) && fresh(stockInfoArr) && numPortfolios == 0
    {
      numPortfolios := 0;
      portfoliosArr := new Portfolio[ROOM](_ => Portfolio(0, "", 0));
      stockInfoArr := new Stock[ROOM, ROOM]((_, _) => Stock(0, "", 0, 0.0));
    }

    /** The stocks of one user: numSymbols draws. */
    method DrawStocks(i: nat, numSymbols: nat, symbols: seq<string>, draws: (nat, nat) -> Draw)
      requires Valid() && i < ROOM && numSymbols <= ROOM && symbols != []
      modifies stockInfoArr
      ensures forall j: nat :: j < numSymbols ==> stockInfoArr[i, j] == StockAt(symbols, draws(i, j))
      ensures forall j: nat :: j < numSymbols ==> Drawn(stockInfoArr[i, j], symbols, draws(i, j))
      ensures forall j: nat :: numSymbols <= j < ROOM ==> stockInfoArr[i, j] == old(stockInfoArr[i, j])
      ensures forall k: nat, j: nat :: k < ROOM && j < ROOM && k != i ==> stockInfoArr[k, j] == old(stockInfoArr[k, j])
    {
      for j := 0 to numSymbols
        invariant forall l: nat :: l < j ==> stockInfoArr[i, l] == StockAt(symbols, draws(i, l))
        invariant forall l: nat :: j <= l < ROOM ==> stockInfoArr[i, l] == old(stockInfoArr[i, l])
        invariant forall k: nat, l: nat :: k < ROOM && l < ROOM && k != i ==>
                    stockInfoArr[k, l] == old(stockInfoArr[k, l])
      {
        var draw := draws(i, j);
        var symbol := draw.symbol % |symbols|;
        stockInfoArr[i, j] := Stock(symbol, symbols[symbol], draw.amount % 100, 500.0);
      }
      forall j: nat | j < numSymbols ensures Drawn(stockInfoArr[i, j], symbols, draws(i, j)) {
        StockAtDrawn(symbols, draws(i, j));
      }
    }

    /** createPortfolios: every slot in use names the user the assignment gives it, and the stocks drawn
        for it; the rest of the cache keeps what it held. */
    method CreatePortfolios(client: nat, clients: nat, users: seq<string>, symbols: seq<string>,
                            draws: (nat, nat) -> Draw)
      requires Valid() && 1 <= client <= clients && users != [] && symbols != []
      modifies this`numPortfolios, portfoliosArr, stockInfoArr
      ensures numPortfolios == Share(|users|, clients)
      ensures forall i: nat :: i < numPortfolios ==>
                portfoliosArr[i] == PortfolioAt(UserOf(client, i, numPortfolios, |users|), users, symbols)
      ensures forall i: nat :: i < numPortfolios ==>
                && portfoliosArr[i].userId == UserOf(client, i, numPortfolios, |users|)
                && portfoliosArr[i].user == users[portfoliosArr[i].userId]
                && portfoliosArr[i].numSymbols == Share(|symbols|, |users|)
      ensures forall i: nat, j: nat :: i < numPortfolios && j < Share(|symbols|, |users|) ==>
                Drawn(stockInfoArr[i, j], symbols, draws(i, j))
      ensures forall i: nat :: numPortfolios <= i < ROOM ==> portfoliosArr[i] == old(portfoliosArr[i])
      ensures forall i: nat, j: nat :: i < ROOM && j < ROOM ==>
                stockInfoArr[i, j]
                  == if i < numPortfolios && j < Share(|symbols|, |users|) then StockAt(symbols, draws(i, j))
                     else old(stockInfoArr[i, j])
    {
      numPortfolios := Share(|users|, clients);
      var symbolsPerUser := Share(|symbols|, |users|);
      for i := 0 to numPortfolios
        invariant numPortfolios == Share(|users|, clients)
        invariant forall k: nat :: k < i ==>
                    portfoliosArr[k] == PortfolioAt(UserOf(client, k, numPortfolios, |users|), users, symbols)
        invariant forall k: nat :: i <= k < ROOM ==> portfoliosArr[k] == old(portfoliosArr[k])
        invariant forall k: nat, j: nat :: k < ROOM && j < ROOM ==>
                    stockInfoArr[k, j] == if k < i && j < symbolsPerUser then StockAt(symbols, draws(k, j))
                                          else old(stockInfoArr[k, j])
      {
        var user := (i + numPortfolios * (client - 1)) % |users|;
        portfoliosArr[i] := Portfolio(user, users[user], symbolsPerUser);
        DrawStocks(i, symbolsPerUser, symbols, draws);
      }
      forall i: nat, j: nat | i < numPortfolios && j < symbolsPerUser
        ensures Drawn(stockInfoArr[i, j], symbols, draws(i, j))
      {
        StockAtDrawn(symbols, draws(i, j));
      }
    }
  }

  // ---------------------------------------------------------------- balance

  /** The slots from lo on, below hi, that go to user u, when slot g goes to user g modulo `users`. */
  function Slots(lo: nat, hi: nat, users: nat, u: nat): nat
    requires lo <= hi && users > 0
    decreases hi
  {
    if lo == hi then 0 else Slots(lo, hi - 1, users, u) + (if (hi - 1) % users == u then 1 else 0)
  }

  /** The slots of a client that hold user u. */
  function HeldBy(client: nat, n: nat, portfolios: nat, users: nat, u: nat): nat
    requires client >= 1 && users > 0
  {
    if n == 0 then 0
    else HeldBy(client, n - 1, portfolios, users, u) + (if UserOf(client, n - 1, portfolios, users) == u then 1 else 0)
  }

  /** The slots of the first n clients that hold user u. */
  function HeldByAll(n: nat, portfolios: nat, users: nat, u: nat): nat
    requires users > 0
  {
    if n == 0 then 0 else HeldByAll(n - 1, portfolios, users, u) + HeldBy(n, portfolios, portfolios, users, u)
  }

  /** The slots of all clients, one client after the other, are one range. */
  lemma {:induction false} ClientIsRange(client: nat, n: nat, portfolios: nat, users: nat, u: nat)
    requires client >= 1 && users > 0
    ensures Slots(0, portfolios * (client - 1) + n, users, u)
              == Slots(0, portfolios * (client - 1), users, u) + HeldBy(client, n, portfolios, users, u)
  {
    if n > 0 {
      ClientIsRange(client, n - 1, portfolios, users, u);
    }
  }

  lemma {:induction false} AllIsRange(n: nat, portfolios: nat, users: nat, u: nat)
    requires users > 0
    ensures HeldByAll(n, portfolios, users, u) == Slots(0, portfolios * n, users, u)
  {
    if n > 0 {
      AllIsRange(n - 1, portfolios, users, u);
      ClientIsRange(n, portfolios, portfolios, users, u);
      assert portfolios * (n - 1) + portfolios == portfolios * n;
    }
  }

  /** Quotient and remainder of the next number. */
  lemma NextDivMod(g: nat, users: nat)
    requires users > 0
    ensures g % users + 1 < users ==> (g + 1) / users == g / users && (g + 1) % users == g % users + 1
    ensures g % users + 1 == users ==> (g + 1) / users == g / users + 1 && (g + 1) % users == 0
  {
    var q, r := g / users, g % users;
    assert g + 1 == users * q + (r + 1);
    if r + 1 < users {
      DivModUnique(g + 1, users, q, r + 1);
    } else {
      assert g + 1 == users * (q + 1) + 0;
      DivModUnique(g + 1, users, q + 1, 0);
    }
  }

  lemma DivModUnique(g: nat, d: nat, q: nat, r: nat)
    requires d > 0 && r < d && g == d * q + r
    ensures g / d == q && g % d == r
  {
    var q', r' := g / d, g % d;
    assert g == d * q' + r';
    MulGap(d, q, q');
    MulGap(d, q', q);
  }

  lemma {:induction false} MulGap(d: nat, a: nat, b: nat)
    ensures a < b ==> d * a + d <= d * b
  {
    if a + 1 < b {
      MulGap(d, a, b - 1);
      assert d * b == d * (b - 1) + d;
    } else {
      assert d * (a + 1) == d * a + d;
    }
  }

  /** One more slot, in terms of quotients and remainders. */
  lemma Balance(q: nat, r: nat, q': nat, r': nat, users: nat, u: nat)
    requires r < users && u < users
    requires (r + 1 < users && q' == q && r' == r + 1) || (r + 1 == users && q' == q + 1 && r' == 0)
    ensures q + (if u < r then 1 else 0) + (if r == u then 1 else 0) == q' + (if u < r' then 1 else 0)
  {
  }

  lemma {:induction false} SlotsBalanced(hi: nat, users: nat, u: nat)
    requires users > 0 && u < users
    ensures Slots(0, hi, users, u) == hi / users + (if u < hi % users then 1 else 0)
  {
    if hi > 0 {
      var g := hi - 1;
      SlotsBalanced(g, users, u);
      NextDivMod(g, users);
      assert Slots(0, hi, users, u) == Slots(0, g, users, u) + (if g % users == u then 1 else 0);
      Balance(g / users, g % users, hi / users, hi % users, users, u);
    }
  }

  /** Balance: over all clients, every user is held by the integer part of nP / U slots, or one more. */
  lemma AssignmentBalanced(n: nat, portfolios: nat, users: nat, u: nat)
    requires users > 0 && u < users
    ensures var total := portfolios * n;
            HeldByAll(n, portfolios, users, u) == total / users + (if u < total % users then 1 else 0)
  {
    AllIsRange(n, portfolios, users, u);
    SlotsBalanced(portfolios * n, users, u);
  }

  // ---------------------------------------------------------------- who holds whom

  ghost predicate Holds(client: nat, portfolios: nat, users: nat, u: nat)
    requires client >= 1 && users > 0
  {
    exists i: nat :: i < portfolios && UserOf(client, i, portfolios, users) == u
  }

  /** No client names a user twice. */
  ghost predicate DistinctWithin(client: nat, portfolios: nat, users: nat)
    requires client >= 1 && users > 0
  {
    forall i: nat, j: nat :: i < j < portfolios ==>
      UserOf(client, i, portfolios, users) != UserOf(client, j, portfolios, users)
  }

  /** No user belongs to two clients. */
  ghost predicate Exclusive(n: nat, portfolios: nat, users: nat)
    requires users > 0
  {
    forall c: nat, d: nat, u: nat :: 1 <= c < d <= n && Holds(c, portfolios, users, u) ==>
      !Holds(d, portfolios, users, u)
  }

  ghost predicate Covered(n: nat, portfolios: nat, users: nat, u: nat)
    requires users > 0
  {
    exists c: nat :: 1 <= c <= n && Holds(c, portfolios, users, u)
  }

  /** Every user belongs to some client. */
  ghost predicate Covering(n: nat, portfolios: nat, users: nat)
    requires users > 0
  {
    forall u: nat :: u < users ==> Covered(n, portfolios, users, u)
  }

  /** The slot with number g belongs to this client. */
  function ClientOf(g: nat, portfolios: nat): (c: nat)
    requires portfolios > 0
    ensures c >= 1
  {
    g / portfolios + 1
  }

  lemma SlotOfClient(g: nat, portfolios: nat, users: nat)
    requires portfolios > 0 && users > 0
    ensures UserOf(ClientOf(g, portfolios), g % portfolios, portfolios, users) == g % users
    ensures Holds(ClientOf(g, portfolios), portfolios, users, g % users)
  {
    assert g % portfolios + portfolios * (g / portfolios) == g;
  }

  lemma ClientInRange(g: nat, portfolios: nat, n: nat)
    requires portfolios > 0
    ensures ClientOf(g, portfolios) <= n <==> g < portfolios * n
  {
    var q := g / portfolios;
    assert g == portfolios * q + g % portfolios;
    MulGap(portfolios, q, n);
    MulGap(portfolios, n, q);
  }

  lemma SlotBelow(c: nat, i: nat, portfolios: nat, n: nat)
    requires 1 <= c <= n && i < portfolios
    ensures i + portfolios * (c - 1) < portfolios * n
  {
  }

  lemma SlotsApart(c: nat, i: nat, d: nat, j: nat, portfolios: nat)
    requires 1 <= c < d && i < portfolios
    ensures i + portfolios * (c - 1) < j + portfolios * (d - 1)
  {
    MulGap(portfolios, c - 1, d - 1);
  }

  lemma SmallMod(g: nat, users: nat)
    requires g < users
    ensures g % users == g
  {
  }

  lemma TwoUsers(a: nat, b: nat, users: nat)
    requires users > 0 && a < b < a + users
    ensures a % users != b % users
  {
    if a % users == b % users {
      MulGap(users, a / users, b / users);
      MulGap(users, b / users, a / users);
    }
  }

  /** Users within a client are distinct if and only if a client has no more portfolios than there are
      users. */
  lemma DistinctIff(client: nat, portfolios: nat, users: nat)
    requires client >= 1 && users > 0
    ensures DistinctWithin(client, portfolios, users) <==> portfolios <= users
  {
    var base := portfolios * (client - 1);
    if portfolios <= users {
      forall i: nat, j: nat | i < j < portfolios
        ensures UserOf(client, i, portfolios, users) != UserOf(client, j, portfolios, users)
      {
        TwoUsers(i + base, j + base, users);
      }
    } else {
      Wraps(base, users);
      assert UserOf(client, 0, portfolios, users) == UserOf(client, users, portfolios, users);
    }
  }

  lemma Wraps(g: nat, users: nat)
    requires users > 0
    ensures (g + users) % users == g % users
  {
    assert g + users == users * (g / users + 1) + g % users;
    DivModUnique(g + users, users, g / users + 1, g % users);
  }

  /** Clients share no user if and only if all of their slots together are no more than the users. */
  lemma ExclusiveIff(n: nat, portfolios: nat, users: nat)
    requires users > 0 && portfolios > 0 && n >= 2
    ensures Exclusive(n, portfolios, users) <==> portfolios * n <= users
  {
    if portfolios * n <= users {
      forall c: nat, d: nat, u: nat | 1 <= c < d <= n && Holds(c, portfolios, users, u)
        ensures !Holds(d, portfolios, users, u)
      {
        Apart(c, d, n, portfolios, users, u);
      }
    } else {
      if portfolios <= users {
        SharedFirst(n, portfolios, users);
      } else {
        SharedAll(n, portfolios, users);
      }
    }
  }

  lemma Apart(c: nat, d: nat, n: nat, portfolios: nat, users: nat, u: nat)
    requires users > 0 && portfolios * n <= users && 1 <= c < d <= n
    requires Holds(c, portfolios, users, u)
    ensures !Holds(d, portfolios, users, u)
  {
    var i: nat :| i < portfolios && UserOf(c, i, portfolios, users) == u;
    forall j: nat | j < portfolios ensures UserOf(d, j, portfolios, users) != u {
      SlotsApartUsers(c, i, d, j, portfolios, n, users);
    }
  }

  lemma SlotsApartUsers(c: nat, i: nat, d: nat, j: nat, portfolios: nat, n: nat, users: nat)
    requires users > 0 && portfolios * n <= users && 1 <= c < d <= n && i < portfolios && j < portfolios
    ensures UserOf(c, i, portfolios, users) != UserOf(d, j, portfolios, users)
  {
    SlotsApart(c, i, d, j, portfolios);
    SlotBelow(d, j, portfolios, n);
    TwoUsers(i + portfolios * (c - 1), j + portfolios * (d - 1), users);
  }

  /** User 0 is in slot 0, and again in the slot numbered `users`, which another client has. */
  lemma SharedFirst(n: nat, portfolios: nat, users: nat)
    requires users > 0 && 0 < portfolios <= users < portfolios * n
    ensures !Exclusive(n, portfolios, users)
  {
    var d := ClientOf(users, portfolios);
    SlotOfClient(0, portfolios, users);
    SlotOfClient(users, portfolios, users);
    ClientInRange(users, portfolios, n);
    ClientInRange(users, portfolios, 1);
    Wraps(0, users);
    DivModUnique(0, portfolios, 0, 0);
    assert Holds(1, portfolios, users, 0) && Holds(d, portfolios, users, 0);
  }

  /** Client 1 has every user, so it has the first one of client 2. */
  lemma SharedAll(n: nat, portfolios: nat, users: nat)
    requires users > 0 && n >= 2 && portfolios > users
    ensures !Exclusive(n, portfolios, users)
  {
    var u := portfolios % users;
    SlotOfClient(portfolios, portfolios, users);
    SlotOfClient(u, portfolios, users);
    DivModUnique(portfolios, portfolios, 1, 0);
    DivModUnique(u, portfolios, 0, u);
    DivModUnique(u, users, 0, u);
    assert Holds(1, portfolios, users, u) && Holds(2, portfolios, users, u);
  }

  /** Every user belongs to some client if and only if all slots together are at least the users. */
  lemma CoveringIff(n: nat, portfolios: nat, users: nat)
    requires users > 0 && portfolios > 0
    ensures Covering(n, portfolios, users) <==> portfolios * n >= users
  {
    if portfolios * n >= users {
      forall u: nat | u < users ensures Covered(n, portfolios, users, u) {
        Reached(n, portfolios, users, u);
      }
    } else {
      forall c: nat | 1 <= c <= n ensures !Holds(c, portfolios, users, portfolios * n) {
        Missed(c, n, portfolios, users);
      }
      assert !Covered(n, portfolios, users, portfolios * n);
    }
  }

  lemma Reached(n: nat, portfolios: nat, users: nat, u: nat)
    requires portfolios > 0 && u < users <= portfolios * n
    ensures Covered(n, portfolios, users, u)
  {
    SlotOfClient(u, portfolios, users);
    ClientInRange(u, portfolios, n);
    SmallMod(u, users);
  }

  lemma Missed(c: nat, n: nat, portfolios: nat, users: nat)
    requires users > 0 && portfolios * n < users && 1 <= c <= n
    ensures !Holds(c, portfolios, users, portfolios * n)
  {
    forall i: nat | i < portfolios ensures UserOf(c, i, portfolios, users) != portfolios * n {
      SlotBelow(c, i, portfolios, n);
      SmallMod(i + portfolios * (c - 1), users);
    }
  }

  /** The code's numbers: 50 users, and as many portfolios for each of n clients as its formula says. No
      client names a user twice; clients share users if there are more than five; and every user is
      covered unless there are three or four clients, for which 48 slots leave two users out. */
  lemma FiftyUsers(n: nat)
    requires n > 0
    ensures var portfolios := Share(NUM_USERS, n);
            && (forall c: nat :: c >= 1 ==> DistinctWithin(c, portfolios, NUM_USERS))
            && (Exclusive(n, portfolios, NUM_USERS) <==> n <= 5)
            && (Covering(n, portfolios, NUM_USERS) <==> n != 3 && n != 4)
  {
    var portfolios := Share(NUM_USERS, n);
    FiftyShare(n);
    forall c: nat | c >= 1 ensures DistinctWithin(c, portfolios, NUM_USERS) {
      DistinctIff(c, portfolios, NUM_USERS);
    }
    if n >= 2 {
      ExclusiveIff(n, portfolios, NUM_USERS);
    }
    CoveringIff(n, portfolios, NUM_USERS);
  }

  lemma FiftyShare(n: nat)
    requires n > 0
    ensures Share(NUM_USERS, n)
         == if n == 1 then 50 else if n == 2 then 25 else if n == 3 then 16 else if n == 4 then 12 else 10
  {
  }
}
