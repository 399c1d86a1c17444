/** What holds of the exchange between operations. */
module Invariant {
  import opened Domain
  import opened Matching
  import opened Priority
  import opened BookModel
  import opened WalletModel
  import opened Settlement
  import opened Recovery
  import opened Money
  import opened Machine

  // ----- books

  /** An order resting on one side of the book of symbol n. */
  ghost predicate Resting(o: Order, side: Side, n: string) {
    Live(o) && o.side == side && o.symbol == n && o.status == StatusOf(o)
  }

  ghost predicate Uncrossed(b: Book) {
    forall i, j | 0 <= i < |b.bids| && 0 <= j < |b.asks| :: b.bids[i].price < b.asks[j].price
  }

  /** Strict price-time order, distinct bounded arrival numbers, positive remainders, exact
      reservations, honest statuses, and the best bid strictly below the best ask. */
  ghost predicate BookOk(b: Book, n: string) {
    && Ordered(b) && b.seqNo >= 0
    && Uncrossed(b)
    && (forall o | o in b.bids :: Resting(o, BuySide, n))
    && (forall o | o in b.asks :: Resting(o, SellSide, n))
  }

  ghost predicate BooksOk(s: State) {
    forall n | n in s.books :: BookOk(s.books[n], n)
  }

  // ----- locks

  function BookHeld(sym: Symbol, b: Book, a: string, x: string): real {
    SumHeld(sym, b.bids, a, x) + SumHeld(sym, b.asks, a, x)
  }

  /** What the resting orders of several books hold of one balance. */
  ghost function BooksHeld(symbols: Symbols, books: map<string, Book>, ns: set<string>, a: string, x: string): real
    requires ns <= symbols.Keys && ns <= books.Keys
  {
    if ns == {} then 0.0
    else
      var n :| n in ns;
      BookHeld(symbols[n], books[n], a, x) + BooksHeld(symbols, books, ns - {n}, a, x)
  }

  ghost function TotalHeld(s: State, a: string, x: string): real
    requires s.books.Keys == s.symbols.Keys
  {
    BooksHeld(s.symbols, s.books, s.symbols.Keys, a, x)
  }

  /** Every locked balance is exactly what the account's resting orders hold, over all books. */
  ghost predicate LocksAgree(s: State)
    requires s.books.Keys == s.symbols.Keys
  {
    forall a, x :: Bal(s.wallet, a, x).locked == TotalHeld(s, a, x)
  }

  // ----- accounts

  /** The wallet is what the store holds, versions included, and every stored account has a balance row. */
  ghost predicate AccountsAgree(s: State) {
    && s.wallet == s.db.accounts
    && forall a | a in s.wallet :: s.wallet[a].id == a && s.wallet[a].version >= 1 && s.wallet[a].balances != map[]
  }

  // ----- orders

  ghost predicate InBook(b: Book, o: Order) {
    o in b.bids || o in b.asks
  }

  /** The store's unfinished orders are exactly the resting ones, field for field. */
  ghost predicate OrdersAgree(s: State) {
    && (forall id | id in s.db.orders :: s.db.orders[id].id == id && s.db.orders[id].symbol in s.books)
    && (forall n, o | n in s.books && InBook(s.books[n], o) :: o.id in s.db.orders && s.db.orders[o.id] == o)
    && (forall id | id in s.db.orders && s.db.orders[id].status != Filled ::
          InBook(s.books[s.db.orders[id].symbol], s.db.orders[id]))
  }

  /** The quantity of all trades that name an order. */
  function TradedQuantity(trades: seq<Trade>, id: string): real {
    if trades == [] then 0.0 else NamedQuantity(trades[0], id) + TradedQuantity(trades[1..], id)
  }

  function NamedQuantity(tr: Trade, id: string): real {
    if tr.makerOrder == id || tr.takerOrder == id then tr.quantity else 0.0
  }

  ghost predicate WithinLimit(o: Order, price: real) {
    if o.side == BuySide then price <= o.price else price >= o.price
  }

  /** What traded and what remains make up the order's quantity, and its status says which. */
  ghost predicate OrderAccounted(o: Order, traded: real) {
    && o.quantity == o.remaining + traded
    && o.remaining >= 0.0 && o.quantity > 0.0 && o.price > 0.0
    && o.reserved == LockAmount(o) && o.status == StatusOf(o)
  }

  /** A trade between two recorded orders of one symbol on opposite sides, at the maker's price and
      within the taker's limit. */
  ghost predicate TradeRecorded(symbols: Symbols, orders: map<string, Order>, tr: Trade) {
    && tr.quantity > 0.0
    && tr.makerOrder in orders && tr.takerOrder in orders && tr.makerOrder != tr.takerOrder
    && var maker, taker := orders[tr.makerOrder], orders[tr.takerOrder];
    && maker.side != taker.side
    && maker.account == tr.makerAccount && taker.account == tr.takerAccount
    && maker.symbol == taker.symbol == tr.symbol && tr.symbol in symbols
    && tr.price == maker.price && WithinLimit(taker, tr.price)
  }

  /** Every order ever accepted is accounted for by the tape, and every trade by the orders. */
  ghost predicate Accounted(s: State) {
    && (forall id | id in s.db.orders :: OrderAccounted(s.db.orders[id], TradedQuantity(s.db.trades, id)))
    && (forall i | 0 <= i < |s.db.trades| :: TradeRecorded(s.symbols, s.db.orders, s.db.trades[i]))
  }

  // ----- ledger

  function DepositOf(e: AuditEvent, a: string, x: string): real {
    if e.DepositCompleted? && e.account == a && e.asset == x then e.amount else 0.0
  }

  function Deposited(audit: seq<AuditEvent>, a: string, x: string): real {
    if audit == [] then 0.0 else DepositOf(audit[0], a, x) + Deposited(audit[1..], a, x)
  }

  /** The flow of one stored trade; the taker's side is read from the order table. */
  function LedgerFlow(symbols: Symbols, orders: map<string, Order>, tr: Trade, a: string, x: string): real {
    if tr.symbol in symbols && tr.takerOrder in orders then
      Flow(symbols[tr.symbol], tr, orders[tr.takerOrder].side, a, x)
    else 0.0
  }

  function Replayed(symbols: Symbols, orders: map<string, Order>, trades: seq<Trade>, a: string, x: string): real {
    if trades == [] then 0.0
    else LedgerFlow(symbols, orders, trades[0], a, x) + Replayed(symbols, orders, trades[1..], a, x)
  }

  /** Every balance is the replay of the stored deposits and trades. */
  ghost predicate LedgerAgrees(s: State) {
    forall a, x :: Total(Bal(s.wallet, a, x)) ==
                   Deposited(s.db.audit, a, x) + Replayed(s.symbols, s.db.orders, s.db.trades, a, x)
  }

  // ----- cache

  ghost predicate CachedAccounts(cached: Accounts, wallet: Accounts) {
    forall a | a in cached :: cached[a] == GetAccount(wallet, a)
  }

  ghost predicate CachedBooks(cached: map<string, Snapshot>, books: map<string, Book>) {
    forall n | n in cached :: n in books && cached[n] == BookSnapshot(books[n])
  }

  ghost predicate CachedTrades(cached: map<string, seq<Trade>>, symbols: Symbols, market: map<string, seq<Trade>>) {
    forall n | n in cached :: n in symbols && cached[n] == MarketTrades(market, n)
  }

  /** Whatever is cached is what the wallet, the book or the market would answer. */
  ghost predicate CacheAgrees(s: State) {
    && CachedAccounts(s.cache.accounts, s.wallet)
    && CachedBooks(s.cache.books, s.books)
    && CachedTrades(s.cache.trades, s.symbols, s.market)
  }

  ghost predicate Good(s: State) {
    && WellFormed(s)
    && BooksOk(s)
    && LocksAgree(s)
    && NonNegative(s.wallet)
    && AccountsAgree(s)
    && OrdersAgree(s)
    && Accounted(s)
    && LedgerAgrees(s)
    && CacheAgrees(s)
  }

  // ----- sums over books

  lemma {:induction false} BooksHeldPick(symbols: Symbols, books: map<string, Book>, ns: set<string>, n: string,
                                         a: string, x: string)
    requires ns <= symbols.Keys && ns <= books.Keys && n in ns
    ensures BooksHeld(symbols, books, ns, a, x) ==
            BookHeld(symbols[n], books[n], a, x) + BooksHeld(symbols, books, ns - {n}, a, x)
    decreases |ns|
  {
    hide BookHeld;
    var k :| k in ns && BooksHeld(symbols, books, ns, a, x) ==
                        BookHeld(symbols[k], books[k], a, x) + BooksHeld(symbols, books, ns - {k}, a, x);
    if k != n {
      BooksHeldPick(symbols, books, ns - {k}, n, a, x);
      BooksHeldPick(symbols, books, ns - {n}, k, a, x);
      assert ns - {k} - {n} == ns - {n} - {k};
    }
  }

  lemma {:induction false} BooksHeldAgree(symbols: Symbols, books: map<string, Book>, books': map<string, Book>,
                                          ns: set<string>, a: string, x: string)
    requires ns <= symbols.Keys && ns <= books.Keys && ns <= books'.Keys
    requires forall n | n in ns :: books[n] == books'[n]
    ensures BooksHeld(symbols, books, ns, a, x) == BooksHeld(symbols, books', ns, a, x)
    decreases |ns|
  {
    hide BookHeld;
    if ns != {} {
      var n :| n in ns;
      BooksHeldPick(symbols, books, ns, n, a, x);
      BooksHeldPick(symbols, books', ns, n, a, x);
      BooksHeldAgree(symbols, books, books', ns - {n}, a, x);
    }
  }

  /** Replacing one book changes the total by what that book's holdings change. */
  lemma BooksHeldUpdate(symbols: Symbols, books: map<string, Book>, n: string, b: Book, a: string, x: string)
    requires books.Keys == symbols.Keys && n in books
    ensures BooksHeld(symbols, books[n := b], symbols.Keys, a, x) ==
            BooksHeld(symbols, books, symbols.Keys, a, x)
            - BookHeld(symbols[n], books[n], a, x) + BookHeld(symbols[n], b, a, x)
  {
    hide BookHeld;
    var ns, books' := symbols.Keys, books[n := b];
    BooksHeldPick(symbols, books, ns, n, a, x);
    BooksHeldPick(symbols, books', ns, n, a, x);
    BooksHeldAgree(symbols, books, books', ns - {n}, a, x);
  }

  lemma BookHeldNonNegative(sym: Symbol, b: Book, n: string, a: string, x: string)
    requires BookOk(b, n)
    ensures SumHeld(sym, b.bids, a, x) >= 0.0 && SumHeld(sym, b.asks, a, x) >= 0.0
  {
    hide Ordered;
    hide LockAmount;
    SumHeldNonNegative(sym, b.bids, a, x);
    SumHeldNonNegative(sym, b.asks, a, x);
  }

  lemma {:induction false} BooksHeldNonNegative(symbols: Symbols, books: map<string, Book>, ns: set<string>,
                                                a: string, x: string)
    requires ns <= symbols.Keys && ns <= books.Keys
    requires forall n | n in ns :: BookOk(books[n], n)
    ensures BooksHeld(symbols, books, ns, a, x) >= 0.0
    decreases |ns|
  {
    hide BookOk;
    hide SumHeld;
    if ns != {} {
      var n :| n in ns;
      BooksHeldPick(symbols, books, ns, n, a, x);
      BookHeldNonNegative(symbols[n], books[n], n, a, x);
      BooksHeldNonNegative(symbols, books, ns - {n}, a, x);
    }
  }

  /** The whole is at least what one of its books holds. */
  lemma BookWithinTotal(s: State, n: string, a: string, x: string)
    requires WellFormed(s) && BooksOk(s) && n in s.symbols
    ensures TotalHeld(s, a, x) >= BookHeld(s.symbols[n], s.books[n], a, x)
  {
    hide BookOk;
    hide BookHeld;
    BooksHeldPick(s.symbols, s.books, s.symbols.Keys, n, a, x);
    BooksHeldNonNegative(s.symbols, s.books, s.symbols.Keys - {n}, a, x);
  }

  lemma {:induction false} HeldWithinSum(sym: Symbol, os: seq<Order>, o: Order, a: string, x: string)
    requires o in os && forall p | p in os :: p.price > 0.0 && p.remaining >= 0.0
    ensures SumHeld(sym, os, a, x) >= Held(sym, o, a, x)
  {
    if os[0] == o {
      SumHeldNonNegative(sym, os[1..], a, x);
    } else {
      HeldWithinSum(sym, os[1..], o, a, x);
      SumHeldNonNegative(sym, [os[0]], a, x);
    }
  }
}
