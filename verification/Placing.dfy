/** Placing an order keeps the exchange good, and an order that passes validation cannot get stuck. */
module Placing {
  import opened Domain
  import opened Matching
  import opened BookModel
  import opened WalletModel
  import opened Settlement
  import opened Recovery
  import opened Money
  import opened Machine
  import opened Invariant
  import opened Executing
  import opened Syncing
  import opened OrderRecords

  /** A fresh order that validation let through. */
  ghost predicate Accepted(s: State, sym: Symbol, o: Order) {
    && Good(s) && o.symbol in s.symbols && sym == s.symbols[o.symbol]
    && Validate(s.wallet, sym, o).None? && o.status == Open && o.id !in s.db.orders
  }

  /** The state after the order's funds are reserved and the account synced. */
  function ReservedState(s: State, sym: Symbol, o: Order): State {
    var r := Reserve(s.wallet, sym, o);
    SyncAccount(s.(wallet := r.accounts), GetAccount(r.accounts, o.account)).1
  }

  function ReservedOrder(s: State, sym: Symbol, o: Order): Order {
    Reserve(s.wallet, sym, o).order
  }

  lemma ReserveShape(w: Accounts, sym: Symbol, o: Order)
    requires Validate(w, sym, o).None? && NonNegative(w)
    requires forall a | a in w :: w[a].id == a && w[a].version >= 1 && w[a].balances != map[]
    ensures var r := Reserve(w, sym, o);
            && r.err.None? && r.order == o.(reserved := LockFor(o, o.quantity))
            && o.account in w && o.account in r.accounts
            && Ahead(w, r.accounts, map[o.account := r.accounts[o.account]])
            && SameOutside(w, r.accounts, {o.account})
  {
    hide Bal;
    hide Shift;
    var asset, required := LockAsset(sym, o.side), LockFor(o, o.quantity);
    WantPositive(o.(remaining := o.quantity, reserved := 0.0));
    ReserveFailsWithoutCover(w, sym, o);
    AvailableIsPresent(w, o.account, asset);
    ShiftKeeps(w, o.account, asset, -required, required);
  }

  lemma AvailableIsPresent(w: Accounts, a: string, x: string)
    requires Bal(w, a, x).available > 0.0
    ensures a in w && x in w[a].balances
  {
  }

  /** Reservation and its sync succeed: the store follows the wallet, and exactly the order's
      cost has moved from available to locked. */
  lemma ReservationSucceeds(s: State, sym: Symbol, o: Order)
    requires Accepted(s, sym, o)
    ensures var r := Reserve(s.wallet, sym, o);
            && r.err.None? && r.order == o.(reserved := LockFor(o, o.quantity))
            && SyncAccount(s.(wallet := r.accounts), GetAccount(r.accounts, o.account)).0.None?
    ensures var s1 := ReservedState(s, sym, o);
            && s1 == s.(wallet := s1.wallet, db := s1.db, cache := s1.cache)
            && s1.db == s.db.(accounts := s1.wallet)
            && s1.cache == s.cache.(accounts := s1.cache.accounts)
            && AccountsAgree(s1)
            && (forall a | a in s1.cache.accounts :: s1.cache.accounts[a] == GetAccount(s1.wallet, a))
            && (forall a, x :: Bal(s1.wallet, a, x) == Bal(ReservedAccounts(s, sym, o), a, x))
  {
    hide Bal;
    hide Reserve;
    hide Validate;
    hide BooksOk;
    hide LocksAgree;
    hide OrdersAgree;
    hide Accounted;
    hide LedgerAgrees;
    hide SyncAll;
    hide SyncAccount;
    hide NoConflict;
    ReserveShape(s.wallet, sym, o);
    var r := Reserve(s.wallet, sym, o);
    var changed := map[o.account := r.accounts[o.account]];
    var before := s.(wallet := r.accounts);
    SyncAllAgrees(before, changed);
    SyncAllParts(before, changed);
    SyncOneIsAll(before, r.accounts[o.account]);
    assert changed.Keys == {o.account};
    SyncAllCaches(before, s.wallet, changed);
  }

  lemma SyncAllParts(s: State, changed: Accounts)
    ensures var s' := SyncAll(s, changed);
            && s' == s.(wallet := s'.wallet, db := s'.db, cache := s'.cache)
            && s'.db == s.db.(accounts := s'.db.accounts) && s'.cache == s.cache.(accounts := s'.cache.accounts)
  {
    hide PersistAll;
    hide Bumped;
  }

  function ReservedAccounts(s: State, sym: Symbol, o: Order): Accounts {
    Reserve(s.wallet, sym, o).accounts
  }

  /** The reserved order is ready for its book. */
  lemma ReservationIsReady(s: State, sym: Symbol, o: Order)
    requires Accepted(s, sym, o)
    ensures Ready(ReservedState(s, sym, o).wallet, sym, s.books[o.symbol], ReservedOrder(s, sym, o))
    ensures forall a, x :: var w1 := ReservedState(s, sym, o).wallet;
                           && Bal(w1, a, x).locked ==
                              TotalHeld(s, a, x)
                              + Held(sym, Stamped(s.books[o.symbol], ReservedOrder(s, sym, o)), a, x)
                           && Total(Bal(w1, a, x)) == Total(Bal(s.wallet, a, x))
  {
    hide Bal;
    hide Reserve;
    hide ReservedState;
    hide BookOk;
    hide BookHeld;
    hide OrdersAgree;
    hide Accounted;
    hide LedgerAgrees;
    hide CacheAgrees;
    hide AccountsAgree;
    hide Notional;
    ReservationSucceeds(s, sym, o);
    var w1, o1, b := ReservedState(s, sym, o).wallet, ReservedOrder(s, sym, o), s.books[o.symbol];
    forall a, x
      ensures Bal(w1, a, x).locked == TotalHeld(s, a, x) + Held(sym, Stamped(b, o1), a, x)
      ensures Total(Bal(w1, a, x)) == Total(Bal(s.wallet, a, x))
      ensures Bal(w1, a, x).available >= 0.0 && Bal(w1, a, x).locked >= 0.0
      ensures Bal(w1, a, x).locked >= BookHeld(sym, b, a, x) + Held(sym, Stamped(b, o1), a, x)
    {
      ReservedBalance(s, sym, o, a, x);
      BookWithinTotal(s, o.symbol, a, x);
    }
  }

  lemma ReservedBalance(s: State, sym: Symbol, o: Order, a: string, x: string)
    requires Accepted(s, sym, o)
    ensures var b := Bal(ReservedAccounts(s, sym, o), a, x);
            && b.locked == TotalHeld(s, a, x) + Held(sym, Stamped(s.books[o.symbol], ReservedOrder(s, sym, o)), a, x)
            && Total(b) == Total(Bal(s.wallet, a, x))
            && b.available >= 0.0 && b.locked >= 0.0
  {
    hide Bal;
    hide BooksOk;
    hide OrdersAgree;
    hide Accounted;
    hide LedgerAgrees;
    hide CacheAgrees;
    hide AccountsAgree;
    hide Notional;
    hide Shift;
    ReserveFailsWithoutCover(s.wallet, sym, o);
    ReserveEffect(s.wallet, sym, o, a, x);
    assert Bal(s.wallet, a, x).available >= 0.0 && Bal(s.wallet, a, x).locked >= 0.0;
    assert Bal(s.wallet, a, x).locked == TotalHeld(s, a, x);
    NotionalMonotone(o.price, o.price, o.quantity);
  }

  function Executed(s: State, sym: Symbol, o: Order): Execution
    requires o.symbol in s.books
  {
    Execute(ReservedState(s, sym, o).wallet, sym, s.books[o.symbol], ReservedOrder(s, sym, o))
  }

  function FinalState(s: State, sym: Symbol, o: Order): State
    requires o.symbol in s.books
  {
    Booked(ReservedState(s, sym, o), o.symbol, Executed(s, sym, o))
  }

  /** The state just before the touched accounts are written back. */
  function Unsynced(s: State, sym: Symbol, o: Order): State
    requires o.symbol in s.books
  {
    var s1, e := ReservedState(s, sym, o), Executed(s, sym, o);
    s1.(wallet := e.accounts, books := s1.books[o.symbol := e.book])
  }

  /** Settlement never fails and the write-back never conflicts. */
  lemma ExecutionSucceeds(s: State, sym: Symbol, o: Order)
    requires Accepted(s, sym, o)
    ensures var e, u := Executed(s, sym, o), Unsynced(s, sym, o);
            && e.err.None? && ExecShape(s.books[o.symbol], ReservedOrder(s, sym, o), e)
            && BookOk(e.book, o.symbol)
            && Ahead(u.db.accounts, u.wallet, e.changed)
            && SameOutside(u.db.accounts, u.wallet, e.changed.Keys)
            && NoConflict(ReservedState(s, sym, o).db.accounts, e.changed)
  {
    hide Execute;
    hide ReservedState;
    hide ReservedOrder;
    hide BookOk;
    hide ExecShape;
    hide Ready;
    hide Bal;
    hide Reserve;
    var w1, b, o1 := ReservedState(s, sym, o).wallet, s.books[o.symbol], ReservedOrder(s, sym, o);
    ReservationSucceeds(s, sym, o);
    ReservationIsReady(s, sym, o);
    ExecuteIsRun(w1, sym, b, o1);
    ExecuteShape(w1, sym, b, o1);
    ExecuteBookOk(w1, sym, b, o1);
    ExecuteIsAhead(w1, sym, b, o1);
    SyncAllAgrees(Unsynced(s, sym, o), Executed(s, sym, o).changed);
  }

  /** An order that passes validation is placed: Reserve, both syncs and every settlement succeed. */
  lemma AcceptedIsPlaced(s: State, req: Request, id: string)
    requires Good(s) && id !in s.db.orders && req.symbol in s.symbols && ParseSide(req.side).Some?
    requires Validate(s.wallet, s.symbols[req.symbol], NewOrder(req, ParseSide(req.side).value, id)).None?
    ensures var o := NewOrder(req, ParseSide(req.side).value, id);
            var sym := s.symbols[req.symbol];
            && Accepted(s, sym, o)
            && PlaceOrder(s, req, id) ==
               Placed(FinalState(s, sym, o), Executed(s, sym, o).taker, Executed(s, sym, o).trades)
  {
    hide Execute;
    hide Booked;
    hide Bal;
    hide Reserve;
    hide Validate;
    hide ParseSide;
    hide SyncAccount;
    hide NoConflict;
    var o, sym := NewOrder(req, ParseSide(req.side).value, id), s.symbols[req.symbol];
    ReservationSucceeds(s, sym, o);
    ExecutionSucceeds(s, sym, o);
  }

  // ----- every part of the invariant, after the order

  lemma BookedParts(s: State, n: string, e: Execution)
    ensures var s', u := Booked(s, n, e), s.(wallet := e.accounts, books := s.books[n := e.book]);
            && s'.symbols == s.symbols && s'.books == u.books
            && s'.db.orders == After(s.db.orders, e) && s'.db.trades == s.db.trades + e.trades
            && s'.db.audit == s.db.audit + [OrderAccepted(e.taker, |e.trades|)] + TradeEvents(e.trades, e.taker.id)
            && s'.market == Record(s.market, n, e.trades)
            && s'.cache.books == s.cache.books[n := BookSnapshot(e.book)]
            && s'.cache.trades == s.cache.trades[n := MarketTrades(s'.market, n)]
            && s'.wallet == SyncAll(u, e.changed).wallet && s'.db.accounts == SyncAll(u, e.changed).db.accounts
            && s'.cache.accounts == SyncAll(u, e.changed).cache.accounts
  {
    hide OrdersById;
    hide TradeEvents;
    hide PersistAll;
    hide Bumped;
    hide Record;
    hide MarketTrades;
  }

  lemma ReservedKeeps(s: State, sym: Symbol, o: Order)
    requires Accepted(s, sym, o)
    ensures o.symbol in s.books
    ensures var s1 := ReservedState(s, sym, o);
            && s1.symbols == s.symbols && s1.books == s.books && s1.market == s.market
            && s1.db.orders == s.db.orders && s1.db.trades == s.db.trades && s1.db.audit == s.db.audit
            && s1.cache.books == s.cache.books && s1.cache.trades == s.cache.trades && s1.db.accounts == s1.wallet
  {
    hide ReservedState;
    hide Good;
    hide Validate;
    GoodParts(s);
    ReservationSucceeds(s, sym, o);
  }

  lemma FinalBooksAre(s: State, sym: Symbol, o: Order)
    requires Accepted(s, sym, o)
    ensures o.symbol in s.books
    ensures FinalState(s, sym, o).symbols == s.symbols
    ensures FinalState(s, sym, o).books == s.books[o.symbol := Executed(s, sym, o).book]
  {
    hide Executed;
    hide ReservedState;
    hide Accepted;
    hide Booked;
    hide SyncAll;
    ReservedKeeps(s, sym, o);
    BookedParts(ReservedState(s, sym, o), o.symbol, Executed(s, sym, o));
  }

  lemma FinalRecordsAre(s: State, sym: Symbol, o: Order)
    requires Accepted(s, sym, o)
    ensures o.symbol in s.books
    ensures var s', e := FinalState(s, sym, o), Executed(s, sym, o);
            && s'.symbols == s.symbols
            && s'.db.orders == After(s.db.orders, e)
            && s'.db.trades == s.db.trades + e.trades
            && s'.db.audit == s.db.audit + [OrderAccepted(e.taker, |e.trades|)] + TradeEvents(e.trades, e.taker.id)
  {
    hide Executed;
    hide ReservedState;
    hide Accepted;
    hide Booked;
    hide SyncAll;
    hide After;
    hide TradeEvents;
    ReservedKeeps(s, sym, o);
    BookedParts(ReservedState(s, sym, o), o.symbol, Executed(s, sym, o));
  }

  lemma FinalMarketIs(s: State, sym: Symbol, o: Order)
    requires Accepted(s, sym, o)
    ensures o.symbol in s.books
    ensures var s', e := FinalState(s, sym, o), Executed(s, sym, o);
            && s'.symbols == s.symbols && s'.market == Record(s.market, o.symbol, e.trades)
            && s'.cache.books == s.cache.books[o.symbol := BookSnapshot(e.book)]
            && s'.cache.trades == s.cache.trades[o.symbol := MarketTrades(s'.market, o.symbol)]
  {
    hide Executed;
    hide ReservedState;
    hide Accepted;
    hide Booked;
    hide SyncAll;
    hide Record;
    hide MarketTrades;
    hide BookSnapshot;
    ReservedKeeps(s, sym, o);
    BookedParts(ReservedState(s, sym, o), o.symbol, Executed(s, sym, o));
  }

  lemma FinalAccountsAre(s: State, sym: Symbol, o: Order)
    requires Accepted(s, sym, o)
    ensures o.symbol in s.books
    ensures var s', u, changed := FinalState(s, sym, o), Unsynced(s, sym, o), Executed(s, sym, o).changed;
            && s'.wallet == SyncAll(u, changed).wallet && s'.db.accounts == SyncAll(u, changed).db.accounts
            && s'.cache.accounts == SyncAll(u, changed).cache.accounts
            && u.db.accounts == ReservedState(s, sym, o).wallet
            && u.cache.accounts == ReservedState(s, sym, o).cache.accounts
  {
    hide Executed;
    hide ReservedState;
    hide Accepted;
    hide Booked;
    hide SyncAll;
    ReservedKeeps(s, sym, o);
    BookedParts(ReservedState(s, sym, o), o.symbol, Executed(s, sym, o));
  }

  lemma FinalAccounts(s: State, sym: Symbol, o: Order)
    requires Accepted(s, sym, o)
    ensures AccountsAgree(FinalState(s, sym, o))
    ensures forall a, x :: Bal(FinalState(s, sym, o).wallet, a, x) == Bal(Executed(s, sym, o).accounts, a, x)
    ensures forall a | a in FinalState(s, sym, o).cache.accounts ::
              FinalState(s, sym, o).cache.accounts[a] == GetAccount(FinalState(s, sym, o).wallet, a)
  {
    hide FinalState;
    hide Executed;
    hide ReservedState;
    hide SyncAll;
    hide Bal;
    hide Good;
    hide SameOutside;
    hide Validate;
    GoodParts(s);
    FinalAccountsAre(s, sym, o);
    ReservationSucceeds(s, sym, o);
    ExecutionSucceeds(s, sym, o);
    var u, e := Unsynced(s, sym, o), Executed(s, sym, o);
    SyncAllAgrees(u, e.changed);
    SyncAllCaches(u, u.db.accounts, e.changed);
  }

  lemma FinalBalances(s: State, sym: Symbol, o: Order, a: string, x: string)
    requires Accepted(s, sym, o)
    ensures var s', e := FinalState(s, sym, o), Executed(s, sym, o);
            && s'.books.Keys == s'.symbols.Keys
            && Bal(s'.wallet, a, x).locked == TotalHeld(s', a, x) >= 0.0
            && Bal(s'.wallet, a, x).available >= 0.0
            && Total(Bal(s'.wallet, a, x)) == Total(Bal(s.wallet, a, x)) + SumFlow(sym, e.trades, o.side, a, x)
  {
    hide FinalState;
    hide ReservedState;
    hide Execute;
    hide Bal;
    hide Good;
    hide BookHeld;
    hide Ready;
    hide SumFlow;
    hide Validate;
    hide Held;
    hide BooksHeld;
    hide ReservedOrder;
    GoodParts(s);
    FinalBooksAre(s, sym, o);
    FinalAccounts(s, sym, o);
    ReservationIsReady(s, sym, o);
    var w1, b := ReservedState(s, sym, o).wallet, s.books[o.symbol];
    var o1, e := ReservedOrder(s, sym, o), Executed(s, sym, o);
    ReadyAvailable(w1, sym, b, o1, a, x);
    ReservedSide(s, sym, o);
    ExecuteMoney(w1, sym, b, o1, a, x);
    BooksHeldUpdate(s.symbols, s.books, o.symbol, e.book, a, x);
  }

  lemma ReservedSide(s: State, sym: Symbol, o: Order)
    ensures var o1 := ReservedOrder(s, sym, o); o1 == o.(reserved := o1.reserved)
  {
  }

  lemma ReadyAvailable(w: Accounts, sym: Symbol, b: Book, o: Order, a: string, x: string)
    requires Ready(w, sym, b, o)
    ensures Bal(w, a, x).available >= 0.0
  {
  }

  lemma GoodParts(s: State)
    requires Good(s)
    ensures WellFormed(s) && BooksOk(s) && OrdersAgree(s) && Accounted(s) && LedgerAgrees(s) && CacheAgrees(s)
  {
  }

  lemma ReservedIsKnown(s: State, sym: Symbol, o: Order)
    requires Accepted(s, sym, o)
    ensures Known(s.db.orders, s.books[o.symbol], o.symbol)
    ensures ReservedOrder(s, sym, o).id !in s.db.orders && ReservedOrder(s, sym, o).symbol == o.symbol
    ensures ReservedOrder(s, sym, o).price > 0.0 && ReservedOrder(s, sym, o).quantity > 0.0
  {
    hide BookOk;
    hide Bal;
    hide Shift;
  }

  lemma GoodTable(s: State)
    requires Good(s)
    ensures TableAgrees(s.db.orders, s.books)
    ensures forall id | id in s.db.orders && s.db.orders[id].status == Filled :: s.db.orders[id].remaining == 0.0
    ensures forall m, p | m in s.books && InBook(s.books[m], p) :: p.symbol == m
  {
    hide Ordered;
    hide Uncrossed;
    hide Live;
    hide LocksAgree;
    hide LedgerAgrees;
    hide CacheAgrees;
    hide TradeRecorded;
    hide TradedQuantity;
    forall id | id in s.db.orders && s.db.orders[id].status == Filled
      ensures s.db.orders[id].remaining == 0.0
    {
      assert OrderAccounted(s.db.orders[id], TradedQuantity(s.db.trades, id));
    }
  }

  lemma FinalOrders(s: State, sym: Symbol, o: Order)
    requires Accepted(s, sym, o)
    ensures OrdersAgree(FinalState(s, sym, o))
  {
    hide FinalState;
    hide ReservedOrder;
    hide Executed;
    hide After;
    hide ExecShape;
    hide Known;
    hide Good;
    hide Validate;
    hide InBook;
    GoodParts(s);
    GoodTable(s);
    FinalBooksAre(s, sym, o);
    FinalRecordsAre(s, sym, o);
    ExecutionSucceeds(s, sym, o);
    ReservedIsKnown(s, sym, o);
    OrdersCarry(s.db.orders, s.books, o.symbol, ReservedOrder(s, sym, o), Executed(s, sym, o));
    TableIsOrders(FinalState(s, sym, o));
  }

  lemma TableIsOrders(s: State)
    requires TableAgrees(s.db.orders, s.books)
    ensures OrdersAgree(s)
  {
  }

  /** The store's view of the orders against a set of books. */
  ghost predicate TableAgrees(orders: map<string, Order>, books: map<string, Book>) {
    && (forall id | id in orders :: orders[id].id == id && orders[id].symbol in books)
    && (forall n, o | n in books && InBook(books[n], o) :: o.id in orders && orders[o.id] == o)
    && (forall id | id in orders && orders[id].status != Filled :: InBook(books[orders[id].symbol], orders[id]))
  }

  lemma OrdersCarry(orders: map<string, Order>, books: map<string, Book>, n: string, o: Order, e: Execution)
    requires TableAgrees(orders, books) && n in books && o.symbol == n && o.id !in orders
    requires Known(orders, books[n], n) && ExecShape(books[n], o, e)
    requires forall id | id in orders && orders[id].status == Filled :: orders[id].remaining == 0.0
    requires forall m, p | m in books && InBook(books[m], p) :: p.symbol == m
    ensures TableAgrees(After(orders, e), books[n := e.book])
  {
    hide After;
    hide ExecShape;
    hide Known;
    hide InBook;
    var b, orders', books' := books[n], After(orders, e), books[n := e.book];
    AfterLookup(orders, b, n, o, e);
    AfterIdentity(orders, b, n, o, e);
    TakerId(b, o, e);
    forall m, p | m in books' && InBook(books'[m], p)
      ensures p.id in orders' && orders'[p.id] == p
    {
      if m == n {
        BookIsKnown(orders, b, n, o, e, p);
      } else {
        OtherBookKnown(orders, books, n, o, e, m, p);
      }
    }
    forall id | id in orders' && orders'[id].status != Filled
      ensures InBook(books'[orders'[id].symbol], orders'[id])
    {
      if orders'[id].symbol == n {
        OpenIsOnBook(orders, b, n, o, e, id);
      } else {
        OtherOrderSame(orders, books, n, o, e, id);
      }
    }
  }

  lemma TakerId(b: Book, o: Order, e: Execution)
    requires ExecShape(b, o, e)
    ensures e.taker.id == o.id && e.taker.symbol == o.symbol
  {
    hide MakersShape;
    hide RestShape;
  }

  lemma OtherBookKnown(orders: map<string, Order>, books: map<string, Book>, n: string, o: Order, e: Execution,
                       m: string, p: Order)
    requires TableAgrees(orders, books) && n in books && o.id !in orders
    requires Known(orders, books[n], n) && ExecShape(books[n], o, e)
    requires m in books && m != n && InBook(books[m], p) && p.symbol == m
    ensures p.id in After(orders, e) && After(orders, e)[p.id] == p
  {
    hide After;
    hide ExecShape;
    hide BookOk;
    hide TableAgrees;
    assert p.id in orders && orders[p.id] == p by {
      assert TableAgrees(orders, books);
      TableEntry(orders, books, m, p);
    }
    SymbolKept(orders, books[n], n, o, e, p.id);
  }

  lemma TableEntry(orders: map<string, Order>, books: map<string, Book>, m: string, p: Order)
    requires TableAgrees(orders, books) && m in books && InBook(books[m], p)
    ensures p.id in orders && orders[p.id] == p
  {
  }

  /** Orders of other symbols keep their record. */
  lemma SymbolKept(orders: map<string, Order>, b: Book, n: string, o: Order, e: Execution, id: string)
    requires Known(orders, b, n) && ExecShape(b, o, e) && o.id !in orders && id in orders && orders[id].symbol != n
    ensures id in After(orders, e) && After(orders, e)[id] == orders[id]
  {
    hide After;
    hide ExecShape;
    hide Ordered;
    hide Uncrossed;
    hide Live;
    AfterLookup(orders, b, n, o, e);
    MakerIds(orders, b, n, o, e);
    forall i | 0 <= i < |e.makers|
      ensures e.makers[i].id != id
    {
      var p := Opposite(b, o.side)[i];
      assert InBook(b, p) && Resting(p, p.side, n);
    }
  }

  lemma OtherOrderSame(orders: map<string, Order>, books: map<string, Book>, n: string, o: Order, e: Execution,
                       id: string)
    requires TableAgrees(orders, books) && n in books && o.id !in orders && o.symbol == n
    requires Known(orders, books[n], n) && ExecShape(books[n], o, e)
    requires id in After(orders, e) && After(orders, e)[id].symbol != n && After(orders, e)[id].status != Filled
    ensures After(orders, e)[id].symbol in books && InBook(books[After(orders, e)[id].symbol], After(orders, e)[id])
  {
    hide After;
    hide ExecShape;
    hide Known;
    hide InBook;
    AfterLookup(orders, books[n], n, o, e);
    AfterIdentity(orders, books[n], n, o, e);
    TakerId(books[n], o, e);
    SymbolKept(orders, books[n], n, o, e, id);
  }

  lemma FinalAccounted(s: State, sym: Symbol, o: Order)
    requires Accepted(s, sym, o)
    ensures Accounted(FinalState(s, sym, o))
  {
    hide FinalState;
    hide ReservedOrder;
    hide Executed;
    hide After;
    hide ExecShape;
    hide Known;
    hide Good;
    hide Validate;
    hide OrderAccounted;
    hide TradeRecorded;
    FinalRecordsAre(s, sym, o);
    ExecutionSucceeds(s, sym, o);
    ReservedIsKnown(s, sym, o);
    GoodParts(s);
    var b, o1, e, s' := s.books[o.symbol], ReservedOrder(s, sym, o), Executed(s, sym, o), FinalState(s, sym, o);
    TapeNames(s);
    forall id | id in s'.db.orders
      ensures OrderAccounted(s'.db.orders[id], TradedQuantity(s'.db.trades, id))
    {
      AccountingCarries(s.db.orders, b, o.symbol, o1, e, s.db.trades, id);
    }
    forall i | 0 <= i < |s'.db.trades|
      ensures TradeRecorded(s'.symbols, s'.db.orders, s'.db.trades[i])
    {
      TapeCarries(s.symbols, s.db.orders, b, o.symbol, o1, e, s.db.trades, i);
    }
  }

  lemma TapeNames(s: State)
    requires Accounted(s)
    ensures AllAccounted(s.db.orders, s.db.trades)
  {
    hide OrderAccounted;
  }

  lemma FinalLedger(s: State, sym: Symbol, o: Order)
    requires Accepted(s, sym, o)
    ensures LedgerAgrees(FinalState(s, sym, o))
  {
    hide FinalState;
    hide ReservedOrder;
    hide Executed;
    hide After;
    hide ExecShape;
    hide Known;
    hide Good;
    hide Validate;
    hide Bal;
    hide Replayed;
    hide Deposited;
    FinalRecordsAre(s, sym, o);
    ExecutionSucceeds(s, sym, o);
    ReservedIsKnown(s, sym, o);
    ReservedSide(s, sym, o);
    GoodParts(s);
    TapeNames(s);
    var b, o1, e, s' := s.books[o.symbol], ReservedOrder(s, sym, o), Executed(s, sym, o), FinalState(s, sym, o);
    forall a, x
      ensures Total(Bal(s'.wallet, a, x)) == Deposited(s'.db.audit, a, x)
                                             + Replayed(s'.symbols, s'.db.orders, s'.db.trades, a, x)
    {
      FinalBalances(s, sym, o, a, x);
      LedgerCarries(s.symbols, s.db.orders, b, o.symbol, o1, e, s.db.trades, s.db.audit, a, x);
      assert Total(Bal(s.wallet, a, x)) == Deposited(s.db.audit, a, x)
                                           + Replayed(s.symbols, s.db.orders, s.db.trades, a, x);
    }
  }

  lemma TradesStayCached(cached: map<string, seq<Trade>>, symbols: Symbols, market: map<string, seq<Trade>>,
                         n: string, trades: seq<Trade>)
    requires CachedTrades(cached, symbols, market) && n in symbols
    ensures var market' := Record(market, n, trades);
            CachedTrades(cached[n := MarketTrades(market', n)], symbols, market')
  {
  }

  lemma BookStaysCached(cached: map<string, Snapshot>, books: map<string, Book>, n: string, b: Book)
    requires CachedBooks(cached, books)
    ensures CachedBooks(cached[n := BookSnapshot(b)], books[n := b])
  {
  }

  lemma FinalCache(s: State, sym: Symbol, o: Order)
    requires Accepted(s, sym, o)
    ensures CacheAgrees(FinalState(s, sym, o))
  {
    hide FinalState;
    hide Executed;
    hide Good;
    hide Validate;
    hide MarketTrades;
    hide Record;
    hide SyncAll;
    hide CachedTrades;
    hide CachedBooks;
    GoodParts(s);
    FinalBooksAre(s, sym, o);
    FinalMarketIs(s, sym, o);
    FinalAccounts(s, sym, o);
    TradesStayCached(s.cache.trades, s.symbols, s.market, o.symbol, Executed(s, sym, o).trades);
    BookStaysCached(s.cache.books, s.books, o.symbol, Executed(s, sym, o).book);
  }

  lemma BookUpdateWellFormed(s: State, n: string, b: Book, s': State)
    requires WellFormed(s) && n in s.books && s'.symbols == s.symbols && s'.books == s.books[n := b]
    ensures WellFormed(s')
  {
  }

  lemma FinalWellFormed(s: State, sym: Symbol, o: Order)
    requires Accepted(s, sym, o)
    ensures o.symbol in s.books && WellFormed(FinalState(s, sym, o))
  {
    hide Execute;
    hide Good;
    hide Validate;
    hide SyncAll;
    hide ReservedState;
    GoodParts(s);
    ReservedBooks(s, sym, o);
    BookUpdateWellFormed(s, o.symbol, Executed(s, sym, o).book, FinalState(s, sym, o)) by {
      SyncKeepsBooks(Unsynced(s, sym, o), Executed(s, sym, o).changed);
    }
  }

  lemma ReservedBooks(s: State, sym: Symbol, o: Order)
    ensures ReservedState(s, sym, o).books == s.books && ReservedState(s, sym, o).symbols == s.symbols
  {
    hide Reserve;
    hide PersistAccount;
  }

  lemma SyncKeepsBooks(s: State, changed: Accounts)
    ensures SyncAll(s, changed).books == s.books && SyncAll(s, changed).symbols == s.symbols
  {
    hide PersistAll;
    hide Bumped;
  }

  lemma FinalMoney(s: State, sym: Symbol, o: Order)
    requires Accepted(s, sym, o)
    ensures WellFormed(FinalState(s, sym, o)) && LocksAgree(FinalState(s, sym, o))
            && NonNegative(FinalState(s, sym, o).wallet)
  {
    hide FinalState;
    hide Accepted;
    hide Bal;
    hide TotalHeld;
    FinalWellFormed(s, sym, o);
    var s' := FinalState(s, sym, o);
    forall a, x
      ensures Bal(s'.wallet, a, x).locked == TotalHeld(s', a, x) >= 0.0 && Bal(s'.wallet, a, x).available >= 0.0
    {
      FinalBalances(s, sym, o, a, x);
    }
  }

  lemma FinalBooks(s: State, sym: Symbol, o: Order)
    requires Accepted(s, sym, o)
    ensures BooksOk(FinalState(s, sym, o))
  {
    hide FinalState;
    hide Executed;
    hide Good;
    hide Validate;
    hide BookOk;
    GoodParts(s);
    FinalBooksAre(s, sym, o);
    ExecutionSucceeds(s, sym, o);
  }

  /** Placing an order takes a good state to a good state. */
  lemma PlacingKeepsGood(s: State, sym: Symbol, o: Order)
    requires Accepted(s, sym, o)
    ensures Good(FinalState(s, sym, o))
  {
    hide FinalState;
    hide Accepted;
    hide WellFormed;
    hide BooksOk;
    hide LocksAgree;
    hide OrdersAgree;
    hide Accounted;
    hide LedgerAgrees;
    hide CacheAgrees;
    hide AccountsAgree;
    hide NonNegative;
    FinalMoney(s, sym, o);
    FinalBooks(s, sym, o);
    FinalAccounts(s, sym, o);
    FinalOrders(s, sym, o);
    FinalAccounted(s, sym, o);
    FinalLedger(s, sym, o);
    FinalCache(s, sym, o);
  }
}
