/** Every run of the exchange, and what a reader may rely on after it. */
module Runs {
  import opened Domain
  import opened Matching
  import opened BookModel
  import opened WalletModel
  import opened Recovery
  import opened Money
  import opened Machine
  import opened Invariant
  import opened Executing
  import opened Syncing
  import opened OrderRecords
  import opened Placing
  import opened Restarting

  // ----- deposits

  function Deposit1(s: State, account: string, asset: string, amount: real): Account {
    Credited(GetAccount(s.wallet, account), asset, amount)
  }

  /** An accepted deposit: the store follows, the version moves on by one, and exactly the amount
      becomes available in the named asset. */
  lemma DepositEffect(s: State, account: string, asset: string, amount: real)
    requires Good(s) && amount > 0.0
    ensures var (err, s') := Deposit(s, account, asset, amount);
            && err.None?
            && s'.symbols == s.symbols && s'.books == s.books && s'.market == s.market
            && s'.db.orders == s.db.orders && s'.db.trades == s.db.trades
            && AccountsAgree(s') && s'.wallet.Keys == s.wallet.Keys + {account}
            && s'.wallet[account].version == GetAccount(s.wallet, account).version + 1
            && s'.db.audit == s.db.audit + [DepositCompleted(account, asset, amount, s'.wallet[account].version)]
            && s'.cache == s.cache.(accounts := s.cache.accounts[account := s'.wallet[account]])
            && s'.wallet ==
               s.wallet[account := Deposit1(s, account, asset, amount).(version := s'.wallet[account].version)]
  {
    hide BooksOk;
    hide LocksAgree;
    hide OrdersAgree;
    hide Accounted;
    hide LedgerAgrees;
    hide CacheAgrees;
    hide NonNegative;
    var credited := Deposit1(s, account, asset, amount);
    assert credited.id == account && asset in credited.balances;
    if account in s.wallet {
      assert s.wallet[account].balances + credited.balances == credited.balances;
    }
  }

  lemma DepositBalance(s: State, account: string, asset: string, amount: real, a: string, x: string)
    requires Good(s) && amount > 0.0
    ensures var s' := Deposit(s, account, asset, amount).1;
            Bal(s'.wallet, a, x) ==
            if a == account && x == asset then
              Balance(Bal(s.wallet, a, x).available + amount, Bal(s.wallet, a, x).locked)
            else Bal(s.wallet, a, x)
  {
    hide Good;
    hide Deposit;
    DepositEffect(s, account, asset, amount);
  }

  lemma DepositCaches(s: State, account: string, asset: string, amount: real)
    requires Good(s) && amount > 0.0
    ensures CacheAgrees(Deposit(s, account, asset, amount).1)
  {
    hide Good;
    hide Deposit;
    hide CachedBooks;
    hide CachedTrades;
    hide Deposit1;
    GoodCache(s);
    DepositEffect(s, account, asset, amount);
    AccountStaysCached(s.cache.accounts, s.wallet, account, Deposit(s, account, asset, amount).1.wallet[account]);
  }

  lemma AccountStaysCached(cached: Accounts, wallet: Accounts, id: string, account: Account)
    requires CachedAccounts(cached, wallet)
    ensures CachedAccounts(cached[id := account], wallet[id := account])
  {
  }

  lemma DepositKeepsGood(s: State, account: string, asset: string, amount: real)
    requires Good(s)
    ensures Good(Deposit(s, account, asset, amount).1)
  {
    if amount > 0.0 {
      DepositMoney(s, account, asset, amount);
      DepositCaches(s, account, asset, amount);
      DepositRest(s, account, asset, amount);
    }
  }

  lemma DepositRest(s: State, account: string, asset: string, amount: real)
    requires Good(s) && amount > 0.0
    ensures var s' := Deposit(s, account, asset, amount).1;
            AccountsAgree(s') && WellFormed(s') && BooksOk(s') && OrdersAgree(s') && Accounted(s')
  {
    hide Deposit;
    hide Deposit1;
    hide BookOk;
    hide LocksAgree;
    hide LedgerAgrees;
    hide CacheAgrees;
    hide NonNegative;
    DepositEffect(s, account, asset, amount);
    SameAccounted(s, Deposit(s, account, asset, amount).1);
  }

  lemma DepositMoney(s: State, account: string, asset: string, amount: real)
    requires Good(s) && amount > 0.0
    ensures var s' := Deposit(s, account, asset, amount).1;
            s'.books.Keys == s'.symbols.Keys && LocksAgree(s') && NonNegative(s'.wallet) && LedgerAgrees(s')
  {
    hide Good;
    hide Deposit;
    hide Deposit1;
    hide Bal;
    hide BooksHeld;
    hide Replayed;
    hide Deposited;
    GoodWellFormed(s);
    GoodParts(s);
    DepositEffect(s, account, asset, amount);
    var s' := Deposit(s, account, asset, amount).1;
    forall a, x
      ensures Bal(s'.wallet, a, x).locked == TotalHeld(s', a, x) >= 0.0
      ensures Bal(s'.wallet, a, x).available >= 0.0
      ensures Total(Bal(s'.wallet, a, x)) ==
              Deposited(s'.db.audit, a, x) + Replayed(s'.symbols, s'.db.orders, s'.db.trades, a, x)
    {
      DepositBalance(s, account, asset, amount, a, x);
      OneDeposit(s.db.audit, DepositCompleted(account, asset, amount, s'.wallet[account].version), a, x);
      assert Bal(s.wallet, a, x).locked == TotalHeld(s, a, x) && Bal(s.wallet, a, x).locked >= 0.0;
      assert Bal(s.wallet, a, x).available >= 0.0;
      assert Total(Bal(s.wallet, a, x)) == Deposited(s.db.audit, a, x)
                                           + Replayed(s.symbols, s.db.orders, s.db.trades, a, x);
    }
  }

  lemma OneDeposit(audit: seq<AuditEvent>, e: AuditEvent, a: string, x: string)
    ensures Deposited(audit + [e], a, x) == Deposited(audit, a, x) + DepositOf(e, a, x)
  {
    DepositedConcat(audit, [e], a, x);
    assert Deposited([e], a, x) == DepositOf(e, a, x) + Deposited([], a, x);
  }

  /** A deposit succeeds exactly when its amount is positive; otherwise nothing changes. */
  lemma DepositSucceedsIff(s: State, account: string, asset: string, amount: real)
    requires Good(s)
    ensures var (err, s') := Deposit(s, account, asset, amount);
            && (err.None? <==> amount > 0.0)
            && (err.Some? ==> err.value == AmountNotPositive && s' == s)
  {
    hide Good;
    hide SyncAccount;
    hide Credited;
    if amount > 0.0 {
      DepositEffect(s, account, asset, amount);
    }
  }

  // ----- cache-first reads

  /** Only the cache differs, and it still agrees. */
  lemma CacheChangeKeepsGood(s: State, s': State)
    requires Good(s) && s' == s.(cache := s'.cache) && CacheAgrees(s')
    ensures Good(s')
  {
    hide BooksOk;
    hide LocksAgree;
    hide OrdersAgree;
    hide Accounted;
    hide LedgerAgrees;
    hide NonNegative;
    hide CacheAgrees;
    GoodParts(s);
    assert BooksOk(s') by { SameBooksAre(s, s'); }
    assert LocksAgree(s') by { SameLocksAre(s, s'); }
    assert OrdersAgree(s') by { SameOrdersAgree(s, s'); }
    assert Accounted(s') by { SameAccounted(s, s'); }
    assert LedgerAgrees(s') by { SameLedgerIs(s, s'); }
  }

  lemma SameBooksAre(s: State, s': State)
    requires BooksOk(s) && s'.books == s.books
    ensures BooksOk(s')
  {
  }

  lemma SameLocksAre(s: State, s': State)
    requires s.books.Keys == s.symbols.Keys && LocksAgree(s)
    requires s'.books == s.books && s'.symbols == s.symbols && s'.wallet == s.wallet
    ensures LocksAgree(s')
  {
    hide BooksHeld;
  }

  lemma SameLedgerIs(s: State, s': State)
    requires LedgerAgrees(s) && s'.symbols == s.symbols && s'.db == s.db && s'.wallet == s.wallet
    ensures LedgerAgrees(s')
  {
  }

  /** A cache-first account read answers the wallet's account, or an empty one at version 0 when there is none;
      it caches its answer, changes nothing else, and leaves a good state. */
  lemma AccountReadIsUncached(s: State, id: string)
    requires Good(s)
    ensures ReadAccount(s, id).0 == if id in s.wallet then s.wallet[id] else Account(id, 0, map[])
    ensures var s' := ReadAccount(s, id).1;
            && s' == s.(cache := s.cache.(accounts := s.cache.accounts[id := ReadAccount(s, id).0]))
            && Good(s')
  {
    hide Good;
    hide CachedBooks;
    hide CachedTrades;
    GoodCache(s);
    CachedAgain(s.cache.accounts, id);
    CacheChangeKeepsGood(s, ReadAccount(s, id).1);
  }

  lemma CachedAgain<V>(cached: map<string, V>, k: string)
    ensures k in cached ==> cached[k := cached[k]] == cached
  {
  }

  /** A cache-first book read answers both sides of the book as they stand, caches its answer, changes nothing
      else, and leaves a good state. */
  lemma BookReadIsUncached(s: State, n: string)
    requires Good(s)
    ensures s.books.Keys == s.symbols.Keys
    ensures n !in s.symbols ==> ReadBook(s, n) == (None, s)
    ensures n in s.symbols ==>
              var shown := Snapshot(s.books[n].bids, s.books[n].asks);
              ReadBook(s, n) == (Some(shown), s.(cache := s.cache.(books := s.cache.books[n := shown])))
    ensures Good(ReadBook(s, n).1)
  {
    hide Good;
    hide CachedAccounts;
    hide CachedTrades;
    GoodCache(s);
    CachedAgain(s.cache.books, n);
    CacheChangeKeepsGood(s, ReadBook(s, n).1);
  }

  /** A cache-first trade list read answers what the market data would, caches its answer, changes nothing
      else, and leaves a good state. */
  lemma TradesReadIsUncached(s: State, n: string)
    requires Good(s)
    ensures ReadTrades(s, n).0 == (if n in s.symbols then Some(MarketTrades(s.market, n)) else None)
            && Good(ReadTrades(s, n).1)
    ensures n in s.symbols ==>
              ReadTrades(s, n).1 ==
              s.(cache := s.cache.(trades := s.cache.trades[n := MarketTrades(s.market, n)]))
  {
    hide Good;
    hide CachedAccounts;
    hide CachedBooks;
    hide MarketTrades;
    GoodCache(s);
    CachedAgain(s.cache.trades, n);
    CacheChangeKeepsGood(s, ReadTrades(s, n).1);
  }

  lemma ExpireKeepsGood(s: State, accounts: set<string>, books: set<string>, trades: set<string>)
    requires Good(s)
    ensures Good(Expire(s, accounts, books, trades))
  {
    hide Good;
    GoodCache(s);
    CacheChangeKeepsGood(s, Expire(s, accounts, books, trades));
  }

  // ----- placing, as a command

  /** In a good state an order is either rejected or placed, never stuck halfway. */
  lemma PlaceIsAllOrNothing(s: State, req: Request, id: string)
    requires Good(s) && id !in s.db.orders
    ensures s.books.Keys == s.symbols.Keys
    ensures match PlaceOrder(s, req, id)
            case Rejected(_) => true
            case Stuck(_) => false
            case Placed(s', _, _) => Good(s')
  {
    hide Good;
    hide Validate;
    hide ParseSide;
    GoodCache(s);
    if req.symbol in s.symbols && ParseSide(req.side).Some? {
      var o := NewOrder(req, ParseSide(req.side).value, id);
      if Validate(s.wallet, s.symbols[req.symbol], o).None? {
        AcceptedIsPlaced(s, req, id);
        PlacingKeepsGood(s, s.symbols[req.symbol], o);
      }
    }
  }

  /** The letters of a side may be in either case, and nothing else reads as a side. */
  lemma SideIsReadInAnyCase(raw: string)
    ensures ParseSide(raw) == Some(BuySide) <==>
            |raw| == 3 && raw[0] in {'b', 'B'} && raw[1] in {'u', 'U'} && raw[2] in {'y', 'Y'}
    ensures ParseSide(raw) == Some(SellSide) <==>
            |raw| == 4 && raw[0] in {'s', 'S'} && raw[1] in {'e', 'E'} && raw[2] in {'l', 'L'} && raw[3] in {'l', 'L'}
  {
    hide Lower;
    hide LowerChar;
    LowerLetters(raw);
    var low := Lower(raw);
    if |raw| == 3 {
      LowerOf(raw[0], 'b', 'B');
      LowerOf(raw[1], 'u', 'U');
      LowerOf(raw[2], 'y', 'Y');
      assert low == [low[0], low[1], low[2]];
    } else if |raw| == 4 {
      LowerOf(raw[0], 's', 'S');
      LowerOf(raw[1], 'e', 'E');
      LowerOf(raw[2], 'l', 'L');
      LowerOf(raw[3], 'l', 'L');
      assert low == [low[0], low[1], low[2], low[3]];
    }
  }

  lemma {:induction false} LowerLetters(raw: string)
    ensures |Lower(raw)| == |raw| && forall i | 0 <= i < |raw| :: Lower(raw)[i] == LowerChar(raw[i])
  {
    if raw != "" {
      LowerLetters(raw[1..]);
    }
  }

  lemma LowerOf(c: char, lower: char, upper: char)
    requires 'a' <= lower <= 'z' && upper == lower - 'a' + 'A'
    ensures LowerChar(c) == lower <==> c == lower || c == upper
  {
  }

  /** The account can pay for what a request asks. */
  ghost predicate Affordable(s: State, req: Request, side: Side)
    requires req.symbol in s.symbols
  {
    Bal(s.wallet, req.account, LockAsset(s.symbols[req.symbol], side)).available
    >= if side == BuySide then req.price * req.quantity else req.quantity
  }

  /** In a good state a request is placed exactly when its symbol is traded, its side reads, price
      and quantity are positive and the account can pay; a rejection names what is wrong. */
  lemma PlacedIff(s: State, req: Request, id: string)
    requires Good(s) && id !in s.db.orders
    ensures s.books.Keys == s.symbols.Keys
    ensures PlaceOrder(s, req, id).Placed? <==>
            req.symbol in s.symbols && ParseSide(req.side).Some? && req.price > 0.0 && req.quantity > 0.0
            && Affordable(s, req, ParseSide(req.side).value)
    ensures PlaceOrder(s, req, id).Rejected? ==>
              match PlaceOrder(s, req, id).error
              case UnsupportedSymbol(n) => n == req.symbol && n !in s.symbols
              case UnsupportedSide(raw) => raw == req.side && ParseSide(raw).None?
              case PriceNotPositive => req.price <= 0.0
              case QuantityNotPositive => req.quantity <= 0.0
              case InsufficientAvailable(x) =>
                && req.symbol in s.symbols && ParseSide(req.side).Some?
                && x == LockAsset(s.symbols[req.symbol], ParseSide(req.side).value)
                && !Affordable(s, req, ParseSide(req.side).value)
              case _ => false
  {
    hide Good;
    hide ParseSide;
    hide Bal;
    hide Reserve;
    hide SyncAccount;
    hide Execute;
    hide NoConflict;
    hide Booked;
    hide FinalState;
    hide Executed;
    hide Accepted;
    GoodCache(s);
    GoodWellFormed(s);
    if req.symbol in s.symbols && ParseSide(req.side).Some? {
      var o := NewOrder(req, ParseSide(req.side).value, id);
      if Validate(s.wallet, s.symbols[req.symbol], o).None? {
        AcceptedIsPlaced(s, req, id);
      }
    }
  }

  // ----- runs

  ghost predicate Legal(s: State, run: seq<Command>)
    decreases |run|
  {
    run == [] ||
    (s.books.Keys == s.symbols.Keys && Allowed(s, run[0]) && Legal(Do(s, run[0]), run[1..]))
  }

  ghost function RunAll(s: State, run: seq<Command>): State
    requires Legal(s, run)
    decreases |run|
  {
    if run == [] then s else RunAll(Do(s, run[0]), run[1..])
  }

  lemma StepKeepsGood(s: State, c: Command)
    requires Good(s) && Allowed(s, c)
    ensures s.books.Keys == s.symbols.Keys && Good(Do(s, c))
  {
    hide Good;
    hide PlaceOrder;
    hide Deposit;
    hide Restart;
    hide OpenOrders;
    GoodCache(s);
    match c
    case DoDeposit(account, asset, amount) => DepositKeepsGood(s, account, asset, amount);
    case DoPlace(req, id) => PlaceIsAllOrNothing(s, req, id);
    case DoRestart(os, trades) => RestartKeepsGood(s, os, trades);
    case DoReadAccount(id) => AccountReadIsUncached(s, id);
    case DoReadBook(n) => BookReadIsUncached(s, n);
    case DoReadTrades(n) => TradesReadIsUncached(s, n);
    case DoExpire(accounts, books, names) => ExpireKeepsGood(s, accounts, books, names);
  }

  /** Whatever deposits, orders, reads, expiries and restarts come, the state stays good. */
  lemma {:induction false} RunsStayGood(s: State, run: seq<Command>)
    requires Good(s) && Legal(s, run)
    ensures Good(RunAll(s, run))
    decreases |run|
  {
    hide Good;
    hide Do;
    if run != [] {
      StepKeepsGood(s, run[0]);
      RunsStayGood(Do(s, run[0]), run[1..]);
    }
  }

  ghost predicate SymbolTable(symbols: Symbols) {
    forall n | n in symbols :: symbols[n].name == n && symbols[n].base != symbols[n].quote
  }

  lemma InitialBooks(symbols: Symbols)
    requires SymbolTable(symbols)
    ensures WellFormed(Initial(symbols)) && BooksOk(Initial(symbols)) && OrdersAgree(Initial(symbols))
  {
  }

  lemma InitialMoney(symbols: Symbols)
    ensures LocksAgree(Initial(symbols)) && NonNegative(Initial(symbols).wallet) && LedgerAgrees(Initial(symbols))
  {
    hide BooksHeld;
    forall a, x
      ensures TotalHeld(Initial(symbols), a, x) == 0.0
    {
      EmptyHeld(symbols, symbols.Keys, a, x);
    }
  }

  lemma InitialIsGood(symbols: Symbols)
    requires SymbolTable(symbols)
    ensures Good(Initial(symbols))
  {
    hide WellFormed;
    hide BooksOk;
    hide OrdersAgree;
    hide LocksAgree;
    hide LedgerAgrees;
    hide NonNegative;
    InitialBooks(symbols);
    InitialMoney(symbols);
  }

  /** The two markets the exchange opens. */
  const MARKETS: Symbols := map[
                              "BTC-USDT" := Symbol("BTC-USDT", "BTC", "USDT"),
                              "ETH-USDT" := Symbol("ETH-USDT", "ETH", "USDT")]

  lemma MarketsAreATable()
    ensures SymbolTable(MARKETS)
  {
    assert "BTC" != "USDT" by { assert "BTC"[0] != "USDT"[0]; }
    assert "ETH" != "USDT" by { assert "ETH"[0] != "USDT"[0]; }
  }

  /** Every state reachable from the start is good. */
  lemma ReachableIsGood(run: seq<Command>)
    requires Legal(Initial(MARKETS), run)
    ensures Good(RunAll(Initial(MARKETS), run))
  {
    hide Good;
    hide Legal;
    hide RunAll;
    hide Initial;
    MarketsAreATable();
    InitialIsGood(MARKETS);
    RunsStayGood(Initial(MARKETS), run);
  }
}
