/** The exchange as a state machine over values: deposits, orders, cache-first reads and
    restarts, each a function of the state. */
module Machine {
  import opened Domain
  import opened Matching
  import opened Priority
  import opened BookModel
  import opened WalletModel
  import opened Settlement
  import opened Recovery

  datatype AuditEvent =
    | DepositCompleted(account: string, asset: string, amount: real, version: int)
    | OrderAccepted(order: Order, trades: nat)
    | TradeExecuted(trade: Trade, acceptedOrder: string)

  /** The tables of the store. The balances of an account sit with its row. */
  datatype Db = Db(accounts: Accounts, orders: map<string, Order>, trades: seq<Trade>, audit: seq<AuditEvent>)

  datatype Snapshot = Snapshot(bids: seq<Order>, asks: seq<Order>)

  datatype Cache = Cache(accounts: Accounts, books: map<string, Snapshot>, trades: map<string, seq<Trade>>)

  datatype State = State(
    symbols: Symbols, wallet: Accounts, books: map<string, Book>,
    db: Db, market: map<string, seq<Trade>>, cache: Cache)

  datatype Request = Request(account: string, symbol: string, side: string, price: real, quantity: real)

  // ----- the store

  datatype Persisted = Persisted(err: Option<Error>, table: Accounts, account: Account)

  /** Compare-and-swap on the account's version; the given balance rows are upserted. */
  function PersistAccount(table: Accounts, account: Account): Persisted {
    if account.id !in table then
      if account.version != 0 then Persisted(Some(VersionConflict(account.id)), table, account)
      else Persisted(None, table[account.id := account.(version := 1)], account.(version := 1))
    else
      var row := table[account.id];
      if row.version != account.version then Persisted(Some(VersionConflict(account.id)), table, account)
      else
        var next := row.version + 1;
        Persisted(None, table[account.id := Account(account.id, next, row.balances + account.balances)],
                  account.(version := next))
  }

  /** Persist an account, then write it back to the wallet and the cache. */
  function SyncAccount(s: State, account: Account): (Option<Error>, State) {
    var p := PersistAccount(s.db.accounts, account);
    if p.err.Some? then (p.err, s)
    else
      var cached := s.cache.accounts[p.account.id := p.account];
      (None, s.(db := s.db.(accounts := p.table), wallet := s.wallet[p.account.id := p.account],
       cache := s.cache.(accounts := cached)))
  }

  /** All given accounts can be persisted. */
  predicate NoConflict(table: Accounts, changed: Accounts) {
    forall a | a in changed :: changed[a].id == a && PersistAccount(table, changed[a]).err.None?
  }

  /** What syncing several accounts amounts to, in whatever order they are taken. */
  function SyncAll(s: State, changed: Accounts): State {
    s.(db := s.db.(accounts := PersistAll(s.db.accounts, changed)),
    wallet := s.wallet + Bumped(s.db.accounts, changed),
    cache := s.cache.(accounts := s.cache.accounts + Bumped(s.db.accounts, changed)))
  }

  function PersistAll(table: Accounts, changed: Accounts): Accounts {
    map a | a in table.Keys + changed.Keys ::
      if a in changed then
        var t := PersistAccount(table, changed[a]).table;
        if a in t then t[a] else changed[a]
      else table[a]
  }

  function Bumped(table: Accounts, changed: Accounts): Accounts {
    map a | a in changed :: PersistAccount(table, changed[a]).account
  }

  // ----- deposits

  function Credited(account: Account, asset: string, amount: real): Account {
    var b := if asset in account.balances then account.balances[asset] else NO_BALANCE;
    account.(balances := account.balances[asset := b.(available := b.available + amount)])
  }

  function Deposit(s: State, account: string, asset: string, amount: real): (Option<Error>, State) {
    if amount <= 0.0 then (Some(AmountNotPositive), s)
    else
      var credited := Credited(GetAccount(s.wallet, account), asset, amount);
      var (err, s') := SyncAccount(s, credited);
      if err.Some? then (err, s)
      else (None, s'.(db := s'.db.(audit := s'.db.audit
            + [DepositCompleted(account, asset, amount, s'.wallet[credited.id].version)])))
  }

  // ----- orders

  function LowerChar(c: char): char {
    if 'A' <= c <= 'Z' then c - 'A' + 'a' else c
  }

  function Lower(raw: string): string {
    if raw == "" then "" else [LowerChar(raw[0])] + Lower(raw[1..])
  }

  function ParseSide(raw: string): Option<Side> {
    if Lower(raw) == "buy" then Some(BuySide)
    else if Lower(raw) == "sell" then Some(SellSide)
    else None
  }

  function NewOrder(req: Request, side: Side, id: string): Order {
    Order(id, req.account, req.symbol, side, req.price, req.quantity, 0.0, 0.0, 0, Open)
  }

  /** The gate in front of every reservation. */
  function Validate(w: Accounts, sym: Symbol, o: Order): Option<Error> {
    if o.price <= 0.0 then Some(PriceNotPositive)
    else if o.quantity <= 0.0 then Some(QuantityNotPositive)
    else if o.symbol != sym.name then Some(SymbolMismatch)
    else if Bal(w, o.account, LockAsset(sym, o.side)).available < LockFor(o, o.quantity) then
      Some(InsufficientAvailable(LockAsset(sym, o.side)))
    else None
  }

  /** The snapshots of touched accounts, each retaken after every fill that may have moved it. */
  function Snapshots(w: Accounts, sym: Symbol, taker: Order, fills: seq<Fill>, taken: Accounts): Accounts
    decreases |fills|
  {
    if fills == [] then taken
    else
      var a := ApplyTrade(w, sym, fills[0].maker, taker, fills[0].trade);
      if a.err.Some? then taken
      else Snapshots(a.accounts, sym, a.taker, fills[1..],
                     taken[fills[0].maker.account := GetAccount(a.accounts, fills[0].maker.account)]
                     [taker.account := GetAccount(a.accounts, taker.account)])
  }

  datatype Execution = Execution(err: Option<Error>, accounts: Accounts, taker: Order, makers: seq<Order>,
                                 trades: seq<Trade>, book: Book, changed: Accounts)

  /** The book once the taker and the makers show their settled records. */
  function SettledBook(b: Book, taker: Order, makers: seq<Order>, rest: seq<Order>): Book {
    WithSides(taker.side,
              if taker.remaining > 0.0 then Insert(taker.side, Own(b, taker.side), taker) else Own(b, taker.side),
              Refreshed(rest, makers), b.seqNo + 1)
  }

  /** Match a reserved order, settle its fills, release what is left of a filled taker. When a settlement
      fails, the submission and the settlements before it stand. */
  function Execute(w: Accounts, sym: Symbol, b: Book, o: Order): Execution {
    var m := Match(Stamped(b, o), Opposite(b, o.side));
    var taker := WithStatus(m.taker);
    var x := SettleFills(w, sym, taker, m.fills);
    var taken := Snapshots(w, sym, taker, m.fills, map[o.account := GetAccount(w, o.account)]);
    if x.err.Some? then
      Execution(x.err, x.accounts, x.taker, x.makers, Trades(m.fills), SettledBook(b, x.taker, [], m.rest), taken)
    else if x.taker.remaining == 0.0 then
      var (w', taker') := ReleaseRemaining(x.accounts, sym, x.taker);
      Execution(None, w', taker', x.makers, Trades(m.fills), SettledBook(b, taker', x.makers, m.rest),
                taken[o.account := GetAccount(w', o.account)])
    else
      Execution(None, x.accounts, x.taker, x.makers, Trades(m.fills), SettledBook(b, x.taker, x.makers, m.rest), taken)
  }

  datatype Placement =
    | Rejected(error: Error)
    | Stuck(error: Error)
    | Placed(state: State, order: Order, trades: seq<Trade>)

  ghost predicate WellFormed(s: State) {
    && s.books.Keys == s.symbols.Keys
    && forall n | n in s.symbols :: s.symbols[n].name == n && s.symbols[n].base != s.symbols[n].quote
  }

  function OrdersById(makers: seq<Order>): map<string, Order> {
    if makers == [] then map[] else OrdersById(makers[..|makers| - 1])[makers[|makers| - 1].id := makers[|makers| - 1]]
  }

  function MarketTrades(market: map<string, seq<Trade>>, symbol: string): seq<Trade> {
    if symbol in market then market[symbol] else []
  }

  function Record(market: map<string, seq<Trade>>, symbol: string, trades: seq<Trade>): map<string, seq<Trade>> {
    if trades == [] then market else market[symbol := MarketTrades(market, symbol) + trades]
  }

  function TradeEvents(trades: seq<Trade>, accepted: string): seq<AuditEvent> {
    if trades == [] then [] else [TradeExecuted(trades[0], accepted)] + TradeEvents(trades[1..], accepted)
  }

  /** What an executed order leaves behind: accounts, orders, trades and audit persisted, the market
      recorded, book and trades cached. */
  function Booked(s: State, symbol: string, e: Execution): State {
    var s1 := SyncAll(s.(wallet := e.accounts, books := s.books[symbol := e.book]), e.changed);
    var market := Record(s.market, symbol, e.trades);
    s1.(db := s1.db.(orders := s.db.orders[e.taker.id := e.taker] + OrdersById(e.makers),
    trades := s.db.trades + e.trades,
    audit := s.db.audit + [OrderAccepted(e.taker, |e.trades|)] + TradeEvents(e.trades, e.taker.id)),
    market := market,
    cache := s1.cache.(books := s1.cache.books[symbol := Snapshot(e.book.bids, e.book.asks)],
    trades := s1.cache.trades[symbol := MarketTrades(market, symbol)]))
  }

  function PlaceOrder(s: State, req: Request, id: string): Placement
    requires s.books.Keys == s.symbols.Keys
  {
    if req.symbol !in s.symbols then Rejected(UnsupportedSymbol(req.symbol))
    else
      match ParseSide(req.side)
      case None => Rejected(UnsupportedSide(req.side))
      case Some(side) =>
        var sym, o := s.symbols[req.symbol], NewOrder(req, side, id);
        var invalid := Validate(s.wallet, sym, o);
        if invalid.Some? then Rejected(invalid.value)
        else
          var r := Reserve(s.wallet, sym, o);
          if r.err.Some? then Stuck(r.err.value)
          else
            var (err, s1) := SyncAccount(s.(wallet := r.accounts), GetAccount(r.accounts, o.account));
            if err.Some? then Stuck(err.value)
            else
              var e := Execute(s1.wallet, sym, s.books[req.symbol], r.order);
              if e.err.Some? then Stuck(e.err.value)
              else if !NoConflict(s1.db.accounts, e.changed) then Stuck(VersionConflict(o.account))
              else Placed(Booked(s1, req.symbol, e), e.taker, e.trades)
  }

  // ----- restarts

  /** The rows loadOpenOrders selects, each once, in any order. */
  ghost predicate OpenOrders(db: Db, os: seq<Order>) {
    && (forall i, j | 0 <= i < j < |os| :: os[i].id != os[j].id)
    && (forall o | o in os :: o.id in db.orders && db.orders[o.id] == o && o.status != Filled)
    && (forall id | id in db.orders && db.orders[id].status != Filled :: db.orders[id] in os)
  }

  /** The JOIN of accounts and balances: an account without balance rows is not loaded. */
  function LoadAccounts(table: Accounts): Accounts {
    map a | a in table && table[a].balances != map[] :: table[a]
  }

  function RestoreAll(books: map<string, Book>, os: seq<Order>): map<string, Book>
    decreases |os|
  {
    if os == [] then books
    else if os[0].symbol !in books then RestoreAll(books, os[1..])
    else RestoreAll(books[os[0].symbol := Restore(books[os[0].symbol], os[0])], os[1..])
  }

  function EmptyBooks(symbols: Symbols): map<string, Book> {
    map n | n in symbols :: EMPTY_BOOK
  }

  /** The accounts whose locks a rebuild touched; all loaded accounts when there are none. */
  function Reconciled(loaded: Accounts, r: Rebuilt, symbols: Symbols): Accounts {
    var touched := map a | a in r.accounts && AccountAffected(symbols, r.orders, a) :: r.accounts[a];
    if touched == map[] then loaded else touched
  }

  const RELOAD_LIMIT := 1000

  /** A reload reads the first rows of the trade table only. */
  function FirstRows(trades: seq<Trade>): seq<Trade> {
    if |trades| <= RELOAD_LIMIT then trades else trades[..RELOAD_LIMIT]
  }

  /** Trades filed by symbol. */
  function Filed(trades: seq<Trade>, market: map<string, seq<Trade>>): map<string, seq<Trade>>
    decreases |trades|
  {
    if trades == [] then market
    else Filed(trades[1..], market[trades[0].symbol := MarketTrades(market, trades[0].symbol) + [trades[0]]])
  }

  function Warmed(s: State): Cache {
    s.cache.(books := s.cache.books + (map n | n in s.symbols
                                               && n in s.books :: Snapshot(s.books[n].bids, s.books[n].asks)),
    trades := s.cache.trades + (map n | n in s.symbols :: MarketTrades(s.market, n)))
  }

  /** A new process over the same store and cache, its reservations rebuilt and nothing written back. The
      books share the records the rebuild rewrites. */
  function BeforeSync(s: State, os: seq<Order>, trades: seq<Trade>): State {
    var r := Rebuild(LoadAccounts(s.db.accounts), s.symbols, os);
    s.(wallet := r.accounts, books := RestoreAll(EmptyBooks(s.symbols), r.orders), market := Filed(trades, map[]))
  }

  /** The accounts it writes back. */
  function ToSync(s: State, os: seq<Order>): Accounts {
    var loaded := LoadAccounts(s.db.accounts);
    Reconciled(loaded, Rebuild(loaded, s.symbols, os), s.symbols)
  }

  function Restart(s: State, os: seq<Order>, trades: seq<Trade>): (Option<Error>, State) {
    var s1, reconciled := BeforeSync(s, os, trades), ToSync(s, os);
    if !NoConflict(s.db.accounts, reconciled) then (Some(VersionConflict("")), s1)
    else
      var s2 := SyncAll(s1, reconciled);
      (None, s2.(cache := Warmed(s2)))
  }

  // ----- cache-first reads

  function ReadAccount(s: State, id: string): (Account, State) {
    if id in s.cache.accounts then (s.cache.accounts[id], s)
    else (GetAccount(s.wallet, id), s.(cache := s.cache.(accounts := s.cache.accounts[id := GetAccount(s.wallet, id)])))
  }

  function BookSnapshot(b: Book): Snapshot {
    Snapshot(b.bids, b.asks)
  }

  function ReadBook(s: State, n: string): (Option<Snapshot>, State)
    requires s.books.Keys == s.symbols.Keys
  {
    if n !in s.symbols then (None, s)
    else if n in s.cache.books then (Some(s.cache.books[n]), s)
    else (Some(BookSnapshot(s.books[n])), s.(cache := s.cache.(books := s.cache.books[n := BookSnapshot(s.books[n])])))
  }

  function ReadTrades(s: State, n: string): (Option<seq<Trade>>, State) {
    if n !in s.symbols then (None, s)
    else if n in s.cache.trades then (Some(s.cache.trades[n]), s)
    else
      var recent := MarketTrades(s.market, n);
      (Some(recent), s.(cache := s.cache.(trades := s.cache.trades[n := recent])))
  }

  /** Entries may expire at any time. */
  function Expire(s: State, accounts: set<string>, books: set<string>, trades: set<string>): State {
    s.(cache := Cache(s.cache.accounts - accounts, s.cache.books - books, s.cache.trades - trades))
  }

  // ----- runs

  datatype Command =
    | DoDeposit(account: string, asset: string, amount: real)
    | DoPlace(req: Request, id: string)
    | DoRestart(orders: seq<Order>, trades: seq<Trade>)
    | DoReadAccount(id: string)
    | DoReadBook(symbol: string)
    | DoReadTrades(symbol: string)
    | DoExpire(accounts: set<string>, books: set<string>, names: set<string>)

  /** Order ids are fresh, and a restart loads exactly the open orders and the first trades. */
  ghost predicate Allowed(s: State, c: Command) {
    match c
    case DoPlace(_, id) => id !in s.db.orders
    case DoRestart(os, trades) => OpenOrders(s.db, os) && trades == FirstRows(s.db.trades)
    case _ => true
  }

  function Do(s: State, c: Command): State
    requires s.books.Keys == s.symbols.Keys
  {
    match c
    case DoDeposit(account, asset, amount) => Deposit(s, account, asset, amount).1
    case DoPlace(req, id) => (match PlaceOrder(s, req, id) case Placed(s', _, _) => s' case _ => s)
    case DoRestart(os, trades) => Restart(s, os, trades).1
    case DoReadAccount(id) => ReadAccount(s, id).1
    case DoReadBook(n) => ReadBook(s, n).1
    case DoReadTrades(n) => ReadTrades(s, n).1
    case DoExpire(accounts, books, trades) => Expire(s, accounts, books, trades)
  }

  function Initial(symbols: Symbols): State {
    State(symbols, map[], EmptyBooks(symbols), Db(map[], map[], [], []), map[], Cache(map[], map[], map[]))
  }
}
