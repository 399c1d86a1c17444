/** What the exchange promises its users: no order or restart creates or destroys an asset, an
    incoming order pays and receives exactly its trades, priority is honoured, and what is locked
    is what stands on the books. */
module Consequences {
  import opened Domain
  import opened Matching
  import opened Priority
  import opened BookModel
  import opened WalletModel
  import opened Settlement
  import opened Recovery
  import opened Money
  import opened Machine
  import opened Invariant
  import opened Executing
  import opened Syncing
  import opened OrderRecords
  import opened Placing
  import opened Restarting
  import opened Runs

  // ----- sums over accounts

  ghost function SumOver(ids: set<string>, f: string -> real): real {
    if ids == {} then 0.0
    else
      var a :| a in ids;
      f(a) + SumOver(ids - {a}, f)
  }

  lemma {:induction false} SumOverPick(ids: set<string>, f: string -> real, a: string)
    requires a in ids
    ensures SumOver(ids, f) == f(a) + SumOver(ids - {a}, f)
    decreases |ids|
  {
    var b :| b in ids && SumOver(ids, f) == f(b) + SumOver(ids - {b}, f);
    if b != a {
      SumOverPick(ids - {b}, f, a);
      SumOverPick(ids - {a}, f, b);
      assert ids - {a} - {b} == ids - {b} - {a};
    }
  }

  lemma {:induction false} SumOverAdd(ids: set<string>, f: string -> real, g: string -> real, h: string -> real)
    requires forall a | a in ids :: h(a) == f(a) + g(a)
    ensures SumOver(ids, h) == SumOver(ids, f) + SumOver(ids, g)
    decreases |ids|
  {
    if ids != {} {
      var a :| a in ids;
      SumOverPick(ids, f, a);
      SumOverPick(ids, g, a);
      SumOverPick(ids, h, a);
      SumOverAdd(ids - {a}, f, g, h);
    }
  }

  lemma {:induction false} SumOverZero(ids: set<string>, f: string -> real)
    requires forall a | a in ids :: f(a) == 0.0
    ensures SumOver(ids, f) == 0.0
    decreases |ids|
  {
    if ids != {} {
      var a :| a in ids;
      SumOverPick(ids, f, a);
      SumOverZero(ids - {a}, f);
    }
  }

  /** Only the accounts where f is not zero matter. */
  lemma {:induction false} SumOverSupport(ids: set<string>, more: set<string>, f: string -> real)
    requires forall a | a in more :: a !in ids ==> f(a) == 0.0
    ensures SumOver(ids + more, f) == SumOver(ids, f)
    decreases |more|
  {
    if more == {} {
      assert ids + more == ids;
    } else {
      var a :| a in more;
      SumOverSupport(ids, more - {a}, f);
      if a in ids {
        assert ids + more == ids + (more - {a});
      } else {
        SumOverPick(ids + more, f, a);
        assert ids + more - {a} == ids + (more - {a});
      }
    }
  }

  // ----- conservation

  ghost function Holding(w: Accounts, x: string): string -> real {
    a => Total(Bal(w, a, x))
  }

  /** All there is of an asset, over all accounts, available and locked. */
  ghost function AssetTotal(w: Accounts, x: string): real {
    SumOver(w.Keys, Holding(w, x))
  }

  lemma AssetTotalOver(w: Accounts, x: string, ids: set<string>)
    requires w.Keys <= ids
    ensures AssetTotal(w, x) == SumOver(ids, Holding(w, x))
  {
    SumOverSupport(w.Keys, ids, Holding(w, x));
    assert w.Keys + ids == ids;
  }

  /** When every account's holding changes by f, the total changes by the sum of f. */
  lemma AssetTotalChanges(w: Accounts, w': Accounts, x: string, ids: set<string>, f: string -> real)
    requires w.Keys <= ids && w'.Keys <= ids
    requires forall a | a in ids :: Total(Bal(w', a, x)) == Total(Bal(w, a, x)) + f(a)
    ensures AssetTotal(w', x) == AssetTotal(w, x) + SumOver(ids, f)
  {
    hide Bal;
    AssetTotalOver(w, x, ids);
    AssetTotalOver(w', x, ids);
    SumOverAdd(ids, Holding(w, x), f, Holding(w', x));
  }

  ghost function TradeFlow(sym: Symbol, tr: Trade, side: Side, x: string): string -> real {
    a => Flow(sym, tr, side, a, x)
  }

  ghost function TradesFlow(sym: Symbol, trades: seq<Trade>, side: Side, x: string): string -> real {
    a => SumFlow(sym, trades, side, a, x)
  }

  /** One trade only moves assets between its two accounts. */
  lemma TradeConserves(sym: Symbol, tr: Trade, side: Side, x: string, ids: set<string>)
    requires tr.makerAccount in ids && tr.takerAccount in ids
    ensures SumOver(ids, TradeFlow(sym, tr, side, x)) == 0.0
  {
    hide Notional;
    var f, m, t := TradeFlow(sym, tr, side, x), tr.makerAccount, tr.takerAccount;
    SumOverPick(ids, f, m);
    if m == t {
      SumOverZero(ids - {m}, f);
    } else {
      SumOverPick(ids - {m}, f, t);
      SumOverZero(ids - {m} - {t}, f);
    }
  }

  function Parties(trades: seq<Trade>): set<string> {
    if trades == [] then {} else {trades[0].makerAccount, trades[0].takerAccount} + Parties(trades[1..])
  }

  lemma {:induction false} TradesConserve(sym: Symbol, trades: seq<Trade>, side: Side, x: string, ids: set<string>)
    requires Parties(trades) <= ids
    ensures SumOver(ids, TradesFlow(sym, trades, side, x)) == 0.0
  {
    hide Flow;
    var f := TradesFlow(sym, trades, side, x);
    if trades == [] {
      SumOverZero(ids, f);
    } else {
      TradeConserves(sym, trades[0], side, x, ids);
      TradesConserve(sym, trades[1..], side, x, ids);
      SumOverAdd(ids, TradeFlow(sym, trades[0], side, x), TradesFlow(sym, trades[1..], side, x), f);
    }
  }

  /** An accepted order leaves the total of every asset as it was. */
  lemma PlacingConserves(s: State, sym: Symbol, o: Order, x: string)
    requires Accepted(s, sym, o)
    ensures o.symbol in s.books && AssetTotal(FinalState(s, sym, o).wallet, x) == AssetTotal(s.wallet, x)
  {
    hide Accepted;
    hide FinalState;
    hide Executed;
    hide Bal;
    hide TotalHeld;
    hide SumOver;
    FinalWellFormed(s, sym, o);
    var s', trades := FinalState(s, sym, o), Executed(s, sym, o).trades;
    var ids := s.wallet.Keys + s'.wallet.Keys + Parties(trades);
    forall a | a in ids
      ensures Total(Bal(s'.wallet, a, x)) == Total(Bal(s.wallet, a, x)) + TradesFlow(sym, trades, o.side, x)(a)
    {
      FinalBalances(s, sym, o, a, x);
    }
    AssetTotalChanges(s.wallet, s'.wallet, x, ids, TradesFlow(sym, trades, o.side, x));
    TradesConserve(sym, trades, o.side, x, ids);
  }

  /** A deposit adds exactly its amount to the total of its asset and nothing to any other. */
  lemma DepositAdds(s: State, account: string, asset: string, amount: real, x: string)
    requires Good(s) && amount > 0.0
    ensures AssetTotal(Deposit(s, account, asset, amount).1.wallet, x) ==
            AssetTotal(s.wallet, x) + if x == asset then amount else 0.0
  {
    hide Good;
    hide Deposit;
    hide Bal;
    hide SumOver;
    var s' := Deposit(s, account, asset, amount).1;
    var ids := s.wallet.Keys + s'.wallet.Keys + {account};
    var f: string -> real := a => if a == account && x == asset then amount else 0.0;
    forall a | a in ids
      ensures Total(Bal(s'.wallet, a, x)) == Total(Bal(s.wallet, a, x)) + f(a)
    {
      DepositBalance(s, account, asset, amount, a, x);
    }
    AssetTotalChanges(s.wallet, s'.wallet, x, ids, f);
    SumOverPick(ids, f, account);
    SumOverZero(ids - {account}, f);
  }

  lemma SameBalancesSameTotal(w: Accounts, w': Accounts, x: string)
    requires forall a :: Bal(w', a, x) == Bal(w, a, x)
    ensures AssetTotal(w', x) == AssetTotal(w, x)
  {
    hide Bal;
    hide SumOver;
    var ids, f: string -> real := w.Keys + w'.Keys, a => 0.0;
    AssetTotalChanges(w, w', x, ids, f);
    SumOverZero(ids, f);
  }

  /** What one command brings in of an asset. */
  function BroughtIn(c: Command, x: string): real {
    if c.DoDeposit? && c.asset == x && c.amount > 0.0 then c.amount else 0.0
  }

  function AllBroughtIn(run: seq<Command>, x: string): real {
    if run == [] then 0.0 else BroughtIn(run[0], x) + AllBroughtIn(run[1..], x)
  }

  lemma PlaceCommandConserves(s: State, req: Request, id: string, x: string)
    requires Good(s) && id !in s.db.orders
    ensures s.books.Keys == s.symbols.Keys
    ensures AssetTotal(Do(s, DoPlace(req, id)).wallet, x) == AssetTotal(s.wallet, x)
  {
    hide Good;
    hide Validate;
    hide ParseSide;
    hide FinalState;
    hide Accepted;
    hide AssetTotal;
    hide Reserve;
    hide SyncAccount;
    hide Execute;
    hide NoConflict;
    hide Booked;
    GoodCache(s);
    if req.symbol in s.symbols && ParseSide(req.side).Some? {
      var o := NewOrder(req, ParseSide(req.side).value, id);
      if Validate(s.wallet, s.symbols[req.symbol], o).None? {
        AcceptedIsPlaced(s, req, id);
        PlacingConserves(s, s.symbols[req.symbol], o, x);
      }
    }
  }

  lemma StepConserves(s: State, c: Command, x: string)
    requires Good(s) && Allowed(s, c)
    ensures s.books.Keys == s.symbols.Keys
    ensures AssetTotal(Do(s, c).wallet, x) == AssetTotal(s.wallet, x) + BroughtIn(c, x)
  {
    hide Good;
    hide PlaceOrder;
    hide OpenOrders;
    hide AssetTotal;
    hide Restart;
    hide Bal;
    GoodCache(s);
    match c {
      case DoDeposit(account, asset, amount) =>
        if amount > 0.0 {
          DepositAdds(s, account, asset, amount, x);
        }
      case DoPlace(req, id) =>
        PlaceCommandConserves(s, req, id, x);
      case DoRestart(os, trades) =>
        RestartIsInvisible(s, os, trades);
        SameBalancesSameTotal(s.wallet, Restart(s, os, trades).1.wallet, x);
      case _ =>
    }
  }

  /** Over any run, the total of an asset grows by exactly what was deposited of it. */
  lemma {:induction false} RunConserves(s: State, run: seq<Command>, x: string)
    requires Good(s) && Legal(s, run)
    ensures AssetTotal(RunAll(s, run).wallet, x) == AssetTotal(s.wallet, x) + AllBroughtIn(run, x)
    decreases |run|
  {
    hide Good;
    hide Do;
    hide AssetTotal;
    hide BroughtIn;
    if run != [] {
      StepKeepsGood(s, run[0]);
      StepConserves(s, run[0], x);
      RunConserves(Do(s, run[0]), run[1..], x);
    }
  }

  /** From the start, there is of each asset exactly what was deposited. */
  lemma NothingFromNothing(run: seq<Command>, x: string)
    requires Legal(Initial(MARKETS), run)
    ensures AssetTotal(RunAll(Initial(MARKETS), run).wallet, x) == AllBroughtIn(run, x)
  {
    hide Good;
    hide Legal;
    hide RunAll;
    MarketsAreATable();
    InitialIsGood(MARKETS);
    RunConserves(Initial(MARKETS), run, x);
    assert AssetTotal(map[], x) == 0.0;
  }

  // ----- what an incoming order pays and receives

  /** The notional of the trades made with other accounts. */
  function NotionalWithOthers(trades: seq<Trade>, account: string): real {
    if trades == [] then 0.0
    else (if trades[0].makerAccount == account then 0.0 else Notional(trades[0].price, trades[0].quantity))
         + NotionalWithOthers(trades[1..], account)
  }

  /** The quantity of the trades made with other accounts. */
  function QuantityWithOthers(trades: seq<Trade>, account: string): real {
    if trades == [] then 0.0
    else
      (if trades[0].makerAccount == account then 0.0 else trades[0].quantity)
      + QuantityWithOthers(trades[1..], account)
  }

  lemma {:induction false} TakerFlow(sym: Symbol, trades: seq<Trade>, side: Side, a: string)
    requires sym.base != sym.quote && forall i | 0 <= i < |trades| :: trades[i].takerAccount == a
    ensures SumFlow(sym, trades, side, a, sym.quote) ==
            if side == BuySide then -NotionalWithOthers(trades, a) else NotionalWithOthers(trades, a)
    ensures SumFlow(sym, trades, side, a, sym.base) ==
            if side == BuySide then QuantityWithOthers(trades, a) else -QuantityWithOthers(trades, a)
  {
    hide Notional;
    if trades != [] {
      TakerFlow(sym, trades[1..], side, a);
    }
  }

  lemma {:induction false} TradedWithinLimit(trades: seq<Trade>, side: Side, limit: real)
    requires forall i | 0 <= i < |trades| ::
               && trades[i].quantity >= 0.0
               && (if side == BuySide then trades[i].price <= limit else trades[i].price >= limit)
    ensures if side == BuySide then SumNotional(trades) <= Notional(limit, SumQuantity(trades))
            else SumNotional(trades) >= Notional(limit, SumQuantity(trades))
  {
    hide Notional;
    NotionalSplits(limit, 0.0, 0.0);
    if trades != [] {
      TradedWithinLimit(trades[1..], side, limit);
      NotionalSplits(limit, trades[0].quantity, SumQuantity(trades[1..]));
      NotionalMonotone(trades[0].price, limit, trades[0].quantity);
      NotionalMonotone(limit, trades[0].price, trades[0].quantity);
    }
  }

  lemma {:induction false} NoOwnTrades(trades: seq<Trade>, a: string)
    requires forall i | 0 <= i < |trades| :: trades[i].makerAccount != a
    ensures NotionalWithOthers(trades, a) == SumNotional(trades) && QuantityWithOthers(trades, a) == SumQuantity(trades)
  {
    hide Notional;
    if trades != [] {
      NoOwnTrades(trades[1..], a);
    }
  }

  /** Orders of one side hold nothing of the other side's asset. */
  lemma {:induction false} HoldsOwnAssetOnly(sym: Symbol, os: seq<Order>, side: Side, a: string)
    requires sym.base != sym.quote && forall p | p in os :: p.side == OtherSide(side)
    ensures SumHeld(sym, os, a, LockAsset(sym, side)) == 0.0
  {
    if os != [] {
      HoldsOwnAssetOnly(sym, os[1..], side, a);
    }
  }

  lemma SideOf(b: Book, n: string, side: Side)
    requires BookOk(b, n)
    ensures forall p | p in Opposite(b, side) :: p.side == OtherSide(side)
  {
    hide Ordered;
    hide Uncrossed;
    hide Live;
  }

  /** In the asset the order locks, its account's locked balance grows by the cost of the
      unfilled remainder. */
  lemma RemainderIsLocked(s: State, sym: Symbol, o: Order)
    requires Accepted(s, sym, o)
    ensures o.symbol in s.books
    ensures var s', e, x := FinalState(s, sym, o), Executed(s, sym, o), LockAsset(sym, o.side);
            Bal(s'.wallet, o.account, x).locked == Bal(s.wallet, o.account, x).locked + LockFor(o, e.taker.remaining)
  {
    hide FinalState;
    hide Executed;
    hide Good;
    hide Validate;
    hide Bal;
    hide BookOk;
    hide Insert;
    hide SumHeld;
    hide MakersShape;
    hide RestShape;
    hide Notional;
    hide BooksHeld;
    GoodParts(s);
    FinalBooksAre(s, sym, o);
    ExecutionSucceeds(s, sym, o);
    ReservedSide(s, sym, o);
    var a, x, s', e := o.account, LockAsset(sym, o.side), FinalState(s, sym, o), Executed(s, sym, o);
    var b := s.books[o.symbol];
    FinalBalances(s, sym, o, a, x);
    BooksHeldUpdate(s.symbols, s.books, o.symbol, e.book, a, x);
    SideOf(b, o.symbol, o.side);
    SideOf(e.book, o.symbol, o.side);
    HoldsOwnAssetOnly(sym, Opposite(b, o.side), o.side, a);
    HoldsOwnAssetOnly(sym, Opposite(e.book, o.side), o.side, a);
    SumHeldInsert(sym, o.side, Own(b, o.side), e.taker, a, x);
    NotionalSplits(o.price, 0.0, 0.0);
    LockedBefore(s, a, x);
    assert BookHeld(sym, e.book, a, x) == BookHeld(sym, b, a, x) + LockFor(o, e.taker.remaining);
  }

  lemma LockedBefore(s: State, a: string, x: string)
    requires Good(s)
    ensures s.books.Keys == s.symbols.Keys && Bal(s.wallet, a, x).locked == TotalHeld(s, a, x)
  {
    hide Bal;
    hide BooksHeld;
  }

  /** The trades of an order: its own account takes, at prices within its limit. */
  lemma TradesOfOrder(s: State, sym: Symbol, o: Order)
    requires Accepted(s, sym, o)
    ensures o.symbol in s.books
    ensures var e := Executed(s, sym, o);
            && (forall i | 0 <= i < |e.trades| ::
                  && e.trades[i].takerAccount == o.account && e.trades[i].quantity > 0.0
                  && if o.side == BuySide then e.trades[i].price <= o.price else e.trades[i].price >= o.price)
            && e.taker.remaining == o.quantity - SumQuantity(e.trades)
  {
    hide Executed;
    hide Good;
    hide Validate;
    hide RestShape;
    hide BookOk;
    GoodParts(s);
    ExecutionSucceeds(s, sym, o);
    ReservedSide(s, sym, o);
  }

  /** An incoming buy gives up exactly what its trades with others cost, at most its limit times
      what it filled; only the limit times the unfilled remainder stays locked for it, and all
      else that it had reserved is available again. */
  lemma BuyerPaysItsTrades(s: State, sym: Symbol, o: Order)
    requires Accepted(s, sym, o) && o.side == BuySide
    ensures o.symbol in s.books
    ensures var s', e, a, x := FinalState(s, sym, o), Executed(s, sym, o), o.account, sym.quote;
            var filled := o.quantity - e.taker.remaining;
            && filled == SumQuantity(e.trades)
            && Bal(s'.wallet, a, x).locked == Bal(s.wallet, a, x).locked + Notional(o.price, e.taker.remaining)
            && Bal(s'.wallet, a, x).available ==
               Bal(s.wallet, a, x).available - Notional(o.price, e.taker.remaining) - NotionalWithOthers(e.trades, a)
            && SumNotional(e.trades) <= Notional(o.price, filled)
            && ((forall i | 0 <= i < |e.trades| :: e.trades[i].makerAccount != a) ==>
                  NotionalWithOthers(e.trades, a) == SumNotional(e.trades))
            && Total(Bal(s'.wallet, a, sym.base)) == Total(Bal(s.wallet, a, sym.base)) + QuantityWithOthers(e.trades, a)
  {
    hide FinalState;
    hide Executed;
    hide Good;
    hide Validate;
    hide Bal;
    hide Notional;
    hide SumQuantity;
    hide SumNotional;
    hide NotionalWithOthers;
    hide QuantityWithOthers;
    GoodParts(s);
    OrderPaysItsTrades(s, sym, o);
  }

  /** An incoming sell gives up exactly what it traded with others and receives exactly what they
      pay, at least its limit times what it filled; its unfilled remainder stays locked. */
  lemma SellerIsPaidItsTrades(s: State, sym: Symbol, o: Order)
    requires Accepted(s, sym, o) && o.side == SellSide
    ensures o.symbol in s.books
    ensures var s', e, a, x := FinalState(s, sym, o), Executed(s, sym, o), o.account, sym.base;
            var filled := o.quantity - e.taker.remaining;
            && filled == SumQuantity(e.trades)
            && Bal(s'.wallet, a, x).locked == Bal(s.wallet, a, x).locked + e.taker.remaining
            && Bal(s'.wallet, a, x).available ==
               Bal(s.wallet, a, x).available - e.taker.remaining - QuantityWithOthers(e.trades, a)
            && SumNotional(e.trades) >= Notional(o.price, filled)
            && Total(Bal(s'.wallet, a, sym.quote)) ==
               Total(Bal(s.wallet, a, sym.quote)) + NotionalWithOthers(e.trades, a)
  {
    hide FinalState;
    hide Executed;
    hide Good;
    hide Validate;
    hide Bal;
    hide Notional;
    hide SumQuantity;
    hide SumNotional;
    hide NotionalWithOthers;
    hide QuantityWithOthers;
    GoodParts(s);
    OrderPaysItsTrades(s, sym, o);
  }

  lemma OrderPaysItsTrades(s: State, sym: Symbol, o: Order)
    requires Accepted(s, sym, o)
    ensures o.symbol in s.books
    ensures var s', e, a, x := FinalState(s, sym, o), Executed(s, sym, o), o.account, LockAsset(sym, o.side);
            var trades := e.trades;
            && o.quantity - e.taker.remaining == SumQuantity(trades)
            && Bal(s'.wallet, a, x).locked == Bal(s.wallet, a, x).locked + LockFor(o, e.taker.remaining)
            && var (paid, got) := (NotionalWithOthers(trades, a), QuantityWithOthers(trades, a));
            && Total(Bal(s'.wallet, a, sym.quote)) ==
               Total(Bal(s.wallet, a, sym.quote)) + (if o.side == BuySide then -paid else paid)
            && Total(Bal(s'.wallet, a, sym.base)) ==
               Total(Bal(s.wallet, a, sym.base)) + (if o.side == BuySide then got else -got)
            && (if o.side == BuySide then SumNotional(trades) <= Notional(o.price, SumQuantity(trades))
                else SumNotional(trades) >= Notional(o.price, SumQuantity(trades)))
            && ((forall i | 0 <= i < |trades| :: trades[i].makerAccount != a) ==>
                  NotionalWithOthers(trades, a) == SumNotional(trades))
  {
    hide FinalState;
    hide Executed;
    hide Good;
    hide Validate;
    hide Bal;
    hide TotalHeld;
    hide SumFlow;
    hide Notional;
    GoodParts(s);
    var e := Executed(s, sym, o);
    RemainderIsLocked(s, sym, o);
    TradesOfOrder(s, sym, o);
    FinalBalances(s, sym, o, o.account, sym.quote);
    FinalBalances(s, sym, o, o.account, sym.base);
    TakerFlow(sym, e.trades, o.side, o.account);
    TradedWithinLimit(e.trades, o.side, o.price);
    if forall i | 0 <= i < |e.trades| :: e.trades[i].makerAccount != o.account {
      NoOwnTrades(e.trades, o.account);
    }
  }

  lemma OrderedIsBestFirst(b: Book, t: Order)
    requires Ordered(b)
    ensures BestPriceFirst(t, Opposite(b, t.side))
  {
    hide DistinctSequences;
    OrderedBySides(b, t.side);
    forall i, j | 0 <= i < j < |Opposite(b, t.side)|
      ensures Before(OtherSide(t.side), Opposite(b, t.side)[i], Opposite(b, t.side)[j])
    {
    }
  }

  /** The answer to an accepted order: the order as requested with the next arrival number, filled for
      the lesser of its quantity and what was on offer within its limit, by the trades of the match. */
  lemma AnswerIsTheMatch(s: State, sym: Symbol, o: Order)
    requires Accepted(s, sym, o)
    ensures o.symbol in s.books
    ensures var b, e := s.books[o.symbol], Executed(s, sym, o);
            var t := Stamped(b, ReservedOrder(s, sym, o));
            && SameIdentity(o, e.taker) && e.taker.sequence == b.seqNo + 1
            && e.trades == Trades(Match(t, Opposite(b, o.side)).fills)
            && o.quantity - e.taker.remaining == SumQuantity(e.trades) ==
               Min(o.quantity, Eligible(t, Opposite(b, o.side)))
  {
    hide Good;
    hide Validate;
    hide Match;
    hide Execute;
    hide ReservedState;
    hide ReservedOrder;
    hide MakersShape;
    hide RestShape;
    hide Eligible;
    hide Ordered;
    GoodParts(s);
    ExecutionSucceeds(s, sym, o);
    ExecuteSubmits(ReservedState(s, sym, o).wallet, sym, s.books[o.symbol], ReservedOrder(s, sym, o));
    ReservedSide(s, sym, o);
    GoodBook(s, o.symbol);
    var b, t := s.books[o.symbol], Stamped(s.books[o.symbol], ReservedOrder(s, sym, o));
    OrderedIsBestFirst(b, t);
    OppositeIsPositive(b, o.symbol, o.side);
    FilledQuantity(t, Opposite(b, o.side));
  }

  lemma OppositeIsPositive(b: Book, n: string, side: Side)
    requires BookOk(b, n)
    ensures PositiveRemaining(Opposite(b, side))
  {
    hide Ordered;
    hide Uncrossed;
    hide LockAmount;
    forall i | 0 <= i < |Opposite(b, side)|
      ensures Opposite(b, side)[i].remaining > 0.0
    {
      assert Resting(Opposite(b, side)[i], OtherSide(side), n);
    }
  }

  // ----- priority

  lemma EarlierInOrder(side: Side, os: seq<Order>, i: nat, j: nat)
    requires Sorted(side, os) && i < |os| && j < |os| && Before(side, os[i], os[j])
    ensures i < j
  {
  }

  /** Of two resting orders the one with the better price, or the earlier one at the same price,
      is exhausted before the other trades at all. */
  lemma PriorityIsHonoured(b: Book, o: Order, i: nat, j: nat)
    requires Ordered(b) && PositiveRemaining(Opposite(b, o.side)) && o.quantity >= 0.0
    requires i < |Opposite(b, o.side)| && j < |Opposite(b, o.side)|
    requires Before(OtherSide(o.side), Opposite(b, o.side)[i], Opposite(b, o.side)[j])
    ensures var fills := Match(Stamped(b, o), Opposite(b, o.side)).fills;
            j < |fills| ==> i < |fills| && fills[i].maker.id == Opposite(b, o.side)[i].id
                            && fills[i].trade.quantity == Opposite(b, o.side)[i].remaining
                            && fills[i].maker.remaining == 0.0
  {
    hide Match;
    hide Sorted;
    hide Ordered;
    hide Before;
    OrderedBySides(b, o.side);
    EarlierInOrder(OtherSide(o.side), Opposite(b, o.side), i, j);
    MatchHasShape(Stamped(b, o), Opposite(b, o.side));
  }

  // ----- what an accepted order gets of its book

  /** The order as it meets its book. */
  function Incoming(s: State, sym: Symbol, o: Order): Order
    requires o.symbol in s.books
  {
    Stamped(s.books[o.symbol], ReservedOrder(s, sym, o))
  }

  lemma AcceptedMeetsBook(s: State, sym: Symbol, o: Order)
    requires Accepted(s, sym, o)
    ensures o.symbol in s.books
    ensures var b, t := s.books[o.symbol], Incoming(s, sym, o);
            && t.side == o.side && t.remaining == o.quantity == ReservedOrder(s, sym, o).quantity > 0.0
            && ReservedOrder(s, sym, o).side == o.side
            && Ordered(b) && PositiveRemaining(Opposite(b, o.side)) && BestPriceFirst(t, Opposite(b, o.side))
            && Executed(s, sym, o).trades == Trades(Match(t, Opposite(b, o.side)).fills)
  {
    hide Good;
    hide Match;
    hide Executed;
    hide BookOk;
    hide Ordered;
    hide Bal;
    hide Reserve;
    GoodParts(s);
    AnswerIsTheMatch(s, sym, o);
    ReservedSide(s, sym, o);
    GoodBook(s, o.symbol);
    OrderedIsBestFirst(s.books[o.symbol], Incoming(s, sym, o));
    OppositeIsPositive(s.books[o.symbol], o.symbol, o.side);
  }

  /** No allocation over the resting orders within the limit that respects the quantity takes more than
      the order got, and none that takes as much is cheaper for a buyer or brings a seller more. */
  lemma AcceptedIsBestExecution(s: State, sym: Symbol, o: Order, x: seq<real>)
    requires Accepted(s, sym, o) && o.symbol in s.books
    requires Allocation(Incoming(s, sym, o), Opposite(s.books[o.symbol], o.side), x)
    ensures var e, makers := Executed(s, sym, o), Opposite(s.books[o.symbol], o.side);
            && |x| == |makers|
            && (SumOf(x) <= o.quantity ==> SumOf(x) <= SumQuantity(e.trades))
            && (SumOf(x) == SumQuantity(e.trades) ==>
                  if o.side == BuySide then SumNotional(e.trades) <= Cost(makers, x)
                  else SumNotional(e.trades) >= Cost(makers, x))
  {
    hide Accepted;
    hide Match;
    hide Executed;
    hide Incoming;
    hide Cost;
    hide SumOf;
    hide SumNotional;
    hide SumQuantity;
    AcceptedMeetsBook(s, sym, o);
    GreedyIsOptimal(Incoming(s, sym, o), Opposite(s.books[o.symbol], o.side), x);
  }

  /** Of two resting orders the accepted order meets, the better priced, or the earlier at the same price,
      trades its whole remainder before the other trades at all. */
  lemma AcceptedHonoursPriority(s: State, sym: Symbol, o: Order, i: nat, j: nat)
    requires Accepted(s, sym, o) && o.symbol in s.books
    requires i < |Opposite(s.books[o.symbol], o.side)| && j < |Opposite(s.books[o.symbol], o.side)|
    requires Before(OtherSide(o.side), Opposite(s.books[o.symbol], o.side)[i], Opposite(s.books[o.symbol], o.side)[j])
    ensures var trades, makers := Executed(s, sym, o).trades, Opposite(s.books[o.symbol], o.side);
            j < |trades| ==>
              i < |trades| && trades[i].makerOrder == makers[i].id && trades[i].quantity == makers[i].remaining
  {
    hide Accepted;
    hide Executed;
    hide ReservedOrder;
    hide Before;
    hide Match;
    hide Ordered;
    AcceptedMeetsBook(s, sym, o);
    PriorityIsHonoured(s.books[o.symbol], ReservedOrder(s, sym, o), i, j);
    MatchHasShape(Incoming(s, sym, o), Opposite(s.books[o.symbol], o.side));
  }

  // ----- the books of a reachable state

  lemma {:induction false} RunKeepsSymbols(s: State, run: seq<Command>)
    requires Legal(s, run)
    ensures RunAll(s, run).symbols == s.symbols
    decreases |run|
  {
    hide Do;
    if run != [] {
      DoKeepsSymbols(s, run[0]);
      RunKeepsSymbols(Do(s, run[0]), run[1..]);
    }
  }

  lemma DoKeepsSymbols(s: State, c: Command)
    requires s.books.Keys == s.symbols.Keys
    ensures Do(s, c).symbols == s.symbols
  {
    hide Execute;
    hide Reserve;
    hide Rebuild;
    hide RestoreAll;
    hide NoConflict;
    hide PersistAccount;
    hide Validate;
    hide ParseSide;
    hide PersistAll;
    hide Bumped;
    hide Warmed;
    hide Filed;
    hide Reconciled;
    hide Record;
    hide TradeEvents;
    hide OrdersById;
  }

  /** What an account's bids cost to fill at their own prices. */
  function OpenCost(bids: seq<Order>, account: string): real {
    if bids == [] then 0.0
    else
      (if bids[0].account == account then Notional(bids[0].price, bids[0].remaining) else 0.0)
      + OpenCost(bids[1..], account)
  }

  /** What an account's asks have left to sell. */
  function OpenQuantity(asks: seq<Order>, account: string): real {
    if asks == [] then 0.0
    else (if asks[0].account == account then asks[0].remaining else 0.0) + OpenQuantity(asks[1..], account)
  }

  lemma {:induction false} HeldByBids(sym: Symbol, bids: seq<Order>, a: string, x: string)
    requires sym.base != sym.quote && forall p | p in bids :: p.side == BuySide
    ensures SumHeld(sym, bids, a, x) == if x == sym.quote then OpenCost(bids, a) else 0.0
  {
    hide Notional;
    if bids != [] {
      HeldByBids(sym, bids[1..], a, x);
    }
  }

  lemma {:induction false} HeldByAsks(sym: Symbol, asks: seq<Order>, a: string, x: string)
    requires sym.base != sym.quote && forall p | p in asks :: p.side == SellSide
    ensures SumHeld(sym, asks, a, x) == if x == sym.base then OpenQuantity(asks, a) else 0.0
  {
    if asks != [] {
      HeldByAsks(sym, asks[1..], a, x);
    }
  }

  lemma HeldByBook(sym: Symbol, b: Book, n: string, a: string, x: string)
    requires sym.base != sym.quote && BookOk(b, n)
    ensures BookHeld(sym, b, a, x) == (if x == sym.quote then OpenCost(b.bids, a) else 0.0)
                                      + (if x == sym.base then OpenQuantity(b.asks, a) else 0.0)
  {
    hide BookOk;
    SideOf(b, n, SellSide);
    SideOf(b, n, BuySide);
    HeldByBids(sym, b.bids, a, x);
    HeldByAsks(sym, b.asks, a, x);
  }

  const BTC_USDT := "BTC-USDT"
  const ETH_USDT := "ETH-USDT"

  lemma MarketNames()
    ensures BTC_USDT != ETH_USDT && MARKETS.Keys == {BTC_USDT, ETH_USDT}
    ensures MARKETS[BTC_USDT] == Symbol(BTC_USDT, "BTC", "USDT") && MARKETS[ETH_USDT] == Symbol(ETH_USDT, "ETH", "USDT")
    ensures "BTC" != "USDT" && "ETH" != "USDT" && "BTC" != "ETH"
  {
    assert BTC_USDT[0] != ETH_USDT[0];
    assert "BTC"[0] != "USDT"[0] && "ETH"[0] != "USDT"[0] && "BTC"[0] != "ETH"[0];
  }

  /** In every reachable state, what an account has locked is what its orders on the books still
      need: the cost of its bids on both books in USDT, and its asks' remainders in BTC and ETH. */
  lemma LockedIsOnTheBooks(run: seq<Command>, a: string)
    requires Legal(Initial(MARKETS), run)
    ensures var s := RunAll(Initial(MARKETS), run);
            && s.books.Keys == {BTC_USDT, ETH_USDT}
            && Bal(s.wallet, a, "USDT").locked ==
               OpenCost(s.books[BTC_USDT].bids, a) + OpenCost(s.books[ETH_USDT].bids, a)
            && Bal(s.wallet, a, "BTC").locked == OpenQuantity(s.books[BTC_USDT].asks, a)
            && Bal(s.wallet, a, "ETH").locked == OpenQuantity(s.books[ETH_USDT].asks, a)
  {
    hide Good;
    hide Legal;
    hide RunAll;
    hide Bal;
    var s := RunAll(Initial(MARKETS), run);
    ReachableIsGood(run);
    RunKeepsSymbols(Initial(MARKETS), run);
    MarketNames();
    GoodCache(s);
    LockedOnTwoBooks(s, a, "USDT");
    LockedOnTwoBooks(s, a, "BTC");
    LockedOnTwoBooks(s, a, "ETH");
  }

  lemma LockedOnTwoBooks(s: State, a: string, x: string)
    requires Good(s) && s.symbols == MARKETS
    ensures s.books.Keys == {BTC_USDT, ETH_USDT}
    ensures Bal(s.wallet, a, x).locked ==
            (if x == "USDT" then OpenCost(s.books[BTC_USDT].bids, a) + OpenCost(s.books[ETH_USDT].bids, a) else 0.0)
            + (if x == "BTC" then OpenQuantity(s.books[BTC_USDT].asks, a) else 0.0)
            + (if x == "ETH" then OpenQuantity(s.books[ETH_USDT].asks, a) else 0.0)
  {
    hide Good;
    hide Bal;
    hide BookHeld;
    MarketNames();
    LockedBefore(s, a, x);
    GoodBook(s, BTC_USDT);
    GoodBook(s, ETH_USDT);
    BooksHeldPick(s.symbols, s.books, s.symbols.Keys, BTC_USDT, a, x);
    BooksHeldPick(s.symbols, s.books, s.symbols.Keys - {BTC_USDT}, ETH_USDT, a, x);
    assert s.symbols.Keys - {BTC_USDT} - {ETH_USDT} == {};
    HeldByBook(MARKETS[BTC_USDT], s.books[BTC_USDT], BTC_USDT, a, x);
    HeldByBook(MARKETS[ETH_USDT], s.books[ETH_USDT], ETH_USDT, a, x);
  }

  // ----- the records of a reachable state

  /** Every balance is the account's deposits plus the flows of the trades on the tape. */
  lemma BalancesReplayTheLedger(run: seq<Command>, a: string, x: string)
    requires Legal(Initial(MARKETS), run)
    ensures var s := RunAll(Initial(MARKETS), run);
            Bal(s.wallet, a, x).available + Bal(s.wallet, a, x).locked ==
            Deposited(s.db.audit, a, x) + Replayed(s.symbols, s.db.orders, s.db.trades, a, x)
  {
    hide Good;
    hide Legal;
    hide RunAll;
    hide Bal;
    hide Replayed;
    hide Deposited;
    ReachableIsGood(run);
    GoodParts(RunAll(Initial(MARKETS), run));
  }

  /** Every order ever accepted: its quantity is what remains plus what it traded, its status says
      which, and it is open in the store exactly while it rests on its book, field for field. */
  lemma OrdersMatchTheTape(run: seq<Command>, id: string)
    requires Legal(Initial(MARKETS), run) && id in RunAll(Initial(MARKETS), run).db.orders
    ensures var s := RunAll(Initial(MARKETS), run);
            var o := s.db.orders[id];
            && o.id == id && o.symbol in s.books
            && o.quantity == o.remaining + TradedQuantity(s.db.trades, id) && o.remaining >= 0.0
            && (o.status == Filled <==> o.remaining == 0.0)
            && (o.status == PartiallyFilled <==> 0.0 < o.remaining < o.quantity)
            && (o.status == Open <==> o.remaining == o.quantity)
            && (o.status != Filled <==> InBook(s.books[o.symbol], o))
            && o.reserved == (if o.side == BuySide then Notional(o.price, o.remaining) else o.remaining)
  {
    hide Good;
    hide Legal;
    hide RunAll;
    hide TradedQuantity;
    hide BookOk;
    hide Notional;
    hide TradeRecorded;
    var s := RunAll(Initial(MARKETS), run);
    ReachableIsGood(run);
    GoodParts(s);
    var o := s.db.orders[id];
    assert OrderAccounted(o, TradedQuantity(s.db.trades, id));
    assert TradedQuantity(s.db.trades, id) >= 0.0 by {
      TapeIsPositive(s);
      TradedNonNegative(s.db.trades, id);
    }
    if InBook(s.books[o.symbol], o) {
      GoodBook(s, o.symbol);
      RestingIsUnfilled(s.books[o.symbol], o.symbol, o);
    }
  }

  lemma TapeIsPositive(s: State)
    requires Accounted(s)
    ensures forall i | 0 <= i < |s.db.trades| :: s.db.trades[i].quantity >= 0.0
  {
    hide OrderAccounted;
    forall i | 0 <= i < |s.db.trades|
      ensures s.db.trades[i].quantity >= 0.0
    {
      assert TradeRecorded(s.symbols, s.db.orders, s.db.trades[i]);
    }
  }

  lemma {:induction false} TradedNonNegative(trades: seq<Trade>, id: string)
    requires forall i | 0 <= i < |trades| :: trades[i].quantity >= 0.0
    ensures TradedQuantity(trades, id) >= 0.0
  {
    if trades != [] {
      TradedNonNegative(trades[1..], id);
    }
  }

  lemma RestingIsUnfilled(b: Book, n: string, o: Order)
    requires BookOk(b, n) && InBook(b, o)
    ensures o.remaining > 0.0 && o.status != Filled
  {
    hide Ordered;
    hide Uncrossed;
    hide LockAmount;
  }

  /** Every trade is between two recorded orders on opposite sides of its symbol, at the maker's
      price and within both limits. */
  lemma TradesHonourBothLimits(run: seq<Command>, i: nat)
    requires Legal(Initial(MARKETS), run) && i < |RunAll(Initial(MARKETS), run).db.trades|
    ensures var s := RunAll(Initial(MARKETS), run);
            var tr := s.db.trades[i];
            && tr.quantity > 0.0 && tr.makerOrder in s.db.orders && tr.takerOrder in s.db.orders
            && var maker, taker := s.db.orders[tr.makerOrder], s.db.orders[tr.takerOrder];
            && maker.symbol == taker.symbol == tr.symbol && maker.side != taker.side
            && maker.account == tr.makerAccount && taker.account == tr.takerAccount
            && tr.price == maker.price
            && (if taker.side == BuySide then tr.price <= taker.price else tr.price >= taker.price)
  {
    hide Good;
    hide Legal;
    hide RunAll;
    hide OrderAccounted;
    var s := RunAll(Initial(MARKETS), run);
    ReachableIsGood(run);
    GoodParts(s);
    assert TradeRecorded(s.symbols, s.db.orders, s.db.trades[i]);
  }

  /** Every book is in price-time order without ties, its arrival numbers are distinct and bounded
      by its counter, and its best bid is below its best ask. */
  lemma BooksStayOrdered(run: seq<Command>, n: string)
    requires Legal(Initial(MARKETS), run) && n in RunAll(Initial(MARKETS), run).symbols
    ensures var s := RunAll(Initial(MARKETS), run);
            && n in s.books
            && var b := s.books[n];
            && (forall i, j | 0 <= i < j < |b.bids| ::
                  b.bids[i].price > b.bids[j].price
                  || (b.bids[i].price == b.bids[j].price && b.bids[i].sequence < b.bids[j].sequence))
            && (forall i, j | 0 <= i < j < |b.asks| ::
                  b.asks[i].price < b.asks[j].price
                  || (b.asks[i].price == b.asks[j].price && b.asks[i].sequence < b.asks[j].sequence))
            && (forall i, j | 0 <= i < |b.bids| && 0 <= j < |b.asks| ::
                  b.bids[i].price < b.asks[j].price && b.bids[i].sequence != b.asks[j].sequence)
            && (forall o | InBook(b, o) :: o.remaining > 0.0 && o.symbol == n && o.sequence <= b.seqNo)
  {
    hide Good;
    hide Legal;
    hide RunAll;
    var s := RunAll(Initial(MARKETS), run);
    ReachableIsGood(run);
    GoodBook(s, n);
    OrderSpelledOut(s.books[n], n);
  }

  lemma OrderSpelledOut(b: Book, n: string)
    requires BookOk(b, n)
    ensures forall i, j | 0 <= i < j < |b.bids| ::
              b.bids[i].price > b.bids[j].price
              || (b.bids[i].price == b.bids[j].price && b.bids[i].sequence < b.bids[j].sequence)
    ensures forall i, j | 0 <= i < j < |b.asks| ::
              b.asks[i].price < b.asks[j].price
              || (b.asks[i].price == b.asks[j].price && b.asks[i].sequence < b.asks[j].sequence)
    ensures forall i, j | 0 <= i < |b.bids| && 0 <= j < |b.asks| ::
              b.bids[i].price < b.asks[j].price && b.bids[i].sequence != b.asks[j].sequence
    ensures forall o | InBook(b, o) :: o.remaining > 0.0 && o.symbol == n && o.sequence <= b.seqNo
  {
    hide LockAmount;
  }

  /** The wallet is the stored accounts, versions included, and no stored account lacks a balance
      row, so a reload misses none. */
  lemma WalletIsStored(run: seq<Command>)
    requires Legal(Initial(MARKETS), run)
    ensures var s := RunAll(Initial(MARKETS), run);
            s.wallet == s.db.accounts && LoadAccounts(s.db.accounts) == s.wallet
  {
    hide Good;
    hide Legal;
    hide RunAll;
    var s := RunAll(Initial(MARKETS), run);
    ReachableIsGood(run);
    GoodWellFormed(s);
    LoadsEverything(s.db.accounts);
  }
}
