/** Runs that show the limits: rounds of one sell and one buy that fills it, and what a restart after
    them takes away. */
module Rounds {
  import opened Domain
  import opened Matching
  import opened Priority
  import opened BookModel
  import opened WalletModel
  import opened Settlement
  import opened Recovery
  import opened Machine
  import opened Invariant
  import opened Executing
  import opened OrderRecords
  import opened Placing
  import opened Restarting
  import opened Runs
  import opened Consequences
  import opened MarketTape
  import opened Arrivals

  const SELLER := "seller"
  const BUYER := "buyer"

  function OrderName(k: nat): (id: string)
    ensures |id| == k
  {
    if k == 0 then "" else "o" + OrderName(k - 1)
  }

  function Sell(k: nat): Command {
    DoPlace(Request(SELLER, BTC_USDT, "sell", 1.0, 1.0), OrderName(2 * k + 1))
  }

  function Buy(k: nat): Command {
    DoPlace(Request(BUYER, BTC_USDT, "buy", 1.0, 1.0), OrderName(2 * k + 2))
  }

  /** Both sides are funded, one unit is offered, and the offer is taken. */
  function Round(k: nat): seq<Command> {
    [DoDeposit(SELLER, "BTC", 1.0), DoDeposit(BUYER, "USDT", 1.0), Sell(k), Buy(k)]
  }

  // ----- between and within rounds

  ghost predicate BooksEmpty(s: State) {
    forall n | n in s.books :: s.books[n].bids == [] == s.books[n].asks
  }

  /** k rounds have left k trades and nothing on the books. */
  ghost predicate Flat(s: State, k: nat) {
    && Good(s) && s.symbols == MARKETS && BooksEmpty(s)
    && |s.db.trades| == k && forall id | id in s.db.orders :: |id| <= 2 * k
  }

  ghost predicate Stocked(s: State, k: nat) {
    && Flat(s, k)
    && Bal(s.wallet, SELLER, "BTC").available >= 1.0 && Bal(s.wallet, BUYER, "USDT").available >= 1.0
  }

  /** The unit is offered. */
  ghost predicate Offered(s: State, k: nat) {
    && Good(s) && s.symbols == MARKETS && BTC_USDT in s.books
    && (forall n | n in s.books :: s.books[n].bids == [] && (n != BTC_USDT ==> s.books[n].asks == []))
    && |s.books[BTC_USDT].asks| == 1
    && s.books[BTC_USDT].asks[0].price == 1.0 && s.books[BTC_USDT].asks[0].remaining == 1.0
    && |s.db.trades| == k && (forall id | id in s.db.orders :: |id| <= 2 * k + 1)
    && Bal(s.wallet, BUYER, "USDT").available >= 1.0
  }

  lemma DepositingKeepsFlat(s: State, k: nat, account: string, asset: string)
    requires Flat(s, k)
    ensures s.books.Keys == s.symbols.Keys
    ensures var s' := Do(s, DoDeposit(account, asset, 1.0));
            && Flat(s', k) && s'.books.Keys == s'.symbols.Keys && s'.books == s.books && s'.db.orders == s.db.orders
            && Bal(s'.wallet, account, asset).available >= 1.0
            && forall a, x :: Bal(s'.wallet, a, x).available >= Bal(s.wallet, a, x).available
  {
    hide Good;
    hide Deposit;
    hide Bal;
    GoodCache(s);
    GoodWellFormed(s);
    var s' := Deposit(s, account, asset, 1.0).1;
    DepositEffect(s, account, asset, 1.0);
    DepositKeepsGood(s, account, asset, 1.0);
    forall a, x
      ensures Bal(s'.wallet, a, x).available >= Bal(s.wallet, a, x).available
    {
      DepositBalance(s, account, asset, 1.0, a, x);
    }
    DepositBalance(s, account, asset, 1.0, account, asset);
    assert Bal(s.wallet, account, asset).available >= 0.0;
  }

  lemma Depositing(s: State, k: nat)
    requires Flat(s, k)
    ensures s.books.Keys == s.symbols.Keys
    ensures var s1 := Do(s, DoDeposit(SELLER, "BTC", 1.0));
            && Good(s1) && s1.books.Keys == s1.symbols.Keys
            && var s2 := Do(s1, DoDeposit(BUYER, "USDT", 1.0));
            Stocked(s2, k) && s2.books == s.books && s2.db.orders == s.db.orders
  {
    hide Good;
    hide Do;
    hide Bal;
    hide BooksEmpty;
    DepositingKeepsFlat(s, k, SELLER, "BTC");
    DepositingKeepsFlat(Do(s, DoDeposit(SELLER, "BTC", 1.0)), k, BUYER, "USDT");
  }

  /** An order that meets nobody rests alone. */
  lemma RestsAlone(s: State, sym: Symbol, o: Order)
    requires Accepted(s, sym, o) && o.symbol in s.books
    requires s.books[o.symbol].bids == [] == s.books[o.symbol].asks
    ensures var e := Executed(s, sym, o);
            && e.trades == [] && Own(e.book, o.side) == [e.taker] && Opposite(e.book, o.side) == []
            && e.taker.remaining == o.quantity && e.taker.price == o.price
  {
    hide Executed;
    hide Good;
    hide ReservedState;
    hide Reserve;
    ExecutionSucceeds(s, sym, o);
    AnswerIsTheMatch(s, sym, o);
    ReservedSide(s, sym, o);
    var e := Executed(s, sym, o);
    assert Insert(o.side, [], e.taker) == [e.taker];
  }

  /** An order that meets exactly its quantity takes it in one trade and leaves nothing. */
  lemma TakesOne(s: State, sym: Symbol, o: Order)
    requires Accepted(s, sym, o) && o.symbol in s.books && o.side == BuySide
    requires var b := s.books[o.symbol];
             b.bids == [] && |b.asks| == 1 && b.asks[0].remaining == o.quantity && b.asks[0].price <= o.price
    ensures var e := Executed(s, sym, o); |e.trades| == 1 && e.book.bids == [] == e.book.asks
  {
    hide Executed;
    hide Good;
    hide ReservedState;
    hide Reserve;
    ExecutionSucceeds(s, sym, o);
    AnswerIsTheMatch(s, sym, o);
    ReservedSide(s, sym, o);
    var e, b := Executed(s, sym, o), s.books[o.symbol];
    var t := Stamped(b, ReservedOrder(s, sym, o));
    assert Match(Reduce(t, o.quantity), b.asks[1..]).fills == [];
    assert |Match(t, b.asks).fills| == 1;
    assert Eligible(t, b.asks) == o.quantity by { assert b.asks[1..] == []; }
    assert e.taker.remaining == 0.0;
    OneMakerLeaves(b, ReservedOrder(s, sym, o), e);
  }

  lemma OneMakerLeaves(b: Book, o: Order, e: Execution)
    requires ExecShape(b, o, e) && o.side == BuySide && |b.asks| == 1 && |e.trades| == 1
    requires e.taker.remaining == 0.0 && SumQuantity(e.trades) == b.asks[0].remaining
    ensures e.book.asks == [] && e.book.bids == b.bids
  {
    assert SumQuantity(e.trades) == e.trades[0].quantity + SumQuantity(e.trades[1..]) && e.trades[1..] == [];
    assert e.makers[0] == e.makers[|e.makers| - 1];
  }

  function SellOrder(k: nat): Order {
    NewOrder(Sell(k).req, SellSide, OrderName(2 * k + 1))
  }

  function BuyOrder(k: nat): Order {
    NewOrder(Buy(k).req, BuySide, OrderName(2 * k + 2))
  }

  lemma SidesRead()
    ensures ParseSide("sell") == Some(SellSide) && ParseSide("buy") == Some(BuySide)
  {
    SideIsReadInAnyCase("sell");
    SideIsReadInAnyCase("buy");
  }

  lemma SellIsAccepted(s: State, k: nat)
    requires Stocked(s, k)
    ensures BTC_USDT in s.books && Allowed(s, Sell(k)) && Accepted(s, MARKETS[BTC_USDT], SellOrder(k))
    ensures Do(s, Sell(k)) == FinalState(s, MARKETS[BTC_USDT], SellOrder(k))
  {
    hide Good;
    hide PlaceOrder;
    hide Bal;
    hide ParseSide;
    hide FinalState;
    MarketNames();
    SidesRead();
    GoodCache(s);
    AcceptedIsPlaced(s, Sell(k).req, OrderName(2 * k + 1));
  }

  lemma OfferedParts(s: State, k: nat)
    requires Offered(s, k)
    ensures Good(s) && s.symbols == MARKETS && forall id | id in s.db.orders :: |id| <= 2 * k + 1
    ensures Bal(s.wallet, BUYER, "USDT").available >= 1.0
  {
    hide Good;
    hide Bal;
  }

  lemma BuyIsValid(w: Accounts, k: nat)
    requires Bal(w, BUYER, "USDT").available >= 1.0
    ensures BTC_USDT in MARKETS && Validate(w, MARKETS[BTC_USDT], BuyOrder(k)).None?
  {
    hide Bal;
    MarketNames();
  }

  lemma BuyIsAccepted(s: State, k: nat)
    requires Offered(s, k)
    ensures s.books.Keys == s.symbols.Keys && Allowed(s, Buy(k)) && Accepted(s, MARKETS[BTC_USDT], BuyOrder(k))
    ensures Do(s, Buy(k)) == FinalState(s, MARKETS[BTC_USDT], BuyOrder(k))
  {
    hide Good;
    hide PlaceOrder;
    hide Validate;
    hide Executed;
    hide ParseSide;
    hide FinalState;
    hide Offered;
    OfferedParts(s, k);
    BuyIsValid(s.wallet, k);
    SidesRead();
    GoodCache(s);
    AcceptedIsPlaced(s, Buy(k).req, OrderName(2 * k + 2));
  }

  /** While nobody bids, nobody's USDT is locked. */
  lemma NothingBid(s: State, a: string)
    requires Good(s) && s.symbols == MARKETS && forall n | n in s.books :: s.books[n].bids == []
    ensures Bal(s.wallet, a, "USDT").locked == 0.0
  {
    hide Good;
    hide Bal;
    MarketNames();
    GoodCache(s);
    LockedOnTwoBooks(s, a, "USDT");
  }

  /** The command records an order under the next number of the BTC book; the others keep theirs. */
  ghost predicate Records(s: State, s': State, id: string) {
    && BTC_USDT in s.books && BTC_USDT in s'.books
    && (forall was | was in s.db.orders ::
          && was in s'.db.orders && s'.db.orders[was].symbol == s.db.orders[was].symbol
          && s'.db.orders[was].sequence == s.db.orders[was].sequence)
    && id in s'.db.orders && s'.db.orders[id].symbol == BTC_USDT
    && s'.db.orders[id].sequence == s'.books[BTC_USDT].seqNo == s.books[BTC_USDT].seqNo + 1
  }

  lemma Selling(s: State, k: nat)
    requires Stocked(s, k)
    ensures s.books.Keys == s.symbols.Keys && Allowed(s, Sell(k)) && Offered(Do(s, Sell(k)), k)
    ensures Records(s, Do(s, Sell(k)), OrderName(2 * k + 1))
  {
    hide Good;
    hide Accepted;
    hide FinalState;
    hide Executed;
    hide Do;
    hide Bal;
    hide Stocked;
    SellIsAccepted(s, k);
    StockedParts(s, k);
    var sym, o, s' := MARKETS[BTC_USDT], SellOrder(k), Do(s, Sell(k));
    RestsAlone(s, sym, o);
    FinalBooksAre(s, sym, o);
    FinalRecordsAre(s, sym, o);
    PlacedArrival(s, sym, o);
    PlacingKeepsGood(s, sym, o);
    FinalBalances(s, sym, o, BUYER, "USDT");
    NothingBid(s, BUYER);
    NothingBid(s', BUYER);
  }

  lemma StockedParts(s: State, k: nat)
    requires Stocked(s, k)
    ensures Flat(s, k) && s.books.Keys == s.symbols.Keys && Bal(s.wallet, BUYER, "USDT").available >= 1.0
  {
    hide Good;
    hide Bal;
    GoodCache(s);
  }

  lemma Buying(s: State, k: nat)
    requires Offered(s, k)
    ensures s.books.Keys == s.symbols.Keys && Allowed(s, Buy(k)) && Flat(Do(s, Buy(k)), k + 1)
    ensures Records(s, Do(s, Buy(k)), OrderName(2 * k + 2))
  {
    hide Good;
    hide Accepted;
    hide FinalState;
    hide Executed;
    hide Do;
    hide Bal;
    BuyIsAccepted(s, k);
    var sym, o, s' := MARKETS[BTC_USDT], BuyOrder(k), Do(s, Buy(k));
    TakesOne(s, sym, o);
    FinalBooksAre(s, sym, o);
    FinalRecordsAre(s, sym, o);
    PlacedArrival(s, sym, o);
    PlacingKeepsGood(s, sym, o);
  }

  lemma {:induction false} RunsJoin(s: State, run: seq<Command>, more: seq<Command>)
    requires Legal(s, run) && Legal(RunAll(s, run), more)
    ensures Legal(s, run + more) && RunAll(s, run + more) == RunAll(RunAll(s, run), more)
    decreases |run|
  {
    hide Do;
    hide Allowed;
    if run == [] {
      assert run + more == more;
    } else {
      assert (run + more)[0] == run[0] && (run + more)[1..] == run[1..] + more;
      RunsJoin(Do(s, run[0]), run[1..], more);
    }
  }

  lemma StepThenRun(s: State, c: Command, run: seq<Command>)
    requires s.books.Keys == s.symbols.Keys && Allowed(s, c) && Legal(Do(s, c), run)
    ensures Legal(s, [c] + run) && RunAll(s, [c] + run) == RunAll(Do(s, c), run)
  {
    hide Do;
    hide Allowed;
    assert ([c] + run)[1..] == run;
  }

  /** A round records two orders under the next two numbers of the BTC book. */
  ghost predicate RoundRecords(s: State, s': State, k: nat) {
    && BTC_USDT in s.books && BTC_USDT in s'.books && s'.books[BTC_USDT].seqNo == s.books[BTC_USDT].seqNo + 2
    && (forall was | was in s.db.orders ::
          && was in s'.db.orders && s'.db.orders[was].symbol == s.db.orders[was].symbol
          && s'.db.orders[was].sequence == s.db.orders[was].sequence)
    && OrderName(2 * k + 1) in s'.db.orders
    && s'.db.orders[OrderName(2 * k + 1)].symbol == BTC_USDT
    && s'.db.orders[OrderName(2 * k + 1)].sequence == s.books[BTC_USDT].seqNo + 1
  }

  lemma FlatParts(s: State, k: nat)
    requires Flat(s, k)
    ensures Good(s) && s.symbols == MARKETS
  {
    hide Good;
  }

  /** One more round, one more trade. */
  lemma RoundKeepsFlat(s: State, k: nat)
    requires Flat(s, k)
    ensures Legal(s, Round(k)) && Flat(RunAll(s, Round(k)), k + 1)
    ensures RoundRecords(s, RunAll(s, Round(k)), k)
  {
    hide Good;
    hide Do;
    hide Stocked;
    hide Offered;
    hide Flat;
    hide OrderName;
    hide Sell;
    hide Buy;
    var c, d := DoDeposit(SELLER, "BTC", 1.0), DoDeposit(BUYER, "USDT", 1.0);
    FlatParts(s, k);
    GoodCache(s);
    Depositing(s, k);
    var s1 := Do(s, c);
    GoodCache(s1);
    var s2 := Do(s1, d);
    Selling(s2, k);
    var s3 := Do(s2, Sell(k));
    Buying(s3, k);
    StepThenRun(s3, Buy(k), []);
    StepThenRun(s2, Sell(k), [Buy(k)] + []);
    StepThenRun(s1, d, [Sell(k)] + ([Buy(k)] + []));
    StepThenRun(s, c, [d] + ([Sell(k)] + ([Buy(k)] + [])));
    assert Round(k) == [c] + ([d] + ([Sell(k)] + ([Buy(k)] + [])));
  }

  function Rounds(k: nat): seq<Command> {
    if k == 0 then [] else Rounds(k - 1) + Round(k - 1)
  }

  /** After k rounds from the start there are k trades on the tape and nothing on the books. */
  lemma {:induction false} RoundsFillTape(k: nat)
    ensures Legal(Initial(MARKETS), Rounds(k)) && Flat(RunAll(Initial(MARKETS), Rounds(k)), k)
  {
    hide Good;
    hide Do;
    hide Round;
    if k == 0 {
      MarketsAreATable();
      InitialIsGood(MARKETS);
    } else {
      RoundsFillTape(k - 1);
      var s := RunAll(Initial(MARKETS), Rounds(k - 1));
      RoundKeepsFlat(s, k - 1);
      RunsJoin(Initial(MARKETS), Rounds(k - 1), Round(k - 1));
    }
  }

  // ----- what a restart takes away

  ghost function RestartOf(s: State): Command {
    DoRestart([], FirstRows(s.db.trades))
  }

  /** With nothing on the books, a restart loads no order and takes every counter back to zero. */
  lemma FlatRestart(s: State, k: nat)
    requires Flat(s, k)
    ensures Legal(s, [RestartOf(s)]) && RunAll(s, [RestartOf(s)]) == Do(s, RestartOf(s))
    ensures var s' := Do(s, RestartOf(s));
            && Flat(s', k) && s'.db.orders == s.db.orders && s'.db.trades == s.db.trades
            && forall n | n in s'.books :: s'.books[n].seqNo == 0
  {
    hide Good;
    hide Restart;
    NothingOpen(s, k);
    GoodCache(s);
    var trades := FirstRows(s.db.trades);
    RestartIsInvisible(s, [], trades);
    RestartKeepsGood(s, [], trades);
    var s' := Restart(s, [], trades).1;
    forall n | n in s'.books
      ensures s'.books[n].seqNo == 0
    {
      CounterSurvivesIff(s, [], trades, n);
    }
    assert [RestartOf(s)][1..] == [];
  }

  lemma NothingOpen(s: State, k: nat)
    requires Flat(s, k)
    ensures OpenOrders(s.db, [])
  {
    hide Good;
    GoodTable(s);
  }

  /** A reachable state whose restart cuts the tape: after more rounds than a reload reads rows, the
      market data no longer shows every trade. */
  lemma RestartCanCutTape(k: nat)
    requires k > RELOAD_LIMIT
    ensures Legal(Initial(MARKETS), Rounds(k))
    ensures var s := RunAll(Initial(MARKETS), Rounds(k));
            && Legal(s, [RestartOf(s)])
            && |s.db.trades| == k && !ShowsTape(RunAll(s, [RestartOf(s)]))
  {
    hide Good;
    hide Restart;
    hide Rounds;
    hide RunAll;
    hide Legal;
    RoundsFillTape(k);
    var s := RunAll(Initial(MARKETS), Rounds(k));
    FlatRestart(s, k);
    NothingOpen(s, k);
    RestartShowsTapeIff(s, []);
  }

  /** A reachable state in which a restart takes a counter back: one sell and the buy that fills it have
      taken the first two numbers, and nothing is left resting. */
  lemma CounterCanDrop()
    ensures Legal(Initial(MARKETS), Rounds(1))
    ensures var s := RunAll(Initial(MARKETS), Rounds(1));
            && Legal(s, [RestartOf(s)]) && BTC_USDT in s.books && s.books[BTC_USDT].seqNo == 2
            && var s' := RunAll(s, [RestartOf(s)]); BTC_USDT in s'.books && s'.books[BTC_USDT].seqNo == 0
  {
    hide Good;
    hide Do;
    hide Round;
    hide Flat;
    FirstRound();
    FlatRestart(RunAll(Initial(MARKETS), Rounds(1)), 1);
    var s := RunAll(Initial(MARKETS), Rounds(1));
    FlatParts(RunAll(s, [RestartOf(s)]), 1);
    GoodCache(RunAll(s, [RestartOf(s)]));
    MarketNames();
  }

  lemma FirstRound()
    ensures Legal(Initial(MARKETS), Rounds(1)) && Flat(RunAll(Initial(MARKETS), Rounds(1)), 1)
    ensures var s := RunAll(Initial(MARKETS), Rounds(1));
            && BTC_USDT in s.books && s.books[BTC_USDT].seqNo == 2
            && OrderName(1) in s.db.orders && s.db.orders[OrderName(1)].symbol == BTC_USDT
            && s.db.orders[OrderName(1)].sequence == 1
  {
    hide Good;
    hide Do;
    hide Round;
    hide OrderName;
    RoundsFillTape(0);
    MarketNames();
    RoundKeepsFlat(Initial(MARKETS), 0);
    assert Rounds(1) == Round(0);
  }

  /** A reachable state in which two orders of a symbol carry the same arrival number: after that restart
      the next sell takes the first sell's number again. */
  lemma ArrivalsCanRepeat() returns (run: seq<Command>)
    ensures Legal(Initial(MARKETS), run)
    ensures var orders := RunAll(Initial(MARKETS), run).db.orders;
            && OrderName(1) in orders && OrderName(3) in orders && OrderName(1) != OrderName(3)
            && orders[OrderName(1)].symbol == BTC_USDT == orders[OrderName(3)].symbol
            && orders[OrderName(1)].sequence == 1 == orders[OrderName(3)].sequence
  {
    hide Good;
    hide Do;
    hide Round;
    hide Flat;
    hide OrderName;
    hide Legal;
    hide RunAll;
    hide Rounds;
    FirstRound();
    var s := RunAll(Initial(MARKETS), Rounds(1));
    FlatRestart(s, 1);
    var s' := RunAll(s, [RestartOf(s)]);
    RoundKeepsFlat(s', 1);
    RunsJoin(s, [RestartOf(s)], Round(1));
    RunsJoin(Initial(MARKETS), Rounds(1), [RestartOf(s)] + Round(1));
    run := Rounds(1) + ([RestartOf(s)] + Round(1));
    assert |OrderName(1)| == 1 && |OrderName(3)| == 3;
  }
}
