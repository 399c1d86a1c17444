/** What the market data shows of the trade tape, across orders and restarts. */
module MarketTape {
  import opened Domain
  import opened Matching
  import opened Recovery
  import opened WalletModel
  import opened Machine
  import opened Invariant
  import opened Executing
  import opened OrderRecords
  import opened Placing
  import opened Restarting
  import opened Runs
  import Consequences

  /** The market data shows every trade ever made. */
  ghost predicate ShowsTape(s: State) {
    s.market == Filed(s.db.trades, map[])
  }

  /** Filing the trades of one symbol is recording them. */
  lemma {:induction false} FiledIsRecorded(trades: seq<Trade>, market: map<string, seq<Trade>>, n: string)
    requires forall i | 0 <= i < |trades| :: trades[i].symbol == n
    ensures Filed(trades, market) == Record(market, n, trades)
    decreases |trades|
  {
    if trades != [] {
      var market' := market[n := MarketTrades(market, n) + [trades[0]]];
      FiledIsRecorded(trades[1..], market', n);
      var was := MarketTrades(market, n);
      assert (was + [trades[0]]) + trades[1..] == was + trades;
      assert trades[1..] == [] ==> trades == [trades[0]];
    }
  }

  lemma {:induction false} FiledConcat(s: seq<Trade>, t: seq<Trade>, market: map<string, seq<Trade>>)
    ensures Filed(s + t, market) == Filed(t, Filed(s, market))
    decreases |s|
  {
    if s == [] {
      assert s + t == t;
    } else {
      assert (s + t)[0] == s[0] && (s + t)[1..] == s[1..] + t;
      FiledConcat(s[1..], t, market[s[0].symbol := MarketTrades(market, s[0].symbol) + [s[0]]]);
    }
  }

  /** The trades of one symbol, in their order. */
  function OfSymbol(trades: seq<Trade>, n: string): seq<Trade> {
    if trades == [] then [] else (if trades[0].symbol == n then [trades[0]] else []) + OfSymbol(trades[1..], n)
  }

  lemma {:induction false} FiledBySymbol(trades: seq<Trade>, market: map<string, seq<Trade>>, n: string)
    ensures MarketTrades(Filed(trades, market), n) == MarketTrades(market, n) + OfSymbol(trades, n)
    decreases |trades|
  {
    if trades != [] {
      FiledBySymbol(trades[1..], market[trades[0].symbol := MarketTrades(market, trades[0].symbol) + [trades[0]]], n);
    }
  }

  /** A restart keeps showing the whole tape exactly when the tape fits what a reload reads. */
  lemma RestartShowsTapeIff(s: State, os: seq<Order>)
    requires Good(s) && OpenOrders(s.db, os)
    ensures var s' := Restart(s, os, FirstRows(s.db.trades)).1;
            s'.db.trades == s.db.trades && (ShowsTape(s') <==> |s.db.trades| <= RELOAD_LIMIT)
  {
    hide Good;
    hide OpenOrders;
    hide Restart;
    hide Filed;
    hide RestoreAll;
    hide Reconciled;
    var trades := s.db.trades;
    RestartSteps(s, os, FirstRows(trades));
    if |trades| > RELOAD_LIMIT {
      var n, read, left := trades[RELOAD_LIMIT].symbol, trades[..RELOAD_LIMIT], trades[RELOAD_LIMIT..];
      assert trades == read + left;
      FiledConcat(read, left, map[]);
      FiledBySymbol(left, Filed(read, map[]), n);
      assert |OfSymbol(left, n)| == 1 + |OfSymbol(left[1..], n)|;
    }
  }

  /** Every other command keeps what the market data shows in step with the tape. */
  lemma CommandsShowTape(s: State, c: Command)
    requires Good(s) && Allowed(s, c) && ShowsTape(s)
    requires c.DoRestart? ==> |s.db.trades| <= RELOAD_LIMIT
    ensures s.books.Keys == s.symbols.Keys && ShowsTape(Do(s, c))
  {
    hide Good;
    hide PlaceOrder;
    hide OpenOrders;
    hide Restart;
    hide Filed;
    hide PersistAccount;
    GoodCache(s);
    match c {
      case DoPlace(req, id) => PlacingShowsTape(s, req, id);
      case DoRestart(os, trades) => RestartShowsTapeIff(s, os);
      case _ =>
    }
  }

  lemma PlacingShowsTape(s: State, req: Request, id: string)
    requires Good(s) && ShowsTape(s) && id !in s.db.orders
    ensures s.books.Keys == s.symbols.Keys && ShowsTape(Do(s, DoPlace(req, id)))
  {
    hide Good;
    hide Filed;
    hide Do;
    GoodCache(s);
    PlacingShows(s, req, id, s.db.trades);
  }

  /** Placing an order adds its trades to the tape and to whatever the market data shows. */
  lemma PlacingShows(s: State, req: Request, id: string, seen: seq<Trade>)
    requires Good(s) && s.market == Filed(seen, map[]) && id !in s.db.orders
    ensures s.books.Keys == s.symbols.Keys
    ensures var s' := Do(s, DoPlace(req, id));
            && s.db.trades <= s'.db.trades
            && s'.market == Filed(seen + s'.db.trades[|s.db.trades|..], map[])
            && s.db.trades + s'.db.trades[|s.db.trades|..] == s'.db.trades
  {
    hide Good;
    hide Filed;
    hide Validate;
    hide ParseSide;
    hide Reserve;
    hide SyncAccount;
    hide Execute;
    hide NoConflict;
    hide Booked;
    hide FinalState;
    hide Executed;
    hide Accepted;
    hide Record;
    GoodCache(s);
    assert seen + [] == seen && s.db.trades[|s.db.trades|..] == [] && s.db.trades + [] == s.db.trades;
    if req.symbol in s.symbols && ParseSide(req.side).Some? {
      var o, sym := NewOrder(req, ParseSide(req.side).value, id), s.symbols[req.symbol];
      if Validate(s.wallet, sym, o).None? {
        AcceptedIsPlaced(s, req, id);
        FinalRecordsAre(s, sym, o);
        FinalMarketIs(s, sym, o);
        var trades := Executed(s, sym, o).trades;
        TradesOfSymbol(s, sym, o);
        assert (s.db.trades + trades)[|s.db.trades|..] == trades;
        FiledConcat(seen, trades, map[]);
        FiledIsRecorded(trades, s.market, o.symbol);
      }
    }
  }

  lemma TradesOfSymbol(s: State, sym: Symbol, o: Order)
    requires Accepted(s, sym, o)
    ensures o.symbol in s.books
    ensures forall i | 0 <= i < |Executed(s, sym, o).trades| :: Executed(s, sym, o).trades[i].symbol == o.symbol
  {
    hide Executed;
    hide Good;
    hide Validate;
    hide RestShape;
    hide BookOk;
    GoodParts(s);
    ExecutionSucceeds(s, sym, o);
    ReservedSide(s, sym, o);
  }

  /** Every restart of the run happens while the tape still fits what a reload reads. */
  ghost predicate RestartsFit(s: State, run: seq<Command>)
    requires Legal(s, run)
    decreases |run|
  {
    run == [] ||
    ((run[0].DoRestart? ==> |s.db.trades| <= RELOAD_LIMIT) && RestartsFit(Do(s, run[0]), run[1..]))
  }

  lemma {:induction false} RunsShowTape(s: State, run: seq<Command>)
    requires Good(s) && ShowsTape(s) && Legal(s, run) && RestartsFit(s, run)
    ensures ShowsTape(RunAll(s, run))
    decreases |run|
  {
    hide Good;
    hide Do;
    hide ShowsTape;
    hide Allowed;
    if run != [] {
      CommandsShowTape(s, run[0]);
      StepKeepsGood(s, run[0]);
      RunsShowTape(Do(s, run[0]), run[1..]);
    }
  }

  /** A trade list read, cached or not, answers exactly the symbol's trades on the tape, in order. */
  lemma TradesReadShowTheTape(run: seq<Command>, n: string)
    requires Legal(Initial(MARKETS), run) && RestartsFit(Initial(MARKETS), run)
             && n in RunAll(Initial(MARKETS), run).symbols
    ensures var s := RunAll(Initial(MARKETS), run); ReadTrades(s, n).0 == Some(OfSymbol(s.db.trades, n))
  {
    hide Good;
    hide Legal;
    hide RunAll;
    hide RestartsFit;
    hide ReadTrades;
    var s := RunAll(Initial(MARKETS), run);
    MarketsAreATable();
    InitialIsGood(MARKETS);
    RunsShowTape(Initial(MARKETS), run);
    ReachableIsGood(run);
    TradesReadIsUncached(s, n);
    FiledBySymbol(s.db.trades, map[], n);
    assert MarketTrades(map[], n) + OfSymbol(s.db.trades, n) == OfSymbol(s.db.trades, n);
  }

  // ----- what is shown over any run, restarts included

  /** What a tape has gained. */
  function Gained(tape: seq<Trade>, tape': seq<Trade>): seq<Trade> {
    if |tape| <= |tape'| then tape'[|tape|..] else []
  }

  /** The trades a run leaves on show: a restart starts again from the first 1000 of the tape, and every
      trade made since is added. */
  ghost function OnShow(s: State, run: seq<Command>, seen: seq<Trade>): seq<Trade>
    requires Legal(s, run)
    decreases |run|
  {
    if run == [] then seen
    else
      var tape := s.db.trades;
      OnShow(Do(s, run[0]), run[1..],
             if run[0].DoRestart? then if |tape| <= 1000 then tape else tape[..1000]
             else seen + Gained(tape, Do(s, run[0]).db.trades))
  }

  /** After a restart from a good state a trade list read answers the symbol's trades among the first 1000
      of the tape, in order. */
  lemma RestartShowsFirstTrades(s: State, os: seq<Order>, trades: seq<Trade>, n: string)
    requires Good(s) && Allowed(s, DoRestart(os, trades)) && n in s.symbols
    ensures var tape := s.db.trades;
            ReadTrades(Restart(s, os, trades).1, n).0 ==
            Some(OfSymbol(if |tape| <= 1000 then tape else tape[..1000], n))
  {
    hide Good;
    hide OpenOrders;
    hide Restart;
    hide ReadTrades;
    var s' := Restart(s, os, trades).1;
    RestartShows(s, os, trades);
    RestartKeepsGood(s, os, trades);
    TradesReadIsUncached(s', n);
    ReadOfFiled(s'.market, if |s.db.trades| <= 1000 then s.db.trades else s.db.trades[..1000], n);
  }

  lemma RestartShows(s: State, os: seq<Order>, trades: seq<Trade>)
    requires Good(s) && Allowed(s, DoRestart(os, trades))
    ensures var tape, s' := s.db.trades, Restart(s, os, trades).1;
            && s'.symbols == s.symbols && s'.db.trades == tape
            && s'.market == Filed(if |tape| <= 1000 then tape else tape[..1000], map[])
  {
    hide Good;
    hide OpenOrders;
    hide Restart;
    hide Filed;
    hide RestoreAll;
    hide Reconciled;
    RestartSteps(s, os, trades);
  }

  lemma ReadOfFiled(market: map<string, seq<Trade>>, seen: seq<Trade>, n: string)
    requires market == Filed(seen, map[])
    ensures MarketTrades(market, n) == OfSymbol(seen, n)
  {
    hide Filed;
    FiledBySymbol(seen, map[], n);
    assert MarketTrades(map[], n) + OfSymbol(seen, n) == OfSymbol(seen, n);
  }

  lemma OtherStepsShow(s: State, c: Command)
    requires Good(s) && Allowed(s, c) && !c.DoPlace? && !c.DoRestart?
    ensures s.books.Keys == s.symbols.Keys
    ensures Do(s, c).market == s.market && Do(s, c).db.trades == s.db.trades
  {
    hide Good;
    hide PersistAccount;
    GoodCache(s);
  }

  lemma {:induction false} RunsShow(s: State, run: seq<Command>, seen: seq<Trade>)
    requires Good(s) && Legal(s, run) && s.market == Filed(seen, map[])
    ensures RunAll(s, run).market == Filed(OnShow(s, run, seen), map[])
    decreases |run|
  {
    hide Good;
    hide Do;
    hide Filed;
    hide OpenOrders;
    if run != [] {
      var c, s' := run[0], Do(s, run[0]);
      StepKeepsGood(s, c);
      assert seen + [] == seen && Gained(s.db.trades, s.db.trades) == [];
      match c {
        case DoPlace(req, id) =>
          PlacingShows(s, req, id, seen);
        case DoRestart(os, trades) =>
          RestartShows(s, os, trades);
          assert s' == Restart(s, os, trades).1 by { DoRestarts(s, os, trades); }
        case _ =>
          OtherStepsShow(s, c);
      }
      var tape := s.db.trades;
      RunsShow(s', run[1..], if c.DoRestart? then if |tape| <= 1000 then tape else tape[..1000]
               else seen + Gained(tape, s'.db.trades));
    }
  }

  lemma DoRestarts(s: State, os: seq<Order>, trades: seq<Trade>)
    requires s.books.Keys == s.symbols.Keys
    ensures Do(s, DoRestart(os, trades)) == Restart(s, os, trades).1
  {
    hide Restart;
  }

  /** Over every run, however often it restarts and however long its tape, a trade list read answers exactly
      the symbol's trades on show, in order. */
  lemma TradesReadAfterRestarts(run: seq<Command>, n: string)
    requires Legal(Initial(MARKETS), run) && n in MARKETS
    ensures ReadTrades(RunAll(Initial(MARKETS), run), n).0 == Some(OfSymbol(OnShow(Initial(MARKETS), run, []), n))
  {
    hide Good;
    hide Legal;
    hide RunAll;
    hide OnShow;
    hide ReadTrades;
    var s := RunAll(Initial(MARKETS), run);
    MarketsAreATable();
    InitialIsGood(MARKETS);
    RunsShow(Initial(MARKETS), run, []);
    ReachableIsGood(run);
    Consequences.RunKeepsSymbols(Initial(MARKETS), run);
    TradesReadIsUncached(s, n);
    ReadOfFiled(s.market, OnShow(Initial(MARKETS), run, []), n);
  }
}
