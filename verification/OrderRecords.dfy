/** What an accepted order does to the order table, the trade tape and the ledger. */
module OrderRecords {
  import opened Domain
  import opened Matching
  import opened Priority
  import opened BookModel
  import opened WalletModel
  import opened Settlement
  import opened Recovery
  import opened Money
  import opened Machine
  import opened Invariant
  import opened Executing

  /** A prefix of the side fulfilled, each for its trade, and all but the last exhausted. */
  ghost predicate MakersShape(t0: Order, side: seq<Order>, makers: seq<Order>, trades: seq<Trade>) {
    && |makers| == |trades| <= |side|
    && (forall i | 0 <= i < |makers| ::
          && 0.0 < trades[i].quantity <= side[i].remaining && Crosses(t0, side[i])
          && trades[i] == TradeOf(t0, side[i], trades[i].quantity)
          && makers[i] == Fulfilled(side[i], trades[i].quantity))
    && (forall i | 0 <= i < |makers| - 1 :: makers[i].remaining == 0.0)
  }

  /** The records an execution leaves: the makers' and the taker's, on both sides of the book. */
  ghost predicate ExecShape(b: Book, o: Order, e: Execution) {
    var t0, side := Stamped(b, o), Opposite(b, o.side);
    && MakersShape(t0, side, e.makers, e.trades)
    && e.taker == Fulfilled(t0, SumQuantity(e.trades)) && 0.0 <= e.taker.remaining <= o.quantity
    && RestShape(side, e.makers, Opposite(e.book, o.side))
    && Own(e.book, o.side) ==
       if e.taker.remaining > 0.0 then Insert(o.side, Own(b, o.side), e.taker) else Own(b, o.side)
  }

  lemma MakersHaveShape(t0: Order, side: seq<Order>, fills: seq<Fill>, r: Run)
    requires FillsArePrefix(t0, side, fills) && RunShape(t0, side, r) && r.trades == Trades(fills)
    ensures MakersShape(t0, side, r.makers, r.trades)
  {
    hide LockFor;
    hide StatusOf;
  }

  lemma ExecuteShape(w: Accounts, sym: Symbol, b: Book, o: Order)
    requires Ready(w, sym, b, o)
    ensures ExecShape(b, o, Execute(w, sym, b, o))
  {
    hide Match;
    hide Sound;
    hide OnePhase;
    hide Execute;
    hide Insert;
    hide BookOk;
    hide Bal;
    hide LockFor;
    hide RestShape;
    hide MakersShape;
    hide FillsArePrefix;
    var t0, side := Stamped(b, o), Opposite(b, o.side);
    ExecuteIsRun(w, sym, b, o);
    ReadyIsSound(w, sym, b, o);
    TwoPhaseIsOnePhase(w, sym, t0, side);
    SideIsPositive(w, sym, t0, side);
    MatchHasShape(t0, side);
    RunSucceeds(w, sym, t0, side);
    RunRest(w, sym, t0, side);
    TakerAfter(w, sym, b, o);
    MakersHaveShape(t0, side, Match(t0, side).fills, TheRun(w, sym, b, o));
  }

  // ----- looking orders up

  ghost predicate DistinctIds(os: seq<Order>) {
    forall i, j | 0 <= i < j < |os| :: os[i].id != os[j].id
  }

  lemma {:induction false} OrdersByIdLookup(os: seq<Order>)
    requires DistinctIds(os)
    ensures forall i | 0 <= i < |os| :: os[i].id in OrdersById(os) && OrdersById(os)[os[i].id] == os[i]
    ensures forall id | id in OrdersById(os) :: exists i | 0 <= i < |os| :: os[i].id == id
  {
    if os != [] {
      var n := |os| - 1;
      OrdersByIdLookup(os[..n]);
      forall i | 0 <= i < |os|
        ensures os[i].id in OrdersById(os) && OrdersById(os)[os[i].id] == os[i]
      {
        if i < n {
          assert os[..n][i] == os[i] && os[i].id != os[n].id;
        }
      }
      forall id | id in OrdersById(os)
        ensures exists i | 0 <= i < |os| :: os[i].id == id
      {
        if id != os[n].id {
          var i :| 0 <= i < n && os[..n][i].id == id;
          assert os[i].id == id;
        }
      }
    }
  }

  /** The records of one book, in front of an order that is about to be executed against it. */
  ghost predicate Known(orders: map<string, Order>, b: Book, n: string) {
    && BookOk(b, n)
    && forall o | InBook(b, o) :: o.id in orders && orders[o.id] == o
  }

  lemma SideIdsDistinct(orders: map<string, Order>, b: Book, n: string, side: Side)
    requires Known(orders, b, n)
    ensures DistinctIds(Opposite(b, side))
  {
    hide Sorted;
    OrderedBySides(b, side);
    var s := Opposite(b, side);
    forall i, j | 0 <= i < j < |s|
      ensures s[i].id != s[j].id
    {
      assert InBook(b, s[i]) && InBook(b, s[j]);
    }
  }

  lemma MakerIds(orders: map<string, Order>, b: Book, n: string, o: Order, e: Execution)
    requires Known(orders, b, n) && ExecShape(b, o, e)
    ensures DistinctIds(e.makers) && |e.makers| == |e.trades| <= |Opposite(b, o.side)|
    ensures forall i | 0 <= i < |e.makers| :: e.makers[i].id == Opposite(b, o.side)[i].id
    ensures forall i | 0 <= i < |e.makers| :: InBook(b, Opposite(b, o.side)[i])
  {
    hide BookOk;
    SideIdsDistinct(orders, b, n, o.side);
  }

  function After(orders: map<string, Order>, e: Execution): map<string, Order> {
    orders[e.taker.id := e.taker] + OrdersById(e.makers)
  }

  /** The order table after an execution, entry by entry. */
  lemma AfterLookup(orders: map<string, Order>, b: Book, n: string, o: Order, e: Execution)
    requires Known(orders, b, n) && ExecShape(b, o, e) && o.id !in orders
    ensures var orders' := After(orders, e);
            && o.id in orders' && orders'[o.id] == e.taker
            && (forall i | 0 <= i < |e.makers| :: e.makers[i].id in orders' && orders'[e.makers[i].id] == e.makers[i])
            && (forall id | id in orders' :: id in orders || id == o.id)
            && (forall id | id in orders ::
                  && id in orders' && id != o.id
                  && (orders'[id] == orders[id] ||
                      exists i | 0 <= i < |e.makers| :: e.makers[i].id == id && orders'[id] == e.makers[i]))
  {
    hide BookOk;
    hide After;
    MakerIds(orders, b, n, o, e);
    forall i | 0 <= i < |e.makers|
      ensures e.makers[i].id in orders
    {
      assert InBook(b, Opposite(b, o.side)[i]);
    }
    AfterEntries(orders, e);
  }

  lemma AfterEntries(orders: map<string, Order>, e: Execution)
    requires DistinctIds(e.makers) && e.taker.id !in orders
    requires forall i | 0 <= i < |e.makers| :: e.makers[i].id in orders
    ensures var orders' := After(orders, e);
            && e.taker.id in orders' && orders'[e.taker.id] == e.taker
            && (forall i | 0 <= i < |e.makers| :: e.makers[i].id in orders' && orders'[e.makers[i].id] == e.makers[i])
            && (forall id | id in orders' :: id in orders || id == e.taker.id)
            && (forall id | id in orders ::
                  && id in orders' && id != e.taker.id
                  && (orders'[id] == orders[id] ||
                      exists i | 0 <= i < |e.makers| :: e.makers[i].id == id && orders'[id] == e.makers[i]))
  {
    hide OrdersById;
    hide DistinctIds;
    OrdersByIdLookup(e.makers);
    var orders' := After(orders, e);
    forall id | id in orders
      ensures id in orders' && id != e.taker.id
      ensures orders'[id] == orders[id] ||
              exists i | 0 <= i < |e.makers| :: e.makers[i].id == id && orders'[id] == e.makers[i]
    {
      if id in OrdersById(e.makers) {
        var i :| 0 <= i < |e.makers| && e.makers[i].id == id;
        assert orders'[id] == e.makers[i];
      }
    }
  }

  /** Nothing about an order changes but its progress. */
  ghost predicate SameIdentity(o: Order, p: Order) {
    && o.id == p.id && o.account == p.account && o.symbol == p.symbol && o.side == p.side
    && o.price == p.price && o.quantity == p.quantity
  }

  lemma AfterIdentity(orders: map<string, Order>, b: Book, n: string, o: Order, e: Execution)
    requires Known(orders, b, n) && ExecShape(b, o, e) && o.id !in orders
    ensures forall id | id in orders :: id in After(orders, e) && SameIdentity(orders[id], After(orders, e)[id])
  {
    hide BookOk;
    hide After;
    AfterLookup(orders, b, n, o, e);
    MakerIds(orders, b, n, o, e);
    var orders' := After(orders, e);
    forall id | id in orders
      ensures id in orders' && SameIdentity(orders[id], orders'[id])
    {
      if orders'[id] != orders[id] {
        var i :| 0 <= i < |e.makers| && e.makers[i].id == id && orders'[id] == e.makers[i];
        assert InBook(b, Opposite(b, o.side)[i]);
      }
    }
  }

  // ----- the store's open orders are the resting ones

  lemma RestKeeps(side: seq<Order>, makers: seq<Order>, rest: seq<Order>, j: nat)
    requires RestShape(side, makers, rest) && |makers| <= j < |side|
    ensures side[j] in rest
  {
    assert side[|makers|..][j - |makers|] == side[j];
  }

  lemma RestKeepsLast(side: seq<Order>, makers: seq<Order>, rest: seq<Order>)
    requires RestShape(side, makers, rest) && makers != [] && makers[|makers| - 1].remaining != 0.0
    ensures makers[|makers| - 1] in rest
  {
  }

  lemma RestIsFrom(side: seq<Order>, makers: seq<Order>, rest: seq<Order>, p: Order)
    requires RestShape(side, makers, rest) && p in rest
    ensures (makers != [] && p == makers[|makers| - 1]) || exists j | |makers| <= j < |side| :: side[j] == p
  {
    if p in side[|makers|..] {
      var k :| 0 <= k < |side[|makers|..]| && side[|makers|..][k] == p;
      assert side[|makers| + k] == p;
    }
  }

  /** An order of this book that is no maker of the execution keeps its record and its place. */
  lemma UntouchedStays(orders: map<string, Order>, b: Book, n: string, o: Order, e: Execution, p: Order)
    requires Known(orders, b, n) && ExecShape(b, o, e) && o.id !in orders
    requires InBook(b, p) && forall i | 0 <= i < |e.makers| :: e.makers[i].id != p.id
    ensures InBook(e.book, p) && p.id in After(orders, e) && After(orders, e)[p.id] == p
  {
    hide BookOk;
    hide After;
    hide RestShape;
    hide MakersShape;
    hide Insert;
    AfterLookup(orders, b, n, o, e);
    var side := Opposite(b, o.side);
    if p in side {
      var j :| 0 <= j < |side| && side[j] == p;
      MakerIds(orders, b, n, o, e);
      assert j >= |e.makers|;
      RestKeeps(side, e.makers, Opposite(e.book, o.side), j);
    } else {
      InsertKeeps(o.side, Own(b, o.side), e.taker, p);
    }
  }

  lemma InsertKeeps(side: Side, s: seq<Order>, o: Order, p: Order)
    ensures p in Insert(side, s, o) <==> p in s || p == o
  {
    hide InsertAt;
    var k := InsertAt(side, s, o);
    assert s == s[..k] + s[k..];
  }

  /** Everything on the executed book has its record in the table. */
  lemma BookIsKnown(orders: map<string, Order>, b: Book, n: string, o: Order, e: Execution, p: Order)
    requires Known(orders, b, n) && ExecShape(b, o, e) && o.id !in orders
    requires InBook(e.book, p)
    ensures p.id in After(orders, e) && After(orders, e)[p.id] == p
  {
    hide After;
    hide Ordered;
    hide Uncrossed;
    hide RestShape;
    hide Insert;
    hide LockFor;
    hide StatusOf;
    AfterLookup(orders, b, n, o, e);
    MakerIds(orders, b, n, o, e);
    var side, m := Opposite(b, o.side), |e.makers|;
    if p in Own(e.book, o.side) {
      InsertKeeps(o.side, Own(b, o.side), e.taker, p);
      if p in Own(b, o.side) {
        forall i | 0 <= i < m
          ensures e.makers[i].id != p.id
        {
          assert InBook(b, side[i]) && InBook(b, p);
          assert Resting(side[i], OtherSide(o.side), n) && Resting(p, o.side, n);
        }
        UntouchedStays(orders, b, n, o, e, p);
      }
    } else {
      RestIsFrom(side, e.makers, Opposite(e.book, o.side), p);
      if j: nat :| m <= j < |side| && side[j] == p {
        SideIdsDistinct(orders, b, n, o.side);
        UntouchedStays(orders, b, n, o, e, p);
      }
    }
  }

  lemma MakerKept(b: Book, o: Order, e: Execution, i: nat)
    requires ExecShape(b, o, e) && i < |e.makers| && e.makers[i].status != Filled
    ensures InBook(e.book, e.makers[i])
  {
    hide RestShape;
    hide Insert;
    hide LockFor;
    assert e.makers[i].remaining != 0.0 && i == |e.makers| - 1;
    RestKeepsLast(Opposite(b, o.side), e.makers, Opposite(e.book, o.side));
  }

  /** Every unfinished order of this symbol in the table is on the executed book. */
  lemma OpenIsOnBook(orders: map<string, Order>, b: Book, n: string, o: Order, e: Execution, id: string)
    requires Known(orders, b, n) && ExecShape(b, o, e) && o.id !in orders
    requires id in After(orders, e) && After(orders, e)[id].status != Filled
    requires id in orders && orders[id].status != Filled && orders[id].symbol == n ==> InBook(b, orders[id])
    requires id in orders ==> orders[id].id == id && (orders[id].status == Filled ==> orders[id].remaining == 0.0)
    requires id in orders ==> orders[id].symbol == n
    ensures InBook(e.book, After(orders, e)[id])
  {
    hide After;
    hide BookOk;
    hide RestShape;
    hide Insert;
    hide LockFor;
    AfterLookup(orders, b, n, o, e);
    MakerIds(orders, b, n, o, e);
    var m := |e.makers|;
    if id == o.id {
      InsertKeeps(o.side, Own(b, o.side), e.taker, e.taker);
    } else if i: nat :| i < m && e.makers[i].id == id {
      MakerKept(b, o, e, i);
    } else {
      UntouchedStays(orders, b, n, o, e, orders[id]);
    }
  }

  // ----- quantities against the tape

  lemma {:induction false} TradedConcat(s: seq<Trade>, t: seq<Trade>, id: string)
    ensures TradedQuantity(s + t, id) == TradedQuantity(s, id) + TradedQuantity(t, id)
  {
    if s == [] {
      assert s + t == t;
    } else {
      assert (s + t)[1..] == s[1..] + t;
      TradedConcat(s[1..], t, id);
    }
  }

  lemma {:induction false} NeverNamed(trades: seq<Trade>, id: string)
    requires forall i | 0 <= i < |trades| :: trades[i].makerOrder != id && trades[i].takerOrder != id
    ensures TradedQuantity(trades, id) == 0.0
  {
    if trades != [] {
      NeverNamed(trades[1..], id);
    }
  }

  lemma {:induction false} AlwaysNamed(trades: seq<Trade>, id: string)
    requires forall i | 0 <= i < |trades| :: trades[i].takerOrder == id
    ensures TradedQuantity(trades, id) == SumQuantity(trades)
  {
    if trades != [] {
      AlwaysNamed(trades[1..], id);
    }
  }

  lemma {:induction false} NamedOnce(trades: seq<Trade>, k: nat)
    requires k < |trades|
    requires forall i, j | 0 <= i < j < |trades| :: trades[i].makerOrder != trades[j].makerOrder
    requires forall i | 0 <= i < |trades| :: trades[i].takerOrder != trades[k].makerOrder
    ensures TradedQuantity(trades, trades[k].makerOrder) == trades[k].quantity
  {
    var id := trades[k].makerOrder;
    if k == 0 {
      NeverNamed(trades[1..], id);
    } else {
      NamedOnce(trades[1..], k - 1);
    }
  }

  lemma NewTradesName(orders: map<string, Order>, b: Book, n: string, o: Order, e: Execution)
    requires Known(orders, b, n) && ExecShape(b, o, e) && o.id !in orders
    ensures |e.makers| == |e.trades|
    ensures forall i | 0 <= i < |e.trades| ::
              e.trades[i].takerOrder == o.id && e.trades[i].makerOrder == e.makers[i].id && e.makers[i].id != o.id
  {
    hide BookOk;
    hide RestShape;
    hide LockFor;
    hide StatusOf;
    MakerIds(orders, b, n, o, e);
    forall i | 0 <= i < |e.makers|
      ensures e.makers[i].id in orders
    {
      assert InBook(b, Opposite(b, o.side)[i]);
    }
  }

  /** Every maker is named once, the taker in every trade, nobody else at all. */
  lemma NewTrades(orders: map<string, Order>, b: Book, n: string, o: Order, e: Execution, id: string)
    requires Known(orders, b, n) && ExecShape(b, o, e) && o.id !in orders
    ensures id == o.id ==> TradedQuantity(e.trades, id) == SumQuantity(e.trades)
    ensures forall i | 0 <= i < |e.makers| && e.makers[i].id == id ::
              TradedQuantity(e.trades, id) == e.trades[i].quantity
    ensures id != o.id && (forall i | 0 <= i < |e.makers| :: e.makers[i].id != id) ==>
              TradedQuantity(e.trades, id) == 0.0
  {
    hide ExecShape;
    hide Known;
    hide TradedQuantity;
    NewTradesName(orders, b, n, o, e);
    MakerIds(orders, b, n, o, e);
    if id == o.id {
      AlwaysNamed(e.trades, o.id);
    }
    forall i | 0 <= i < |e.makers| && e.makers[i].id == id
      ensures TradedQuantity(e.trades, id) == e.trades[i].quantity
    {
      NamedOnce(e.trades, i);
    }
    if id != o.id && forall i | 0 <= i < |e.makers| :: e.makers[i].id != id {
      NeverNamed(e.trades, id);
    }
  }

  lemma TakerAccounted(b: Book, o: Order, e: Execution)
    requires ExecShape(b, o, e) && o.price > 0.0 && o.quantity > 0.0
    ensures OrderAccounted(e.taker, SumQuantity(e.trades))
  {
    hide RestShape;
    hide MakersShape;
    hide Notional;
  }

  lemma FulfilledAccounted(p: Order, traded: real, q: real)
    requires OrderAccounted(p, traded) && 0.0 < q <= p.remaining
    ensures OrderAccounted(Fulfilled(p, q), traded + q)
  {
    hide Notional;
  }

  /** The old accounting, to be carried over an execution. */
  ghost predicate AllAccounted(orders: map<string, Order>, trades: seq<Trade>) {
    && (forall k | k in orders :: OrderAccounted(orders[k], TradedQuantity(trades, k)))
    && (forall i | 0 <= i < |trades| :: trades[i].makerOrder in orders && trades[i].takerOrder in orders)
  }

  lemma TakerCarries(orders: map<string, Order>, b: Book, n: string, o: Order, e: Execution, trades: seq<Trade>)
    requires Known(orders, b, n) && ExecShape(b, o, e) && o.id !in orders && AllAccounted(orders, trades)
    requires o.price > 0.0 && o.quantity > 0.0
    ensures OrderAccounted(e.taker, TradedQuantity(trades + e.trades, o.id))
  {
    hide Known;
    hide ExecShape;
    hide OrderAccounted;
    NewTrades(orders, b, n, o, e, o.id);
    TradedConcat(trades, e.trades, o.id);
    NeverNamed(trades, o.id);
    TakerAccounted(b, o, e);
  }

  lemma MakerWasAccounted(orders: map<string, Order>, b: Book, n: string, o: Order, e: Execution, trades: seq<Trade>,
                          i: nat)
    requires Known(orders, b, n) && ExecShape(b, o, e) && AllAccounted(orders, trades) && i < |e.makers|
    ensures |e.makers| <= |Opposite(b, o.side)|
    ensures OrderAccounted(Opposite(b, o.side)[i], TradedQuantity(trades, e.makers[i].id))
  {
    hide ExecShape;
    hide BookOk;
    hide OrderAccounted;
    hide TradedQuantity;
    MakerIds(orders, b, n, o, e);
    assert InBook(b, Opposite(b, o.side)[i]);
  }

  lemma MakerIsAccounted(b: Book, o: Order, e: Execution, i: nat, traded: real)
    requires ExecShape(b, o, e) && i < |e.makers| <= |Opposite(b, o.side)|
    requires OrderAccounted(Opposite(b, o.side)[i], traded)
    ensures |e.makers| == |e.trades| && OrderAccounted(e.makers[i], traded + e.trades[i].quantity)
  {
    hide OrderAccounted;
    hide Fulfilled;
    hide RestShape;
    FulfilledAccounted(Opposite(b, o.side)[i], traded, e.trades[i].quantity);
  }

  lemma MakerCarries(orders: map<string, Order>, b: Book, n: string, o: Order, e: Execution, trades: seq<Trade>, i: nat)
    requires Known(orders, b, n) && ExecShape(b, o, e) && o.id !in orders && AllAccounted(orders, trades)
    requires i < |e.makers|
    ensures OrderAccounted(e.makers[i], TradedQuantity(trades + e.trades, e.makers[i].id))
  {
    hide Known;
    hide ExecShape;
    hide AllAccounted;
    hide OrderAccounted;
    hide TradedQuantity;
    var id := e.makers[i].id;
    MakerWasAccounted(orders, b, n, o, e, trades, i);
    MakerIsAccounted(b, o, e, i, TradedQuantity(trades, id));
    NewTrades(orders, b, n, o, e, id);
    TradedConcat(trades, e.trades, id);
  }

  lemma OtherCarries(orders: map<string, Order>, b: Book, n: string, o: Order, e: Execution, trades: seq<Trade>,
                     id: string)
    requires Known(orders, b, n) && ExecShape(b, o, e) && o.id !in orders && AllAccounted(orders, trades)
    requires id in orders && forall i | 0 <= i < |e.makers| :: e.makers[i].id != id
    ensures OrderAccounted(orders[id], TradedQuantity(trades + e.trades, id))
  {
    hide Known;
    hide ExecShape;
    hide OrderAccounted;
    hide TradedQuantity;
    NewTrades(orders, b, n, o, e, id);
    TradedConcat(trades, e.trades, id);
  }

  /** Quantity accounting carries over to the new table and tape. */
  lemma AccountingCarries(orders: map<string, Order>, b: Book, n: string, o: Order, e: Execution,
                          trades: seq<Trade>, id: string)
    requires Known(orders, b, n) && ExecShape(b, o, e) && o.id !in orders && AllAccounted(orders, trades)
    requires o.price > 0.0 && o.quantity > 0.0
    requires id in After(orders, e)
    ensures OrderAccounted(After(orders, e)[id], TradedQuantity(trades + e.trades, id))
  {
    hide Known;
    hide ExecShape;
    hide After;
    hide OrderAccounted;
    hide TradedQuantity;
    hide AllAccounted;
    AfterLookup(orders, b, n, o, e);
    if id == o.id {
      TakerCarries(orders, b, n, o, e, trades);
    } else if i: nat :| i < |e.makers| && e.makers[i].id == id {
      MakerCarries(orders, b, n, o, e, trades, i);
    } else {
      OtherCarries(orders, b, n, o, e, trades, id);
    }
  }

  lemma NewTradeRecorded(symbols: Symbols, orders: map<string, Order>, b: Book, n: string, o: Order, e: Execution,
                         k: nat)
    requires Known(orders, b, n) && ExecShape(b, o, e) && o.id !in orders && o.symbol == n && n in symbols
    requires k < |e.trades|
    ensures TradeRecorded(symbols, After(orders, e), e.trades[k])
  {
    hide After;
    hide Ordered;
    hide Uncrossed;
    hide RestShape;
    hide LockFor;
    hide StatusOf;
    AfterLookup(orders, b, n, o, e);
    NewTradesName(orders, b, n, o, e);
    MakerIds(orders, b, n, o, e);
    var p := Opposite(b, o.side)[k];
    assert InBook(b, p) && Resting(p, OtherSide(o.side), n);
  }

  lemma OldTradeRecorded(symbols: Symbols, orders: map<string, Order>, orders': map<string, Order>, tr: Trade)
    requires TradeRecorded(symbols, orders, tr)
    requires forall id | id in orders :: id in orders' && SameIdentity(orders[id], orders'[id])
    ensures TradeRecorded(symbols, orders', tr)
  {
  }

  /** The tape stays consistent with the new table, trade by trade. */
  lemma TapeCarries(symbols: Symbols, orders: map<string, Order>, b: Book, n: string, o: Order, e: Execution,
                    trades: seq<Trade>, i: nat)
    requires Known(orders, b, n) && ExecShape(b, o, e) && o.id !in orders && o.symbol == n && n in symbols
    requires forall k | 0 <= k < |trades| :: TradeRecorded(symbols, orders, trades[k])
    requires i < |trades + e.trades|
    ensures TradeRecorded(symbols, After(orders, e), (trades + e.trades)[i])
  {
    hide After;
    hide Known;
    hide ExecShape;
    hide TradeRecorded;
    if i >= |trades| {
      NewTradeRecorded(symbols, orders, b, n, o, e, i - |trades|);
    } else {
      AfterIdentity(orders, b, n, o, e);
      OldTradeRecorded(symbols, orders, After(orders, e), trades[i]);
    }
  }

  // ----- the ledger

  lemma {:induction false} ReplayedConcat(symbols: Symbols, orders: map<string, Order>, s: seq<Trade>, t: seq<Trade>,
                                          a: string, x: string)
    ensures Replayed(symbols, orders, s + t, a, x) == Replayed(symbols, orders, s, a, x)
                                                      + Replayed(symbols, orders, t, a, x)
  {
    hide LedgerFlow;
    if s == [] {
      assert s + t == t;
    } else {
      assert (s + t)[1..] == s[1..] + t;
      ReplayedConcat(symbols, orders, s[1..], t, a, x);
    }
  }

  lemma {:induction false} ReplayedSame(symbols: Symbols, orders: map<string, Order>, orders': map<string, Order>,
                                        trades: seq<Trade>, a: string, x: string)
    requires forall i | 0 <= i < |trades| :: trades[i].takerOrder in orders
    requires forall id | id in orders :: id in orders' && SameIdentity(orders[id], orders'[id])
    ensures Replayed(symbols, orders, trades, a, x) == Replayed(symbols, orders', trades, a, x)
  {
    hide Flow;
    if trades != [] {
      ReplayedSame(symbols, orders, orders', trades[1..], a, x);
    }
  }

  lemma {:induction false} ReplayedNew(symbols: Symbols, orders: map<string, Order>, trades: seq<Trade>, n: string,
                                       taker: string, a: string, x: string)
    requires n in symbols && taker in orders
    requires forall i | 0 <= i < |trades| :: trades[i].symbol == n && trades[i].takerOrder == taker
    ensures Replayed(symbols, orders, trades, a, x) == SumFlow(symbols[n], trades, orders[taker].side, a, x)
  {
    hide Flow;
    if trades != [] {
      ReplayedNew(symbols, orders, trades[1..], n, taker, a, x);
    }
  }

  lemma {:induction false} DepositedConcat(s: seq<AuditEvent>, t: seq<AuditEvent>, a: string, x: string)
    ensures Deposited(s + t, a, x) == Deposited(s, a, x) + Deposited(t, a, x)
  {
    hide DepositOf;
    if s == [] {
      assert s + t == t;
    } else {
      assert (s + t)[1..] == s[1..] + t;
      DepositedConcat(s[1..], t, a, x);
    }
  }

  lemma {:induction false} TradesDepositNothing(trades: seq<Trade>, accepted: string, a: string, x: string)
    ensures Deposited(TradeEvents(trades, accepted), a, x) == 0.0
  {
    if trades != [] {
      assert TradeEvents(trades, accepted)[1..] == TradeEvents(trades[1..], accepted);
      TradesDepositNothing(trades[1..], accepted, a, x);
    }
  }

  /** Replaying the new tape over the new table adds the execution's flows and no deposit. */
  lemma LedgerCarries(symbols: Symbols, orders: map<string, Order>, b: Book, n: string, o: Order, e: Execution,
                      trades: seq<Trade>, audit: seq<AuditEvent>, a: string, x: string)
    requires Known(orders, b, n) && ExecShape(b, o, e) && o.id !in orders && o.symbol == n && n in symbols
    requires forall k | 0 <= k < |trades| :: trades[k].takerOrder in orders
    ensures Replayed(symbols, After(orders, e), trades + e.trades, a, x) ==
            Replayed(symbols, orders, trades, a, x) + SumFlow(symbols[n], e.trades, o.side, a, x)
    ensures Deposited(audit + [OrderAccepted(e.taker, |e.trades|)] + TradeEvents(e.trades, e.taker.id), a, x) ==
            Deposited(audit, a, x)
  {
    hide After;
    hide BookOk;
    hide Flow;
    hide RestShape;
    hide LockFor;
    var orders' := After(orders, e);
    AfterLookup(orders, b, n, o, e);
    AfterIdentity(orders, b, n, o, e);
    ReplayedConcat(symbols, orders', trades, e.trades, a, x);
    ReplayedSame(symbols, orders, orders', trades, a, x);
    ReplayedNew(symbols, orders', e.trades, n, o.id, a, x);
    var accepted := [OrderAccepted(e.taker, |e.trades|)];
    DepositedConcat(audit + accepted, TradeEvents(e.trades, e.taker.id), a, x);
    DepositedConcat(audit, accepted, a, x);
    TradesDepositNothing(e.trades, e.taker.id, a, x);
    assert Deposited(accepted, a, x) == 0.0;
  }
}
