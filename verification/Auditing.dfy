/** The audit trail over whole runs: it tells of every trade on the tape under its taker's order, and of
    every order's acceptance exactly once. */
module Auditing {
  import opened Domain
  import opened Recovery
  import opened Machine
  import opened Invariant
  import opened OrderRecords
  import opened Restarting
  import opened Runs
  import opened Arrivals
  import opened Requests

  /** The trade events of a trail, in their order. */
  function TradesTold(audit: seq<AuditEvent>): seq<AuditEvent> {
    if audit == [] then []
    else (if audit[0].TradeExecuted? then [audit[0]] else []) + TradesTold(audit[1..])
  }

  /** The acceptances of a trail, in their order. */
  function AcceptancesTold(audit: seq<AuditEvent>): (told: seq<AuditEvent>)
    ensures forall i | 0 <= i < |told| :: told[i].OrderAccepted?
  {
    if audit == [] then []
    else (if audit[0].OrderAccepted? then [audit[0]] else []) + AcceptancesTold(audit[1..])
  }

  lemma {:induction false} ToldConcat(audit: seq<AuditEvent>, more: seq<AuditEvent>)
    ensures TradesTold(audit + more) == TradesTold(audit) + TradesTold(more)
    ensures AcceptancesTold(audit + more) == AcceptancesTold(audit) + AcceptancesTold(more)
  {
    if audit == [] {
      assert audit + more == more;
    } else {
      assert (audit + more)[0] == audit[0] && (audit + more)[1..] == audit[1..] + more;
      ToldConcat(audit[1..], more);
    }
  }

  lemma {:induction false} OnlyTrades(events: seq<AuditEvent>)
    requires forall i | 0 <= i < |events| :: events[i].TradeExecuted?
    ensures TradesTold(events) == events && AcceptancesTold(events) == []
  {
    if events != [] {
      OnlyTrades(events[1..]);
    }
  }

  lemma FirstTold(e: AuditEvent, events: seq<AuditEvent>)
    requires e.OrderAccepted? && forall i | 0 <= i < |events| :: events[i].TradeExecuted?
    ensures TradesTold([e] + events) == events && AcceptancesTold([e] + events) == [e]
  {
    assert ([e] + events)[1..] == events;
    OnlyTrades(events);
  }

  lemma SplitTrail(audit: seq<AuditEvent>, audit': seq<AuditEvent>)
    requires audit <= audit' && |audit| < |audit'|
    ensures audit' == audit + ([audit'[|audit|]] + audit'[|audit| + 1..])
  {
  }

  /** What a placed order adds to a trail: its acceptance and its trades. */
  lemma PlacingTells(audit: seq<AuditEvent>, audit': seq<AuditEvent>)
    requires audit <= audit' && |audit| < |audit'| && audit'[|audit|].OrderAccepted?
    requires forall i | |audit| < i < |audit'| :: audit'[i].TradeExecuted?
    ensures AcceptancesTold(audit') == AcceptancesTold(audit) + [audit'[|audit|]]
    ensures TradesTold(audit') == TradesTold(audit) + audit'[|audit| + 1..]
  {
    hide TradesTold;
    hide AcceptancesTold;
    var e, events := audit'[|audit|], audit'[|audit| + 1..];
    SplitTrail(audit, audit');
    ToldConcat(audit, [e] + events);
    FirstTold(e, events);
  }

  /** The trades told are those of the tape, in order, each under its taker's order. */
  ghost predicate TapeIsTold(audit: seq<AuditEvent>, tape: seq<Trade>) {
    && |TradesTold(audit)| == |tape|
    && forall i | 0 <= i < |tape| :: TradesTold(audit)[i] == TradeExecuted(tape[i], tape[i].takerOrder)
  }

  /** How many trades an order took. */
  function TakenBy(tape: seq<Trade>, id: string): nat {
    if tape == [] then 0 else (if tape[0].takerOrder == id then 1 else 0) + TakenBy(tape[1..], id)
  }

  lemma {:induction false} TakenConcat(tape: seq<Trade>, more: seq<Trade>, id: string)
    ensures TakenBy(tape + more, id) == TakenBy(tape, id) + TakenBy(more, id)
  {
    if tape == [] {
      assert tape + more == more;
    } else {
      assert (tape + more)[0] == tape[0] && (tape + more)[1..] == tape[1..] + more;
      TakenConcat(tape[1..], more, id);
    }
  }

  lemma {:induction false} TakenByOne(tape: seq<Trade>, id: string, taker: string)
    requires forall i | 0 <= i < |tape| :: tape[i].takerOrder == taker
    ensures TakenBy(tape, id) == if id == taker then |tape| else 0
  {
    if tape != [] {
      TakenByOne(tape[1..], id, taker);
    }
  }

  lemma {:induction false} NeverTook(tape: seq<Trade>, id: string)
    requires forall i | 0 <= i < |tape| :: tape[i].takerOrder != id
    ensures TakenBy(tape, id) == 0
  {
    if tape != [] {
      NeverTook(tape[1..], id);
    }
  }

  /** The event tells of a recorded order what it is, where it arrived and how many trades it took. */
  ghost predicate Tells(e: AuditEvent, orders: map<string, Order>, tape: seq<Trade>) {
    && e.OrderAccepted? && e.order.id in orders
    && SameIdentity(e.order, orders[e.order.id]) && e.order.sequence == orders[e.order.id].sequence
    && e.trades == TakenBy(tape, e.order.id)
  }

  /** Every recorded order's acceptance is told once, and no other. */
  ghost predicate OrdersAreTold(audit: seq<AuditEvent>, orders: map<string, Order>, tape: seq<Trade>) {
    var told := AcceptancesTold(audit);
    && (forall i | 0 <= i < |told| :: Tells(told[i], orders, tape))
    && (forall i, j | 0 <= i < j < |told| :: told[i].order.id != told[j].order.id)
    && (forall id | id in orders :: exists i | 0 <= i < |told| :: told[i].order.id == id)
  }

  lemma ToldStays(e: AuditEvent, s: State, req: Request, id: string, s': State, o: Order, trades: seq<Trade>)
    requires Served(s, req, id, s', o, trades) && Tells(e, s.db.orders, s.db.trades)
    ensures Tells(e, s'.db.orders, s'.db.trades) && e.order.id != id
  {
    hide Good;
    hide PlaceOrder;
    hide ParseSide;
    RequestLeavesRecords(s, req, id, s', o, trades, e.order.id);
    RequestIsPlaced(s, req, id, s', o, trades);
    TradesNameTaker(s, req, id, s', o, trades);
    TakenConcat(s.db.trades, trades, e.order.id);
    TakenByOne(trades, e.order.id, id);
  }

  lemma TradesNameTaker(s: State, req: Request, id: string, s': State, o: Order, trades: seq<Trade>)
    requires Served(s, req, id, s', o, trades)
    ensures forall i | 0 <= i < |trades| :: trades[i].takerOrder == id
  {
    hide Served;
    hide ParseSide;
    forall i | 0 <= i < |trades|
      ensures trades[i].takerOrder == id
    {
      RequestTrades(s, req, id, s', o, trades, i);
    }
  }

  /** A fresh order took no trade of the tape so far. */
  lemma FreshTookNothing(s: State, id: string)
    requires Good(s) && id !in s.db.orders
    ensures TakenBy(s.db.trades, id) == 0
  {
    hide Good;
    hide OrderAccounted;
    Placing.GoodParts(s);
    forall i | 0 <= i < |s.db.trades|
      ensures s.db.trades[i].takerOrder != id
    {
      assert TradeRecorded(s.symbols, s.db.orders, s.db.trades[i]);
    }
    NeverTook(s.db.trades, id);
  }

  lemma TapeGrows(audit: seq<AuditEvent>, audit': seq<AuditEvent>, tape: seq<Trade>, trades: seq<Trade>, id: string)
    requires TapeIsTold(audit, tape) && audit <= audit' && |audit'| == |audit| + 1 + |trades|
    requires audit'[|audit|].OrderAccepted?
    requires forall i | 0 <= i < |trades| ::
               audit'[|audit| + 1 + i] == TradeExecuted(trades[i], id) && trades[i].takerOrder == id
    ensures TapeIsTold(audit', tape + trades)
    ensures AcceptancesTold(audit') == AcceptancesTold(audit) + [audit'[|audit|]]
  {
    hide TradesTold;
    hide AcceptancesTold;
    var events := audit'[|audit| + 1..];
    forall i | 0 <= i < |trades|
      ensures events[i] == TradeExecuted(trades[i], trades[i].takerOrder)
    {
      assert events[i] == audit'[|audit| + 1 + i];
    }
    forall i | |audit| < i < |audit'|
      ensures audit'[i].TradeExecuted?
    {
      assert audit'[i] == audit'[|audit| + 1 + (i - |audit| - 1)];
    }
    PlacingTells(audit, audit');
    ToldJoins(TradesTold(audit), tape, events, trades);
  }

  lemma ToldJoins(told: seq<AuditEvent>, tape: seq<Trade>, events: seq<AuditEvent>, trades: seq<Trade>)
    requires |told| == |tape| && forall i | 0 <= i < |tape| :: told[i] == TradeExecuted(tape[i], tape[i].takerOrder)
    requires |events| == |trades|
    requires forall i | 0 <= i < |trades| :: events[i] == TradeExecuted(trades[i], trades[i].takerOrder)
    ensures |told + events| == |tape + trades|
    ensures forall i | 0 <= i < |tape + trades| ::
              (told + events)[i] == TradeExecuted((tape + trades)[i], (tape + trades)[i].takerOrder)
  {
  }

  lemma OrdersGrow(told: seq<AuditEvent>, e: AuditEvent, orders: map<string, Order>, orders': map<string, Order>,
                   tape': seq<Trade>)
    requires e.OrderAccepted? && Tells(e, orders', tape') && orders'.Keys == orders.Keys + {e.order.id}
    requires forall i | 0 <= i < |told| ::
               told[i].OrderAccepted? && Tells(told[i], orders', tape') && told[i].order.id != e.order.id
    requires forall i, j | 0 <= i < j < |told| :: told[i].order.id != told[j].order.id
    requires forall id | id in orders :: exists i | 0 <= i < |told| :: told[i].order.id == id
    ensures var told' := told + [e];
            && (forall i | 0 <= i < |told'| :: Tells(told'[i], orders', tape'))
            && (forall i, j | 0 <= i < j < |told'| :: told'[i].order.id != told'[j].order.id)
            && (forall id | id in orders' :: exists i | 0 <= i < |told'| :: told'[i].order.id == id)
  {
    var told' := told + [e];
    forall id | id in orders'
      ensures exists i | 0 <= i < |told'| :: told'[i].order.id == id
    {
      if id == e.order.id {
        assert told'[|told|].order.id == id;
      } else {
        var i :| 0 <= i < |told| && told[i].order.id == id;
        assert told'[i].order.id == id;
      }
    }
  }

  lemma PlacedTells(s: State, req: Request, id: string, s': State, o: Order, trades: seq<Trade>)
    requires Served(s, req, id, s', o, trades)
    requires TapeIsTold(s.db.audit, s.db.trades) && OrdersAreTold(s.db.audit, s.db.orders, s.db.trades)
    ensures TapeIsTold(s'.db.audit, s'.db.trades) && OrdersAreTold(s'.db.audit, s'.db.orders, s'.db.trades)
  {
    hide Served;
    hide ParseSide;
    hide Tells;
    hide TapeIsTold;
    hide AcceptancesTold;
    RequestIsPlaced(s, req, id, s', o, trades);
    RequestIsAudited(s, req, id, s', o, trades);
    TradesNameTaker(s, req, id, s', o, trades);
    TapeGrows(s.db.audit, s'.db.audit, s.db.trades, trades, id);
    var told := AcceptancesTold(s.db.audit);
    forall i | 0 <= i < |told|
      ensures Tells(told[i], s'.db.orders, s'.db.trades) && told[i].order.id != id
    {
      ToldStays(told[i], s, req, id, s', o, trades);
    }
    NewIsTold(s, req, id, s', o, trades);
    OrdersGrow(told, OrderAccepted(o, |trades|), s.db.orders, s'.db.orders, s'.db.trades);
  }

  lemma NewIsTold(s: State, req: Request, id: string, s': State, o: Order, trades: seq<Trade>)
    requires Served(s, req, id, s', o, trades)
    ensures Tells(OrderAccepted(o, |trades|), s'.db.orders, s'.db.trades)
  {
    hide Good;
    hide PlaceOrder;
    hide ParseSide;
    RequestIsPlaced(s, req, id, s', o, trades);
    TradesNameTaker(s, req, id, s', o, trades);
    FreshTookNothing(s, id);
    TakenConcat(s.db.trades, trades, id);
    TakenByOne(trades, id, id);
  }

  /** Every other step records no order and no trade, and tells of none. */
  lemma OtherStepsTellNothing(s: State, c: Command)
    requires Good(s) && Allowed(s, c) && !c.DoPlace?
    ensures s.books.Keys == s.symbols.Keys
    ensures var s' := Do(s, c);
            && s'.db.orders == s.db.orders && s'.db.trades == s.db.trades
            && TradesTold(s'.db.audit) == TradesTold(s.db.audit)
            && AcceptancesTold(s'.db.audit) == AcceptancesTold(s.db.audit)
  {
    hide Good;
    hide Deposit;
    hide Restart;
    hide OpenOrders;
    GoodCache(s);
    match c {
      case DoDeposit(account, asset, amount) =>
        if amount > 0.0 {
          DepositEffect(s, account, asset, amount);
          var e := Deposit(s, account, asset, amount).1.db.audit[|s.db.audit|];
          ToldConcat(s.db.audit, [e]);
          assert [e][1..] == [];
        } else {
          DepositSucceedsIff(s, account, asset, amount);
        }
      case DoRestart(os, trades) => RestartIsInvisible(s, os, trades);
      case _ =>
    }
  }

  lemma StepIsTold(s: State, c: Command)
    requires Good(s) && Allowed(s, c)
    requires TapeIsTold(s.db.audit, s.db.trades) && OrdersAreTold(s.db.audit, s.db.orders, s.db.trades)
    ensures s.books.Keys == s.symbols.Keys
    ensures var s' := Do(s, c);
            TapeIsTold(s'.db.audit, s'.db.trades) && OrdersAreTold(s'.db.audit, s'.db.orders, s'.db.trades)
  {
    hide Good;
    hide PlaceOrder;
    hide OpenOrders;
    hide Tells;
    GoodCache(s);
    if c.DoPlace? {
      var p := PlaceOrder(s, c.req, c.id);
      if p.Placed? {
        PlacedTells(s, c.req, c.id, p.state, p.order, p.trades);
      }
    } else {
      hide Do;
      OtherStepsTellNothing(s, c);
    }
  }

  lemma {:induction false} RunIsTold(s: State, run: seq<Command>)
    requires Good(s) && Legal(s, run)
    requires TapeIsTold(s.db.audit, s.db.trades) && OrdersAreTold(s.db.audit, s.db.orders, s.db.trades)
    ensures var s' := RunAll(s, run);
            TapeIsTold(s'.db.audit, s'.db.trades) && OrdersAreTold(s'.db.audit, s'.db.orders, s'.db.trades)
    decreases |run|
  {
    hide Good;
    hide Do;
    hide Allowed;
    hide TapeIsTold;
    hide OrdersAreTold;
    if run != [] {
      StepKeepsGood(s, run[0]);
      StepIsTold(s, run[0]);
      RunIsTold(Do(s, run[0]), run[1..]);
    }
  }

  /** Over every run the trade events of the trail are the trades of the tape, in order, each under the order
      that took it. */
  lemma TrailTellsTheTape(run: seq<Command>)
    requires Legal(Initial(MARKETS), run)
    ensures var s := RunAll(Initial(MARKETS), run);
            && |TradesTold(s.db.audit)| == |s.db.trades|
            && forall i | 0 <= i < |s.db.trades| ::
                 TradesTold(s.db.audit)[i] == TradeExecuted(s.db.trades[i], s.db.trades[i].takerOrder)
  {
    hide Good;
    hide Legal;
    hide RunAll;
    hide OrdersAreTold;
    RunIsToldFromStart(run);
  }

  lemma RunIsToldFromStart(run: seq<Command>)
    requires Legal(Initial(MARKETS), run)
    ensures var s := RunAll(Initial(MARKETS), run);
            TapeIsTold(s.db.audit, s.db.trades) && OrdersAreTold(s.db.audit, s.db.orders, s.db.trades)
  {
    hide Good;
    hide Legal;
    hide RunAll;
    MarketsAreATable();
    InitialIsGood(MARKETS);
    RunIsTold(Initial(MARKETS), run);
  }

  /** Over every run the acceptances of the trail are of distinct orders, they are the recorded ones, and each
      tells the order's identity, its arrival number and the number of trades it took. */
  lemma TrailTellsEveryOrderOnce(run: seq<Command>, id: string)
    requires Legal(Initial(MARKETS), run)
    ensures var s := RunAll(Initial(MARKETS), run);
            var told := AcceptancesTold(s.db.audit);
            && (forall i, j | 0 <= i < j < |told| :: told[i].order.id != told[j].order.id)
            && (id in s.db.orders <==> exists i | 0 <= i < |told| :: told[i].order.id == id)
            && (forall i | 0 <= i < |told| && told[i].order.id == id ::
                  && SameIdentity(told[i].order, s.db.orders[id])
                  && told[i].order.sequence == s.db.orders[id].sequence
                  && told[i].trades == TakenBy(s.db.trades, id))
  {
    hide Good;
    hide Legal;
    hide RunAll;
    hide TapeIsTold;
    RunIsToldFromStart(run);
    var s := RunAll(Initial(MARKETS), run);
    var told := AcceptancesTold(s.db.audit);
    assert forall i | 0 <= i < |told| :: Tells(told[i], s.db.orders, s.db.trades);
  }
}
