/** What a request gets: which order is placed for it, what the order trades and pays, and what the
    records, caches, versions and the audit trail show of it afterwards. Everything is stated of the
    request and of the answer. */
module Requests {
  import opened Domain
  import opened Matching
  import opened Priority
  import opened BookModel
  import opened WalletModel
  import opened Recovery
  import opened Money
  import opened Machine
  import opened Invariant
  import opened Executing
  import opened Syncing
  import opened OrderRecords
  import opened Placing
  import opened Restarting
  import opened Runs
  import opened Arrivals
  import opened Consequences

  /** The request is placed from a good state, with this outcome and answer. */
  ghost predicate Served(s: State, req: Request, id: string, s': State, o: Order, trades: seq<Trade>) {
    && Good(s) && id !in s.db.orders && s.books.Keys == s.symbols.Keys
    && PlaceOrder(s, req, id) == Placed(s', o, trades)
  }

  /** The order that is placed for a request, before it is reserved and matched. */
  ghost predicate AskedFor(req: Request, id: string, a: Order) {
    && a.id == id && a.account == req.account && a.symbol == req.symbol && ParseSide(req.side) == Some(a.side)
    && a.price == req.price && a.quantity == req.quantity
  }

  lemma ServedIsAccepted(s: State, req: Request, id: string, s': State, o: Order, trades: seq<Trade>)
    returns (sym: Symbol, a: Order)
    requires Served(s, req, id, s', o, trades)
    ensures req.symbol in s.symbols && sym == s.symbols[req.symbol] && sym.base != sym.quote
    ensures Accepted(s, sym, a) && AskedFor(req, id, a) && a.symbol in s.books
    ensures s' == FinalState(s, sym, a) && o == Executed(s, sym, a).taker && trades == Executed(s, sym, a).trades
  {
    hide Good;
    hide ParseSide;
    hide Validate;
    hide Reserve;
    hide SyncAccount;
    hide Execute;
    hide NoConflict;
    hide Booked;
    hide FinalState;
    hide Executed;
    GoodWellFormed(s);
    a := NewOrder(req, ParseSide(req.side).value, id);
    sym := s.symbols[req.symbol];
    AcceptedIsPlaced(s, req, id);
  }

  // ----- the order

  /** The answer is the order that was asked for, under the new id and the next arrival number, short of what
      it traded; it is recorded as answered, no recorded order is lost or renamed, and exactly its trades
      join the tape. */
  lemma RequestIsPlaced(s: State, req: Request, id: string, s': State, o: Order, trades: seq<Trade>)
    requires Served(s, req, id, s', o, trades)
    ensures o.id == id && o.account == req.account && o.symbol == req.symbol && ParseSide(req.side) == Some(o.side)
    ensures o.price == req.price && o.quantity == req.quantity
    ensures req.symbol in s.books && o.sequence == s.books[req.symbol].seqNo + 1
    ensures o.remaining == req.quantity - SumQuantity(trades)
    ensures s'.db.orders.Keys == s.db.orders.Keys + {id} && s'.db.orders[id] == o
    ensures s'.db.trades == s.db.trades + trades
    ensures s'.symbols == s.symbols && s'.books.Keys == s.books.Keys
    ensures forall n | n in s.books && n != req.symbol :: s'.books[n] == s.books[n]
  {
    hide Accepted;
    hide FinalState;
    hide Executed;
    hide Served;
    hide ParseSide;
    hide After;
    hide Match;
    hide ReservedOrder;
    hide Eligible;
    var sym, a := ServedIsAccepted(s, req, id, s', o, trades);
    AnswerIsTheMatch(s, sym, a);
    FinalRecordsAre(s, sym, a);
    FinalBooksAre(s, sym, a);
    RecordedAs(s, sym, a);
  }

  lemma NewRecord(orders: map<string, Order>, b: Book, n: string, o: Order, e: Execution)
    requires Known(orders, b, n) && ExecShape(b, o, e) && o.id !in orders
    ensures After(orders, e).Keys == orders.Keys + {o.id} && After(orders, e)[o.id] == e.taker
  {
    hide Known;
    hide ExecShape;
    hide After;
    AfterLookup(orders, b, n, o, e);
  }

  lemma RecordedAs(s: State, sym: Symbol, a: Order)
    requires Accepted(s, sym, a)
    ensures a.symbol in s.books
    ensures var orders := FinalState(s, sym, a).db.orders;
            orders.Keys == s.db.orders.Keys + {a.id} && orders[a.id] == Executed(s, sym, a).taker
  {
    hide FinalState;
    hide Executed;
    hide ReservedOrder;
    hide After;
    hide Good;
    hide Validate;
    hide ExecShape;
    hide Known;
    hide BookOk;
    hide Ahead;
    hide SameOutside;
    hide NoConflict;
    GoodParts(s);
    ExecutionSucceeds(s, sym, a);
    ReservedIsKnown(s, sym, a);
    ReservedSameId(s, sym, a);
    FinalRecordsAre(s, sym, a);
    NewRecord(s.db.orders, s.books[a.symbol], a.symbol, ReservedOrder(s, sym, a), Executed(s, sym, a));
  }

  lemma AnswerIsAskedFor(s: State, req: Request, id: string)
    requires Good(s) && id !in s.db.orders && s.books.Keys == s.symbols.Keys && PlaceOrder(s, req, id).Placed?
    ensures var p := PlaceOrder(s, req, id);
            AskedFor(req, id, p.order) && id in p.state.db.orders && p.state.db.orders[id] == p.order
  {
    hide Good;
    hide PlaceOrder;
    hide ParseSide;
    var p := PlaceOrder(s, req, id);
    RequestIsPlaced(s, req, id, p.state, p.order, p.trades);
  }

  lemma RecordAfter(orders: map<string, Order>, b: Book, n: string, o: Order, e: Execution, k: string)
    requires Known(orders, b, n) && ExecShape(b, o, e) && o.id !in orders && k in orders
    ensures k in After(orders, e) && SameIdentity(orders[k], After(orders, e)[k])
    ensures After(orders, e)[k].sequence == orders[k].sequence
    ensures (forall i | 0 <= i < |e.trades| :: e.trades[i].makerOrder != k) ==> After(orders, e)[k] == orders[k]
    ensures forall i | 0 <= i < |e.trades| && e.trades[i].makerOrder == k ::
              After(orders, e)[k].remaining == orders[k].remaining - e.trades[i].quantity
  {
    hide BookOk;
    hide After;
    hide RestShape;
    hide SumQuantity;
    hide StatusOf;
    hide LockAmount;
    AfterLookup(orders, b, n, o, e);
    AfterIdentity(orders, b, n, o, e);
    MakerIds(orders, b, n, o, e);
    forall i | 0 <= i < |e.makers|
      ensures e.trades[i].makerOrder == e.makers[i].id
      ensures e.makers[i].id == k ==> orders[k] == Opposite(b, o.side)[i]
    {
      assert InBook(b, Opposite(b, o.side)[i]);
    }
  }

  /** A recorded order that the request did not trade with keeps its record; one that it did is short of the
      traded quantity. None changes what it is or its arrival number. */
  lemma RequestLeavesRecords(s: State, req: Request, id: string, s': State, o: Order, trades: seq<Trade>, k: string)
    requires Served(s, req, id, s', o, trades) && k in s.db.orders
    ensures k in s'.db.orders && SameIdentity(s.db.orders[k], s'.db.orders[k])
    ensures s'.db.orders[k].sequence == s.db.orders[k].sequence
    ensures (forall i | 0 <= i < |trades| :: trades[i].makerOrder != k) ==> s'.db.orders[k] == s.db.orders[k]
    ensures forall i | 0 <= i < |trades| && trades[i].makerOrder == k ::
              s'.db.orders[k].remaining == s.db.orders[k].remaining - trades[i].quantity
  {
    hide Good;
    hide Validate;
    hide FinalState;
    hide Executed;
    hide Served;
    hide ParseSide;
    hide After;
    hide ReservedOrder;
    hide ExecShape;
    hide Known;
    hide SameIdentity;
    hide BookOk;
    var sym, a := ServedIsAccepted(s, req, id, s', o, trades);
    GoodParts(s);
    ExecutionSucceeds(s, sym, a);
    ReservedIsKnown(s, sym, a);
    ReservedSameId(s, sym, a);
    FinalRecordsAre(s, sym, a);
    RecordAfter(s.db.orders, s.books[a.symbol], a.symbol, ReservedOrder(s, sym, a), Executed(s, sym, a), k);
  }

  // ----- its trades

  /** The side of the book a request meets. */
  function Met(s: State, req: Request): seq<Order>
    requires req.symbol in s.books
  {
    if ParseSide(req.side) == Some(BuySide) then s.books[req.symbol].asks else s.books[req.symbol].bids
  }

  /** Every trade is the request's own with a resting order, at the resting order's price within its limit. */
  lemma RequestTrades(s: State, req: Request, id: string, s': State, o: Order, trades: seq<Trade>, i: nat)
    requires Served(s, req, id, s', o, trades) && i < |trades|
    ensures req.symbol in s.books && i < |Met(s, req)|
    ensures var tr, maker := trades[i], Met(s, req)[i];
            && tr.symbol == req.symbol && tr.takerOrder == id && tr.takerAccount == req.account
            && tr.makerOrder == maker.id && tr.makerAccount == maker.account && tr.price == maker.price
            && 0.0 < tr.quantity <= maker.remaining
            && (i + 1 < |trades| ==> tr.quantity == maker.remaining)
            && (if o.side == BuySide then tr.price <= req.price else tr.price >= req.price)
  {
    hide Accepted;
    hide FinalState;
    hide Executed;
    hide Served;
    hide ParseSide;
    hide Match;
    hide ReservedOrder;
    var sym, a := ServedIsAccepted(s, req, id, s', o, trades);
    RequestIsPlaced(s, req, id, s', o, trades);
    AcceptedMeetsBook(s, sym, a);
    ReservedSide(s, sym, a);
    MatchHasShape(Incoming(s, sym, a), Opposite(s.books[a.symbol], a.side));
    var fills := Match(Incoming(s, sym, a), Opposite(s.books[a.symbol], a.side)).fills;
    assert trades[i] == fills[i].trade;
  }

  /** However quantities might have been taken from the orders it met, within its limit: none takes more of
      what it asked for, and none that takes as much is cheaper for a buyer or brings a seller more. */
  lemma RequestIsBestExecuted(s: State, req: Request, id: string, s': State, o: Order, trades: seq<Trade>,
                              x: seq<real>)
    requires Served(s, req, id, s', o, trades) && req.symbol in s.books && |x| == |Met(s, req)|
    requires forall i | 0 <= i < |x| :: 0.0 <= x[i] <= Met(s, req)[i].remaining
    requires forall i | 0 <= i < |x| && x[i] > 0.0 ::
               if ParseSide(req.side) == Some(BuySide) then Met(s, req)[i].price <= req.price
               else Met(s, req)[i].price >= req.price
    ensures SumOf(x) <= req.quantity ==> SumOf(x) <= SumQuantity(trades)
    ensures SumOf(x) == SumQuantity(trades) ==>
              if ParseSide(req.side) == Some(BuySide) then SumNotional(trades) <= Cost(Met(s, req), x)
              else SumNotional(trades) >= Cost(Met(s, req), x)
  {
    hide Accepted;
    hide FinalState;
    hide Executed;
    hide Served;
    hide ParseSide;
    hide SumOf;
    hide Cost;
    hide SumNotional;
    hide SumQuantity;
    hide ReservedOrder;
    var sym, a := ServedIsAccepted(s, req, id, s', o, trades);
    AcceptedMeetsBook(s, sym, a);
    ReservedSide(s, sym, a);
    AcceptedIsBestExecution(s, sym, a, x);
  }

  /** Of two orders it met, the better priced one, or the earlier one at the same price, trades all it has
      before the other trades at all. */
  lemma RequestHonoursPriority(s: State, req: Request, id: string, s': State, o: Order, trades: seq<Trade>,
                               i: nat, j: nat)
    requires Served(s, req, id, s', o, trades) && req.symbol in s.books && i < |Met(s, req)| && j < |Met(s, req)|
    requires var p, q := Met(s, req)[i], Met(s, req)[j];
             || (p.price == q.price && p.sequence < q.sequence)
             || (if ParseSide(req.side) == Some(BuySide) then p.price < q.price else p.price > q.price)
    ensures j < |trades| ==>
              i < |trades| && trades[i].makerOrder == Met(s, req)[i].id
              && trades[i].quantity == Met(s, req)[i].remaining
  {
    hide Accepted;
    hide FinalState;
    hide Executed;
    hide Served;
    hide ParseSide;
    var sym, a := ServedIsAccepted(s, req, id, s', o, trades);
    AcceptedHonoursPriority(s, sym, a, i, j);
  }

  // ----- its money

  /** A buy pays the other parties of its trades what they cost at the prices traded, never more than its own
      price for what it filled; its own price for the rest stays locked; and it receives what they sold. */
  lemma BuyRequestPays(s: State, req: Request, id: string, s': State, o: Order, trades: seq<Trade>)
    requires Served(s, req, id, s', o, trades) && ParseSide(req.side) == Some(BuySide)
    ensures req.symbol in s.symbols
    ensures var a, base, quote := req.account, s.symbols[req.symbol].base, s.symbols[req.symbol].quote;
            var paid := NotionalWithOthers(trades, a);
            && Bal(s'.wallet, a, quote).locked == Bal(s.wallet, a, quote).locked + req.price * o.remaining
            && Bal(s'.wallet, a, quote).available ==
               Bal(s.wallet, a, quote).available - req.price * o.remaining - paid
            && Total(Bal(s'.wallet, a, base)) == Total(Bal(s.wallet, a, base)) + QuantityWithOthers(trades, a)
            && SumNotional(trades) <= req.price * (req.quantity - o.remaining)
  {
    hide Accepted;
    hide FinalState;
    hide Executed;
    hide Served;
    hide ParseSide;
    hide Bal;
    hide SumNotional;
    hide SumQuantity;
    hide NotionalWithOthers;
    hide QuantityWithOthers;
    var sym, a := ServedIsAccepted(s, req, id, s', o, trades);
    BuyerPaysItsTrades(s, sym, a);
  }

  /** A sell gives up what the other parties of its trades bought and receives what they pay, never less than
      its own price for what it filled; the rest of it stays locked. */
  lemma SellRequestIsPaid(s: State, req: Request, id: string, s': State, o: Order, trades: seq<Trade>)
    requires Served(s, req, id, s', o, trades) && ParseSide(req.side) == Some(SellSide)
    ensures req.symbol in s.symbols
    ensures var a, base, quote := req.account, s.symbols[req.symbol].base, s.symbols[req.symbol].quote;
            var sold := QuantityWithOthers(trades, a);
            && Bal(s'.wallet, a, base).locked == Bal(s.wallet, a, base).locked + o.remaining
            && Bal(s'.wallet, a, base).available == Bal(s.wallet, a, base).available - o.remaining - sold
            && Total(Bal(s'.wallet, a, quote)) == Total(Bal(s.wallet, a, quote)) + NotionalWithOthers(trades, a)
            && SumNotional(trades) >= req.price * (req.quantity - o.remaining)
  {
    hide Accepted;
    hide FinalState;
    hide Executed;
    hide Served;
    hide ParseSide;
    hide Bal;
    hide SumNotional;
    hide SumQuantity;
    hide NotionalWithOthers;
    hide QuantityWithOthers;
    var sym, a := ServedIsAccepted(s, req, id, s', o, trades);
    SellerIsPaidItsTrades(s, sym, a);
  }

  // ----- the audit trail

  lemma {:induction false} TradeEventsAt(trades: seq<Trade>, accepted: string)
    ensures |TradeEvents(trades, accepted)| == |trades|
    ensures forall i | 0 <= i < |trades| :: TradeEvents(trades, accepted)[i] == TradeExecuted(trades[i], accepted)
  {
    if trades != [] {
      TradeEventsAt(trades[1..], accepted);
    }
  }

  /** The trail gains the acceptance of the order as answered, with the number of its trades, then one event
      for each trade in order, each under the order's own id; nothing else. */
  lemma RequestIsAudited(s: State, req: Request, id: string, s': State, o: Order, trades: seq<Trade>)
    requires Served(s, req, id, s', o, trades)
    ensures |s'.db.audit| == |s.db.audit| + 1 + |trades| && s.db.audit <= s'.db.audit
    ensures s'.db.audit[|s.db.audit|] == OrderAccepted(o, |trades|)
    ensures forall i | 0 <= i < |trades| :: s'.db.audit[|s.db.audit| + 1 + i] == TradeExecuted(trades[i], id)
  {
    hide Accepted;
    hide FinalState;
    hide Executed;
    hide Served;
    hide TradeEvents;
    hide ParseSide;
    var sym, a := ServedIsAccepted(s, req, id, s', o, trades);
    FinalRecordsAre(s, sym, a);
    RequestIsPlaced(s, req, id, s', o, trades);
    TradeEventsAt(trades, id);
  }

  // ----- versions and caches

  /** The account that an order was placed for or that it traded with. */
  ghost predicate Touches(req: Request, trades: seq<Trade>, a: string) {
    a == req.account || exists i | 0 <= i < |trades| :: trades[i].makerAccount == a
  }

  lemma ReservedAccount(s: State, sym: Symbol, o: Order, a: string)
    requires Accepted(s, sym, o)
    ensures var w := ReservedState(s, sym, o).wallet;
            && w.Keys == s.wallet.Keys && o.account in s.wallet
            && (a in s.wallet && a != o.account ==> w[a] == s.wallet[a])
            && (a in s.wallet && a == o.account ==> w[a].version == s.wallet[a].version + 1)
  {
    hide Bal;
    hide Reserve;
    hide Validate;
    hide BooksOk;
    hide LocksAgree;
    hide OrdersAgree;
    hide Accounted;
    hide LedgerAgrees;
    hide CacheAgrees;
    hide SyncAll;
    hide SyncAccount;
    hide NoConflict;
    ReserveShape(s.wallet, sym, o);
    var r := Reserve(s.wallet, sym, o);
    var changed := map[o.account := r.accounts[o.account]];
    var before := s.(wallet := r.accounts);
    SyncAllAgrees(before, changed);
    SyncOneIsAll(before, r.accounts[o.account]);
  }

  lemma FinalAccount(s: State, sym: Symbol, o: Order, a: string)
    requires Accepted(s, sym, o)
    ensures o.symbol in s.books
    ensures var w, w1, e := FinalState(s, sym, o).wallet, ReservedState(s, sym, o).wallet, Executed(s, sym, o);
            && w.Keys == w1.Keys
            && (a in w1 && a !in e.changed ==> w[a] == w1[a])
            && (a in w1 && a in e.changed ==> w[a].version == w1[a].version + 1)
            && (a in e.changed ==> a in w && a in FinalState(s, sym, o).cache.accounts)
  {
    hide FinalState;
    hide Executed;
    hide ReservedState;
    hide Good;
    hide Validate;
    hide PersistAll;
    hide PersistAccount;
    hide SameOutside;
    hide ExecShape;
    hide BookOk;
    GoodParts(s);
    FinalAccountsAre(s, sym, o);
    ExecutionSucceeds(s, sym, o);
    SyncAllAgrees(Unsynced(s, sym, o), Executed(s, sym, o).changed);
  }

  lemma ChangedAreTouched(s: State, sym: Symbol, o: Order, a: string)
    requires Accepted(s, sym, o)
    ensures o.symbol in s.books
    ensures var e := Executed(s, sym, o);
            a in e.changed <==> a == o.account || exists i | 0 <= i < |e.trades| :: e.trades[i].makerAccount == a
  {
    hide Execute;
    hide ReservedState;
    hide Good;
    hide Validate;
    hide Ready;
    GoodParts(s);
    ReservationIsReady(s, sym, o);
    ReservedSide(s, sym, o);
    ExecuteTouches(ReservedState(s, sym, o).wallet, sym, s.books[o.symbol], ReservedOrder(s, sym, o), a);
  }

  /** The account that places an order moves on by two versions, for its reservation and its trades; one that
      it trades with moves on by one; every other account is as it was, version and all. */
  lemma RequestVersions(s: State, req: Request, id: string, s': State, o: Order, trades: seq<Trade>, a: string)
    requires Served(s, req, id, s', o, trades)
    ensures s'.wallet.Keys == s.wallet.Keys == s'.db.accounts.Keys && req.account in s.wallet
    ensures a in s.wallet ==> s'.db.accounts[a] == s'.wallet[a]
    ensures a in s.wallet && a == req.account ==> s'.wallet[a].version == s.wallet[a].version + 2
    ensures a in s.wallet && a != req.account && Touches(req, trades, a) ==>
              s'.wallet[a].version == s.wallet[a].version + 1
    ensures a in s.wallet && !Touches(req, trades, a) ==> s'.wallet[a] == s.wallet[a]
  {
    hide Accepted;
    hide FinalState;
    hide Executed;
    hide ReservedState;
    hide Served;
    hide ParseSide;
    hide Bal;
    var sym, p := ServedIsAccepted(s, req, id, s', o, trades);
    ReservedAccount(s, sym, p, a);
    FinalAccount(s, sym, p, a);
    ChangedAreTouched(s, sym, p, a);
    FinalAccounts(s, sym, p);
  }

  /** The book and the trade list of its symbol are cached as they now stand, and so is every account it
      touched. */
  lemma RequestIsCached(s: State, req: Request, id: string, s': State, o: Order, trades: seq<Trade>, a: string)
    requires Served(s, req, id, s', o, trades)
    ensures req.symbol in s'.books && req.symbol in s'.cache.books && req.symbol in s'.cache.trades
    ensures s'.cache.books[req.symbol] == Snapshot(s'.books[req.symbol].bids, s'.books[req.symbol].asks)
    ensures s'.cache.trades[req.symbol] == if req.symbol in s'.market then s'.market[req.symbol] else []
    ensures Touches(req, trades, a) ==>
              a in s'.wallet && a in s'.cache.accounts && s'.cache.accounts[a] == s'.wallet[a]
  {
    hide Accepted;
    hide FinalState;
    hide Executed;
    hide ReservedState;
    hide Served;
    hide ParseSide;
    hide Bal;
    hide Record;
    var sym, p := ServedIsAccepted(s, req, id, s', o, trades);
    FinalMarketIs(s, sym, p);
    FinalBooksAre(s, sym, p);
    FinalAccount(s, sym, p, a);
    ChangedAreTouched(s, sym, p, a);
    FinalAccounts(s, sym, p);
  }

  // ----- rejections

  /** What is wrong with a request, in the order the checks are made. */
  lemma RequestRejectedFor(s: State, req: Request, id: string)
    requires Good(s) && id !in s.db.orders && s.books.Keys == s.symbols.Keys
    ensures req.symbol !in s.symbols ==> PlaceOrder(s, req, id) == Rejected(UnsupportedSymbol(req.symbol))
    ensures req.symbol in s.symbols && ParseSide(req.side).None? ==>
              PlaceOrder(s, req, id) == Rejected(UnsupportedSide(req.side))
    ensures req.symbol in s.symbols && ParseSide(req.side).Some? ==>
              var asset := if ParseSide(req.side) == Some(BuySide) then s.symbols[req.symbol].quote
                           else s.symbols[req.symbol].base;
              var cost := if ParseSide(req.side) == Some(BuySide) then req.price * req.quantity else req.quantity;
              var placed := PlaceOrder(s, req, id);
              if req.price <= 0.0 then placed == Rejected(PriceNotPositive)
              else if req.quantity <= 0.0 then placed == Rejected(QuantityNotPositive)
              else if Bal(s.wallet, req.account, asset).available < cost then
                placed == Rejected(InsufficientAvailable(asset))
              else placed.Placed?
  {
    hide Good;
    hide ParseSide;
    hide Bal;
    hide Reserve;
    hide SyncAccount;
    hide Execute;
    hide NoConflict;
    hide Booked;
    GoodWellFormed(s);
    PlacedIff(s, req, id);
  }
}
