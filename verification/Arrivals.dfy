/** Arrival numbers over the whole history: when two orders of a symbol carry the same one. */
module Arrivals {
  import opened Domain
  import opened Matching
  import opened Priority
  import opened BookModel
  import opened WalletModel
  import opened Settlement
  import opened Recovery
  import opened Machine
  import opened Invariant
  import opened Executing
  import opened OrderRecords
  import opened Placing
  import opened Restarting
  import opened Runs

  /** No two recorded orders of the symbol carry the same arrival number. */
  ghost predicate DistinctArrivals(orders: map<string, Order>, n: string) {
    forall id, id' | id in orders && id' in orders && id != id' && orders[id].symbol == n == orders[id'].symbol ::
      orders[id].sequence != orders[id'].sequence
  }

  ghost predicate Issued(orders: map<string, Order>, n: string, k: int) {
    exists id :: id in orders && orders[id].symbol == n && orders[id].sequence == k
  }

  /** The command places an order of the symbol while its counter stands below a recorded arrival number. */
  ghost predicate PlacedBehind(s: State, c: Command, n: string) {
    && c.DoPlace? && c.req.symbol == n && s.books.Keys == s.symbols.Keys && n in s.books
    && PlaceOrder(s, c.req, c.id).Placed?
    && exists id :: id in s.db.orders && s.db.orders[id].symbol == n && s.db.orders[id].sequence > s.books[n].seqNo
  }

  ghost predicate EverPlacedBehind(s: State, run: seq<Command>, n: string)
    requires Legal(s, run)
    decreases |run|
  {
    run != [] && (PlacedBehind(s, run[0], n) || EverPlacedBehind(Do(s, run[0]), run[1..], n))
  }

  /** The recorded arrival numbers of a symbol run from one without gaps, and its counter is one of them
      or zero. */
  ghost predicate Contiguous(orders: map<string, Order>, counter: int, n: string) {
    && (forall id | id in orders && orders[id].symbol == n :: orders[id].sequence >= 1)
    && (forall id, k: int | id in orders && orders[id].symbol == n && 1 <= k <= orders[id].sequence ::
          Issued(orders, n, k))
    && counter >= 0 && (counter == 0 || Issued(orders, n, counter))
  }

  // ----- what a placed order does to the arrival numbers

  ghost predicate SameArrivals(orders: map<string, Order>, orders': map<string, Order>, n: string) {
    && (forall id | id in orders && orders[id].symbol == n ::
          id in orders' && orders'[id].symbol == n && orders'[id].sequence == orders[id].sequence)
    && (forall id | id in orders' && orders'[id].symbol == n :: id in orders && orders[id].symbol == n)
  }

  lemma AfterArrivals(orders: map<string, Order>, b: Book, n: string, o: Order, e: Execution)
    requires Known(orders, b, n) && ExecShape(b, o, e) && o.id !in orders
    ensures var orders' := After(orders, e);
            && (forall id | id in orders ::
                  && id in orders' && orders'[id].symbol == orders[id].symbol
                  && orders'[id].sequence == orders[id].sequence)
            && (forall id | id in orders' :: id in orders || id == o.id)
            && o.id in orders' && orders'[o.id].symbol == o.symbol && orders'[o.id].sequence == b.seqNo + 1
  {
    hide BookOk;
    hide After;
    hide RestShape;
    AfterLookup(orders, b, n, o, e);
    MakerIds(orders, b, n, o, e);
    var orders' := After(orders, e);
    forall id | id in orders
      ensures id in orders' && orders'[id].symbol == orders[id].symbol && orders'[id].sequence == orders[id].sequence
    {
      if orders'[id] != orders[id] {
        var i :| 0 <= i < |e.makers| && e.makers[i].id == id && orders'[id] == e.makers[i];
        assert InBook(b, Opposite(b, o.side)[i]);
      }
    }
  }

  lemma CounterAdvances(s: State, sym: Symbol, o: Order)
    requires Accepted(s, sym, o)
    ensures o.symbol in s.books && Executed(s, sym, o).book.seqNo == s.books[o.symbol].seqNo + 1
  {
    hide Good;
    hide Validate;
    hide Execute;
    hide ReservedState;
    hide ReservedOrder;
    hide ExecShape;
    hide BookOk;
    GoodParts(s);
    ExecutionSucceeds(s, sym, o);
    ExecuteSubmits(ReservedState(s, sym, o).wallet, sym, s.books[o.symbol], ReservedOrder(s, sym, o));
  }

  lemma PlacedRecords(s: State, sym: Symbol, o: Order)
    requires Accepted(s, sym, o)
    ensures o.symbol in s.books
    ensures var orders' := FinalState(s, sym, o).db.orders;
            && (forall id | id in s.db.orders ::
                  && id in orders' && orders'[id].symbol == s.db.orders[id].symbol
                  && orders'[id].sequence == s.db.orders[id].sequence)
            && (forall id | id in orders' :: id in s.db.orders || id == o.id)
            && o.id in orders' && orders'[o.id].symbol == o.symbol
            && orders'[o.id].sequence == s.books[o.symbol].seqNo + 1
  {
    hide FinalState;
    hide ReservedOrder;
    hide Executed;
    hide After;
    hide ExecShape;
    hide Known;
    hide Good;
    hide Validate;
    hide BookOk;
    GoodParts(s);
    ExecutionSucceeds(s, sym, o);
    ReservedIsKnown(s, sym, o);
    ReservedSameId(s, sym, o);
    FinalRecordsAre(s, sym, o);
    AfterArrivals(s.db.orders, s.books[o.symbol], o.symbol, ReservedOrder(s, sym, o), Executed(s, sym, o));
  }

  /** A placed order is recorded under the next arrival number of its book; all others keep theirs. */
  lemma PlacedArrival(s: State, sym: Symbol, o: Order)
    requires Accepted(s, sym, o)
    ensures var s' := FinalState(s, sym, o);
            && s'.books.Keys == s.books.Keys && o.symbol in s.books
            && (forall id | id in s.db.orders ::
                  && id in s'.db.orders && s'.db.orders[id].symbol == s.db.orders[id].symbol
                  && s'.db.orders[id].sequence == s.db.orders[id].sequence)
            && (forall id | id in s'.db.orders :: id in s.db.orders || id == o.id)
            && o.id in s'.db.orders && s'.db.orders[o.id].symbol == o.symbol
            && s'.db.orders[o.id].sequence == s'.books[o.symbol].seqNo == s.books[o.symbol].seqNo + 1
            && (forall m | m in s.books && m != o.symbol :: s'.books[m] == s.books[m])
  {
    hide FinalState;
    hide Executed;
    hide Accepted;
    PlacedRecords(s, sym, o);
    FinalBooksAre(s, sym, o);
    CounterAdvances(s, sym, o);
  }

  lemma ReservedSameId(s: State, sym: Symbol, o: Order)
    ensures ReservedOrder(s, sym, o).id == o.id
  {
  }

  // ----- steps

  /** Nothing is placed on the symbol: its recorded numbers stay and the counter can at most drop to
      one of them, or to zero. */
  lemma QuietStep(orders: map<string, Order>, orders': map<string, Order>, c: int, c': int, n: string)
    requires Contiguous(orders, c, n) && SameArrivals(orders, orders', n)
    requires c' == c || c' == 0 || Issued(orders, n, c')
    requires c' >= 0
    ensures Contiguous(orders', c', n)
    ensures DistinctArrivals(orders', n) <==> DistinctArrivals(orders, n)
  {
    hide Issued;
    forall k: int | Issued(orders, n, k)
      ensures Issued(orders', n, k)
    {
      SameIssued(orders, orders', n, k);
    }
    if DistinctArrivals(orders', n) {
      forall id, id' | id in orders && id' in orders && id != id' && orders[id].symbol == n == orders[id'].symbol
        ensures orders[id].sequence != orders[id'].sequence
      {
        assert orders'[id].sequence != orders'[id'].sequence;
      }
    }
  }

  lemma SameIssued(orders: map<string, Order>, orders': map<string, Order>, n: string, k: int)
    requires SameArrivals(orders, orders', n) && Issued(orders, n, k)
    ensures Issued(orders', n, k)
  {
  }

  /** One order is recorded under the number after the counter: a number of its own exactly when the
      counter stood at the last recorded one. */
  lemma PlacedStep(orders: map<string, Order>, orders': map<string, Order>, c: int, n: string, newest: string)
    requires Contiguous(orders, c, n) && newest !in orders && newest in orders'
    requires orders'[newest].symbol == n && orders'[newest].sequence == c + 1
    requires forall id | id in orders ::
               id in orders' && orders'[id].symbol == orders[id].symbol && orders'[id].sequence == orders[id].sequence
    requires forall id | id in orders' :: id in orders || id == newest
    ensures Contiguous(orders', c + 1, n)
    ensures DistinctArrivals(orders', n) <==>
            DistinctArrivals(orders, n) &&
            !exists id :: id in orders && orders[id].symbol == n && orders[id].sequence > c
  {
    hide Issued;
    forall k: int | 1 <= k <= c + 1 || Issued(orders, n, k)
      ensures Issued(orders', n, k)
    {
      IssuedNext(orders, orders', c, n, newest, k);
    }
    if DistinctArrivals(orders', n) {
      forall id, id' | id in orders && id' in orders && id != id' && orders[id].symbol == n == orders[id'].symbol
        ensures orders[id].sequence != orders[id'].sequence
      {
        assert orders'[id].sequence != orders'[id'].sequence;
      }
      forall id | id in orders && orders[id].symbol == n
        ensures orders[id].sequence <= c
      {
        if orders[id].sequence > c {
          assert Issued(orders, n, c + 1);
          OtherIssued(orders, orders', n, newest, c + 1);
        }
      }
    }
  }

  lemma IssuedNext(orders: map<string, Order>, orders': map<string, Order>, c: int, n: string, newest: string, k: int)
    requires Contiguous(orders, c, n) && newest in orders'
    requires orders'[newest].symbol == n && orders'[newest].sequence == c + 1
    requires forall id | id in orders ::
               id in orders' && orders'[id].symbol == orders[id].symbol && orders'[id].sequence == orders[id].sequence
    requires 1 <= k <= c + 1 || Issued(orders, n, k)
    ensures Issued(orders', n, k)
  {
    if k != c + 1 {
      if 1 <= k <= c {
        var last :| last in orders && orders[last].symbol == n && orders[last].sequence == c;
      }
      assert Issued(orders, n, k);
      var id :| id in orders && orders[id].symbol == n && orders[id].sequence == k;
      assert orders'[id].sequence == k;
    }
  }

  lemma OtherIssued(orders: map<string, Order>, orders': map<string, Order>, n: string, newest: string, k: int)
    requires Issued(orders, n, k) && newest !in orders && newest in orders'
    requires orders'[newest].symbol == n && orders'[newest].sequence == k
    requires forall id | id in orders ::
               id in orders' && orders'[id].symbol == orders[id].symbol && orders'[id].sequence == orders[id].sequence
    ensures !DistinctArrivals(orders', n)
  {
    var id :| id in orders && orders[id].symbol == n && orders[id].sequence == k;
    assert orders'[id].sequence == orders'[newest].sequence;
  }

  lemma ArrivalStep(s: State, c: Command, n: string)
    requires Good(s) && Allowed(s, c) && n in s.symbols && n in s.books && Contiguous(s.db.orders, s.books[n].seqNo, n)
    ensures s.books.Keys == s.symbols.Keys
    ensures var s' := Do(s, c);
            && s'.symbols == s.symbols && n in s'.books && Contiguous(s'.db.orders, s'.books[n].seqNo, n)
            && (DistinctArrivals(s'.db.orders, n) <==> DistinctArrivals(s.db.orders, n) && !PlacedBehind(s, c, n))
  {
    hide Good;
    hide PlaceOrder;
    hide Deposit;
    hide Restart;
    hide OpenOrders;
    hide Contiguous;
    hide DistinctArrivals;
    hide Issued;
    GoodCache(s);
    match c {
      case DoPlace(req, id) => PlaceArrivalStep(s, req, id, n);
      case DoRestart(os, trades) => RestartArrivalStep(s, os, trades, n);
      case DoDeposit(account, asset, amount) => DepositArrivalStep(s, account, asset, amount);
      case _ =>
    }
  }

  lemma DepositArrivalStep(s: State, account: string, asset: string, amount: real)
    requires Good(s)
    ensures var s' := Deposit(s, account, asset, amount).1;
            s'.symbols == s.symbols && s'.books == s.books && s'.db.orders == s.db.orders
  {
    hide Good;
    hide SyncAccount;
    hide Credited;
    if amount > 0.0 {
      DepositEffect(s, account, asset, amount);
    }
  }

  lemma RestartArrivalStep(s: State, os: seq<Order>, trades: seq<Trade>, n: string)
    requires Good(s) && OpenOrders(s.db, os) && n in s.symbols && n in s.books
    requires Contiguous(s.db.orders, s.books[n].seqNo, n)
    ensures var s' := Restart(s, os, trades).1;
            && s'.symbols == s.symbols && n in s'.books && Contiguous(s'.db.orders, s'.books[n].seqNo, n)
            && s'.db.orders == s.db.orders
  {
    hide Good;
    hide Restart;
    hide OpenOrders;
    hide DistinctArrivals;
    hide Ordered;
    RestartIsInvisible(s, os, trades);
    CounterSurvivesIff(s, os, trades, n);
    GoodTable(s);
    var now := Restart(s, os, trades).1.books[n].seqNo;
    if o :| InBook(s.books[n], o) && o.sequence == now {
      assert o.id in s.db.orders && s.db.orders[o.id] == o;
      assert Issued(s.db.orders, n, now);
    }
    QuietStep(s.db.orders, s.db.orders, s.books[n].seqNo, now, n);
  }

  lemma PlaceArrivalStep(s: State, req: Request, id: string, n: string)
    requires Good(s) && id !in s.db.orders && n in s.symbols && n in s.books
    requires Contiguous(s.db.orders, s.books[n].seqNo, n)
    ensures s.books.Keys == s.symbols.Keys
    ensures var s' := Do(s, DoPlace(req, id));
            && s'.symbols == s.symbols && n in s'.books && Contiguous(s'.db.orders, s'.books[n].seqNo, n)
            && (DistinctArrivals(s'.db.orders, n) <==>
                DistinctArrivals(s.db.orders, n) && !PlacedBehind(s, DoPlace(req, id), n))
  {
    hide Good;
    hide Validate;
    hide ParseSide;
    hide Reserve;
    hide SyncAccount;
    hide Execute;
    hide NoConflict;
    hide Booked;
    hide FinalState;
    hide Executed;
    hide Accepted;
    hide Contiguous;
    hide DistinctArrivals;
    GoodCache(s);
    if req.symbol in s.symbols && ParseSide(req.side).Some? {
      var o, sym := NewOrder(req, ParseSide(req.side).value, id), s.symbols[req.symbol];
      if Validate(s.wallet, sym, o).None? {
        AcceptedIsPlaced(s, req, id);
        PlacedArrival(s, sym, o);
        FinalBooksAre(s, sym, o);
        var s' := FinalState(s, sym, o);
        if req.symbol == n {
          PlacedStep(s.db.orders, s'.db.orders, s.books[n].seqNo, n, id);
        } else {
          QuietStep(s.db.orders, s'.db.orders, s.books[n].seqNo, s.books[n].seqNo, n) by {
            assert s'.books[n] == s.books[n];
            CounterNotNegative(s.db.orders, s.books[n].seqNo, n);
          }
        }
      }
    }
  }

  lemma CounterNotNegative(orders: map<string, Order>, c: int, n: string)
    requires Contiguous(orders, c, n)
    ensures c >= 0
  {
  }

  // ----- runs

  lemma {:induction false} RunArrivals(s: State, run: seq<Command>, n: string)
    requires Good(s) && Legal(s, run) && n in s.symbols && n in s.books && Contiguous(s.db.orders, s.books[n].seqNo, n)
    ensures DistinctArrivals(RunAll(s, run).db.orders, n) <==>
            DistinctArrivals(s.db.orders, n) && !EverPlacedBehind(s, run, n)
    decreases |run|
  {
    hide Good;
    hide Do;
    hide Allowed;
    hide Contiguous;
    hide DistinctArrivals;
    hide PlacedBehind;
    if run != [] {
      ArrivalStep(s, run[0], n);
      StepKeepsGood(s, run[0]);
      RunArrivals(Do(s, run[0]), run[1..], n);
    }
  }

  /** After any run the recorded arrival numbers of a symbol are pairwise distinct exactly when no order
      of it was placed while its counter stood below a recorded one. */
  lemma ArrivalsDistinctIff(run: seq<Command>, n: string)
    requires Legal(Initial(MARKETS), run) && n in MARKETS
    ensures DistinctArrivals(RunAll(Initial(MARKETS), run).db.orders, n) <==>
            !EverPlacedBehind(Initial(MARKETS), run, n)
  {
    hide Good;
    hide Legal;
    hide RunAll;
    hide EverPlacedBehind;
    MarketsAreATable();
    InitialIsGood(MARKETS);
    RunArrivals(Initial(MARKETS), run, n);
  }
}
