/** What the operations of the running exchange rely on, in terms of values: the fill loop's
    invariant, the write-back of changed accounts and orders, and the pieces a placed order and a
    restart are assembled from. */
module Steps {
  import opened Domain
  import opened Matching
  import opened Priority
  import opened BookModel
  import opened WalletModel
  import opened Settlement
  import opened Recovery
  import opened Machine
  import opened Invariant
  import opened Executing
  import opened Syncing
  import opened OrderRecords
  import opened Placing
  import opened Restarting
  import opened Runs
  import opened OrderBooks
  import opened Wallets
  import opened Stores
  import opened Patching

  /** The loop's invariant over values: what is settled, followed by what settling the remaining
      fills would still do, is the specified result; `shown` is what the makers' records show. */
  ghost predicate Settling(x: Settled, snaps: Accounts, w: Accounts, symbol: Symbol, taker: Order,
                           done: seq<Fill>,
                           shown: seq<Order>, before: seq<Order>, taken: Accounts, i: nat)
  {
    && i <= |done| <= |shown| == |before|
    && shown[i..] == before[i..]
    && var now := Settlement.SettleFills(w, symbol, taker, done[i..]);
    && x == Settled(now.err, now.accounts, now.taker, shown[..i] + now.makers)
    && snaps == Snapshots(w, symbol, taker, done[i..], taken)
  }

  /** How the fill loop ends: the wallet, the taker and the makers' records show the result, the fills
      after a failed one left no trace, and without a failure all are settled. */
  ghost predicate SettledUpTo(err: Option<Error>, x: Settled, w: Accounts, taker: Order, done: seq<Fill>,
                              shown: seq<Order>, before: seq<Order>)
  {
    && err == x.err && w == x.accounts && taker == x.taker
    && |x.makers| <= |done| <= |before| && (err.None? ==> |x.makers| == |done|)
    && shown == x.makers + before[|x.makers|..]
  }

  /** After a round that settled its fill the loop goes on; after one that failed, everything is final. */
  ghost predicate AfterRound(err: Option<Error>, x: Settled, snaps: Accounts, w: Accounts, symbol: Symbol,
                             taker: Order, done: seq<Fill>, shown: seq<Order>, before: seq<Order>, taken: Accounts,
                             n: nat)
  {
    if err.None? then Settling(x, snaps, w, symbol, taker, done, shown, before, taken, n)
    else SettledUpTo(err, x, w, taker, done, shown, before) && taken == snaps && |x.makers| == n
  }

  /** The snapshots a fill loop collects, beginning with the accepted order's account. */
  ghost function FirstSnapshots(w: Accounts, symbol: Symbol, taker: Order, done: seq<Fill>): Accounts {
    Snapshots(w, symbol, taker, done, map[taker.account := WalletModel.GetAccount(w, taker.account)])
  }

  lemma SettlingBegins(w: Accounts, symbol: Symbol, taker: Order, done: seq<Fill>, before: seq<Order>)
    requires |done| <= |before|
    ensures AfterRound(None, Settlement.SettleFills(w, symbol, taker, done), FirstSnapshots(w, symbol, taker, done), w,
                       symbol, taker, done, before, before,
                       map[taker.account := WalletModel.GetAccount(w, taker.account)], 0)
  {
    assert done[0..] == done && before[..0] == [];
    var now := Settlement.SettleFills(w, symbol, taker, done);
    assert [] + now.makers == now.makers;
  }

  lemma SettlingStep(x: Settled, snaps: Accounts, w: Accounts, symbol: Symbol, taker: Order, done: seq<Fill>,
                     shown: seq<Order>, before: seq<Order>, taken: Accounts, i: nat)
    requires Settling(x, snaps, w, symbol, taker, done, shown, before, taken, i) && i < |done|
    requires before[i] == done[i].maker
    ensures shown[i] == done[i].maker
    ensures var a := Settlement.ApplyTrade(w, symbol, done[i].maker, taker, done[i].trade);
            && (a.err.Some? ==>
                  && a.maker == shown[i] && a.taker == taker
                  && AfterRound(a.err, x, snaps, a.accounts, symbol, taker, done, shown, before, taken, i))
            && (a.err.None? ==>
                  Settling(x, snaps, a.accounts, symbol, a.taker, done, shown[i := a.maker], before,
                           taken[done[i].maker.account := WalletModel.GetAccount(a.accounts, done[i].maker.account)]
                           [taker.account := WalletModel.GetAccount(a.accounts, taker.account)], i + 1))
  {
    hide Settlement.ApplyTrade;
    var a := Settlement.ApplyTrade(w, symbol, done[i].maker, taker, done[i].trade);
    FailureKeepsRecords(w, symbol, done[i].maker, taker, done[i].trade);
    assert done[i..][0] == done[i] && done[i..][1..] == done[i + 1..];
    assert shown[i..][0] == shown[i] && before[i..][0] == before[i] && shown == shown[..i] + shown[i..];
    if a.err.None? {
      var shown' := shown[i := a.maker];
      assert shown'[i + 1..] == shown[i..][1..] == before[i..][1..] == before[i + 1..];
      var now := Settlement.SettleFills(w, symbol, taker, done[i..]);
      var next := Settlement.SettleFills(a.accounts, symbol, a.taker, done[i + 1..]);
      assert shown[..i] + now.makers == shown'[..i + 1] + next.makers;
    }
  }

  lemma FailureKeepsRecords(w: Accounts, symbol: Symbol, maker: Order, taker: Order, tr: Trade)
    ensures var a := Settlement.ApplyTrade(w, symbol, maker, taker, tr);
            a.err.Some? ==> a.maker == maker && a.taker == taker
  {
    hide WalletModel.Settle;
  }

  lemma SettlingEnds(err: Option<Error>, x: Settled, snaps: Accounts, w: Accounts, symbol: Symbol, taker: Order,
                     done: seq<Fill>, shown: seq<Order>, before: seq<Order>, taken: Accounts, n: nat)
    requires AfterRound(err, x, snaps, w, symbol, taker, done, shown, before, taken, n)
    requires err.None? ==> n == |done|
    ensures SettledUpTo(err, x, w, taker, done, shown, before) && |x.makers| == n && taken == snaps
  {
    if err.None? {
      assert done[n..] == [];
      assert shown == shown[..n] + shown[n..];
    }
  }

  /** The rows the changed accounts are stored as. */
  function Rows(table0: Accounts, changed: Accounts): Accounts {
    map a | a in changed ::
      var t := Machine.PersistAccount(table0, changed[a]).table;
      if a in t then t[a] else changed[a]
  }

  lemma RowsArePersisted(table0: Accounts, changed: Accounts)
    ensures PersistAll(table0, changed) == table0 + Rows(table0, changed)
  {
    hide Machine.PersistAccount;
  }

  /** Every account is filed under its own id. */
  ghost predicate OwnIds(changed: Accounts) {
    forall a | a in changed :: changed[a].id == a
  }

  function Only(changed: Accounts, ids: set<string>): Accounts {
    map a | a in changed && a in ids :: changed[a]
  }

  ghost predicate AllGood(table0: Accounts, changed: Accounts, ids: set<string>) {
    ids <= changed.Keys && forall a | a in ids :: Machine.PersistAccount(table0, changed[a]).err.None?
  }

  /** How a write-back ends: all that was written could be, and either that is everything or the error is
      the version conflict of an account that was not written. */
  ghost predicate Written(err: Option<Error>, table0: Accounts, changed: Accounts, written: set<string>) {
    && AllGood(table0, changed, written)
    && (err.None? ==> written == changed.Keys)
    && (err.Some? ==>
          exists a :: a in changed && a !in written && Machine.PersistAccount(table0, changed[a]).err == err)
  }

  lemma WrittenNone(table0: Accounts, changed: Accounts)
    ensures AllGood(table0, changed, {})
  {
  }

  lemma WrittenNext(table0: Accounts, changed: Accounts, written: set<string>, a: string)
    requires AllGood(table0, changed, written) && a in changed
    requires Machine.PersistAccount(table0, changed[a]).err.None?
    ensures AllGood(table0, changed, written + {a})
  {
  }

  lemma WrittenUntil(err: Option<Error>, table0: Accounts, changed: Accounts, written: set<string>, a: string)
    requires AllGood(table0, changed, written) && a in changed && a !in written
    requires err.Some? && Machine.PersistAccount(table0, changed[a]).err == err
    ensures Written(err, table0, changed, written)
  {
    hide Machine.PersistAccount;
  }

  lemma WrittenAll(table0: Accounts, changed: Accounts)
    requires AllGood(table0, changed, changed.Keys)
    ensures Written(None, table0, changed, changed.Keys)
  {
    hide Machine.PersistAccount;
  }

  /** A write-back succeeds exactly when no account conflicts, in whatever order they are taken. */
  lemma WrittenIff(err: Option<Error>, table0: Accounts, changed: Accounts, written: set<string>)
    requires Written(err, table0, changed, written) && OwnIds(changed)
    ensures err.None? <==> NoConflict(table0, changed)
    ensures err.None? ==> Only(changed, written) == changed
    ensures NoConflict(table0, Only(changed, written))
  {
    hide Machine.PersistAccount;
    var w := Only(changed, written);
    assert forall a | a in w :: a in written && w[a] == changed[a];
  }

  /** The tables once the accounts in `written` are persisted. */
  lemma PatchedSome(table0: Accounts, changed: Accounts, w0: Accounts, w: Accounts, table: Accounts,
                    written: set<string>)
    requires Patched(table0, Rows(table0, changed), written, table)
    requires Patched(w0, Bumped(table0, changed), written, w)
    ensures table == PersistAll(table0, Only(changed, written))
    ensures w == w0 + Bumped(table0, Only(changed, written))
  {
    hide Machine.PersistAccount;
    hide PersistAll;
    hide Patched;
    hide Rows;
    hide Bumped;
    hide Only;
    PatchKeys(table0, changed);
    PatchedWithin(w0, Bumped(table0, changed), written, w);
    RowsOfSome(table0, changed, written);
    RowsArePersisted(table0, Only(changed, written));
    PatchedPart(table0, Rows(table0, changed), written, table, Rows(table0, Only(changed, written)));
    PatchedPart(w0, Bumped(table0, changed), written, w, Bumped(table0, Only(changed, written)));
  }

  lemma RowsOfSome(table0: Accounts, changed: Accounts, ids: set<string>)
    requires ids <= changed.Keys
    ensures var rows, some := Rows(table0, changed), Rows(table0, Only(changed, ids));
            some.Keys == ids <= rows.Keys && forall a | a in ids :: some[a] == rows[a]
    ensures var bumped, some := Bumped(table0, changed), Bumped(table0, Only(changed, ids));
            some.Keys == ids <= bumped.Keys && forall a | a in ids :: some[a] == bumped[a]
  {
    hide Machine.PersistAccount;
  }

  /** Persisting an account reads and writes its own row only. */
  lemma OwnRowOnly(table0: Accounts, changed: Accounts, table: Accounts, a: string)
    requires OwnIds(changed) && a in changed
    requires (a in table <==> a in table0) && (a in table ==> table[a] == table0[a])
    ensures var p := Machine.PersistAccount(table, changed[a]);
            && p.err == Machine.PersistAccount(table0, changed[a]).err
            && (p.err.Some? ==> p.table == table)
            && (p.err.None? ==>
                  && p.account == Bumped(table0, changed)[a] && p.account.id == a
                  && p.table == table[a := Rows(table0, changed)[a]])
  {
    assert changed[a].id == a;
  }

  lemma PatchKeys(table0: Accounts, changed: Accounts)
    ensures Rows(table0, changed).Keys == changed.Keys == Bumped(table0, changed).Keys
  {
    hide Machine.PersistAccount;
  }

  /** Upserting a record that differs from its stored row in progress only, or is new, replaces the row. */
  lemma UpsertReplaces(table0: map<string, Order>, table: map<string, Order>, o: Order)
    requires o.id in table0 ==> SameIdentity(table0[o.id], o)
    requires (o.id in table <==> o.id in table0) && (o.id in table ==> table[o.id] == table0[o.id])
    ensures PostgresStore.Upsert(table, o) == table[o.id := o]
  {
  }

  /** Settling leaves every record's remainder as matching left it, also when it fails. */
  lemma {:induction false} SettleKeepsRemaining(w: Accounts, symbol: Symbol, taker: Order, fills: seq<Fill>)
    ensures var x := Settlement.SettleFills(w, symbol, taker, fills);
            && (if x.err.None? then |x.makers| == |fills| else |x.makers| < |fills|)
            && (forall i | 0 <= i < |x.makers| :: x.makers[i].remaining == fills[i].maker.remaining)
            && x.taker == taker.(reserved := x.taker.reserved, status := x.taker.status)
    decreases |fills|
  {
    hide Settlement.ApplyTrade;
    if fills != [] {
      var a := Settlement.ApplyTrade(w, symbol, fills[0].maker, taker, fills[0].trade);
      ApplyKeepsRemaining(w, symbol, fills[0].maker, taker, fills[0].trade);
      SettleKeepsRemaining(a.accounts, symbol, a.taker, fills[1..]);
    }
  }

  /** Refreshing the settled records in the shared side is what the references show by themselves. */
  lemma RefreshedByReference(shown: seq<Order>, tail: seq<Order>, filled: seq<Order>, makers: seq<Order>)
    requires |filled| == |makers| && shown == filled + tail
    requires forall i | 0 <= i < |makers| :: makers[i].remaining == filled[i].remaining
    ensures (makers + tail)[FirstLeft(shown, |filled|)..] == Refreshed(shown[FirstLeft(shown, |filled|)..], makers)
  {
    var n := |filled|;
    assert (makers + tail)[n..] == tail == shown[n..];
    if n > 0 {
      assert shown[n - 1] == filled[n - 1];
      assert shown[n - 1..] == [filled[n - 1]] + tail && (makers + tail)[n - 1..] == [makers[n - 1]] + tail;
      assert shown[n - 1..][1..] == tail;
    }
  }

  /** What the changed records show. */
  function ChangedViews(taker: Order, makers: seq<Order>): map<string, Order> {
    map[taker.id := taker] + OrdersById(makers)
  }

  lemma MatchedTaker(t: Order, side: seq<Order>)
    ensures Match(t, side).taker == t.(remaining := Match(t, side).taker.remaining)
  {
    MatchKeepsTaker(t, side);
  }

  lemma ReleaseKeepsRest(w: Accounts, symbol: Symbol, o: Order)
    ensures var o' := WalletModel.ReleaseRemaining(w, symbol, o).1; o' == o.(reserved := o'.reserved)
  {
  }

  lemma DepositSucceeds(s: State, id: string, asset: string, amount: real)
    requires Good(s) && amount > 0.0
    ensures var credited := Credited(WalletModel.GetAccount(s.wallet, id), asset, amount);
            var p := Machine.PersistAccount(s.db.accounts, credited);
            p.err.None? && credited.id == id && p.account.id == id
  {
    hide Good;
    GoodWellFormed(s);
  }

  lemma ChangedInTable(orders: map<string, Order>, e: Execution)
    ensures orders + ChangedViews(e.taker, e.makers) == After(orders, e)
    ensures forall id | id in ChangedViews(e.taker, e.makers) ::
              After(orders, e)[id] == ChangedViews(e.taker, e.makers)[id]
  {
    hide OrdersById;
  }

  lemma ChangedIdentity(orders: map<string, Order>, b: Book, n: string, o: Order, e: Execution)
    requires Known(orders, b, n) && ExecShape(b, o, e) && o.id !in orders
    ensures forall id | id in ChangedViews(e.taker, e.makers) && id in orders ::
              SameIdentity(orders[id], ChangedViews(e.taker, e.makers)[id])
    ensures e.taker.id == o.id
  {
    hide ExecShape;
    hide Known;
    hide After;
    hide ChangedViews;
    hide SameIdentity;
    ChangedInTable(orders, e);
    AfterIdentity(orders, b, n, o, e);
    TakerId(b, o, e);
  }

  /** The changed records are those of the order table after the execution, and keep their identity. */
  lemma ChangedAreKnown(s: State, sym: Symbol, o: Order)
    requires Accepted(s, sym, o)
    ensures var e := Executed(s, sym, o);
            var views := ChangedViews(e.taker, e.makers);
            && (forall id | id in views && id in s.db.orders :: SameIdentity(s.db.orders[id], views[id]))
            && s.db.orders + views == After(s.db.orders, e)
            && e.taker.id == o.id
  {
    hide Executed;
    hide ReservedOrder;
    hide ExecShape;
    hide Known;
    hide ChangedViews;
    hide SameIdentity;
    hide After;
    hide Good;
    hide Validate;
    GoodParts(s);
    var b, o1, e := s.books[o.symbol], ReservedOrder(s, sym, o), Executed(s, sym, o);
    ExecutionSucceeds(s, sym, o);
    ReservedIsKnown(s, sym, o);
    ReservedId(s, sym, o);
    ChangedInTable(s.db.orders, e);
    ChangedIdentity(s.db.orders, b, o.symbol, o1, e);
  }

  lemma ReservedId(s: State, sym: Symbol, o: Order)
    ensures ReservedOrder(s, sym, o).id == o.id
  {
  }

  lemma ReservedIsSynced(s: State, sym: Symbol, o: Order)
    requires Accepted(s, sym, o)
    ensures var r := WalletModel.Reserve(s.wallet, sym, o);
            var p := Machine.PersistAccount(s.db.accounts, WalletModel.GetAccount(r.accounts, o.account));
            && r.err.None? && p.err.None? && ReservedOrder(s, sym, o) == r.order
            && ReservedState(s, sym, o) ==
               s.(wallet := r.accounts[p.account.id := p.account], db := s.db.(accounts := p.table),
               cache := s.cache.(accounts := s.cache.accounts[p.account.id := p.account]))
  {
    hide Good;
    hide Validate;
    hide Machine.PersistAccount;
    hide WalletModel.Reserve;
    ReservationSucceeds(s, sym, o);
  }

  lemma FinalIsAssembled(s: State, sym: Symbol, o: Order, f: State)
    requires Accepted(s, sym, o)
    requires var s1, e := ReservedState(s, sym, o), Executed(s, sym, o);
             var bumped := Bumped(s1.db.accounts, e.changed);
             && f.symbols == s1.symbols && f.books == s1.books[o.symbol := e.book]
             && f.wallet == e.accounts + bumped
             && f.db == Db(PersistAll(s1.db.accounts, e.changed), s1.db.orders + ChangedViews(e.taker, e.makers),
                           s1.db.trades + e.trades, s1.db.audit + [OrderAccepted(e.taker, |e.trades|)]
                           + TradeEvents(e.trades, e.taker.id))
             && f.market == Machine.Record(s1.market, o.symbol, e.trades)
             && f.cache == Cache(s1.cache.accounts + bumped, s1.cache.books[o.symbol := BookSnapshot(e.book)],
                                 s1.cache.trades[o.symbol := MarketTrades(f.market, o.symbol)])
    ensures f == FinalState(s, sym, o)
  {
    hide Good;
    hide Validate;
    hide Executed;
    hide ReservedState;
    hide ChangedViews;
    hide OrdersById;
    hide PersistAll;
    hide Bumped;
    hide Machine.Record;
    hide MarketTrades;
    hide TradeEvents;
    GoodParts(s);
    ReservationSucceeds(s, sym, o);
    ChangedInTable(s.db.orders, Executed(s, sym, o));
    var f' := FinalState(s, sym, o);
    assert f.db.audit == f'.db.audit;
  }

  lemma ExecutedFromReserved(s: State, sym: Symbol, o: Order)
    requires Accepted(s, sym, o)
    ensures o.symbol in s.books
    ensures var s1, e := ReservedState(s, sym, o), Executed(s, sym, o);
            && e == Execute(s1.wallet, sym, s.books[o.symbol], ReservedOrder(s, sym, o)) && e.err.None?
            && NoConflict(s1.db.accounts, e.changed)
            && s1.books == s.books && s1.db.orders == s.db.orders
    ensures var views := ChangedViews(Executed(s, sym, o).taker, Executed(s, sym, o).makers);
            forall id | id in views && id in s.db.orders :: SameIdentity(s.db.orders[id], views[id])
    ensures Executed(s, sym, o).taker.id == o.id
  {
    hide Good;
    hide Validate;
    hide ReservedState;
    hide ReservedOrder;
    hide Execute;
    hide ExecShape;
    hide NoConflict;
    hide ChangedViews;
    hide SameIdentity;
    GoodParts(s);
    ReservationSucceeds(s, sym, o);
    ExecutionSucceeds(s, sym, o);
    ChangedAreKnown(s, sym, o);
  }

  lemma AcceptedInBooks(s: State, symbol: Symbol, o: Order)
    requires Accepted(s, symbol, o)
    ensures o.symbol in s.books && ReservedState(s, symbol, o).books == s.books
  {
    hide Good;
    hide ReservedState;
    GoodParts(s);
    ReservationSucceeds(s, symbol, o);
  }

  lemma FinalBook(s: State, sym: Symbol, o: Order)
    requires Accepted(s, sym, o)
    ensures o.symbol in s.books && o.symbol in FinalState(s, sym, o).books
    ensures FinalState(s, sym, o).books[o.symbol] == Executed(s, sym, o).book
  {
    hide FinalState;
    hide Executed;
    hide Good;
    GoodParts(s);
    FinalBooksAre(s, sym, o);
  }

  /** What warming the caches puts in them. */
  ghost function WarmBooks(s: State): map<string, Snapshot> {
    map n | n in s.symbols && n in s.books :: Snapshot(s.books[n].bids, s.books[n].asks)
  }

  ghost function WarmTrades(s: State): map<string, seq<Trade>> {
    map n | n in s.symbols :: MarketTrades(s.market, n)
  }

  lemma Warm(s: State)
    requires s.books.Keys == s.symbols.Keys
    ensures WarmBooks(s).Keys == s.symbols.Keys == WarmTrades(s).Keys
    ensures forall n | n in s.symbols :: WarmBooks(s)[n] == BookSnapshot(s.books[n])
    ensures forall n | n in s.symbols :: WarmTrades(s)[n] == MarketTrades(s.market, n)
    ensures Warmed(s) == Cache(s.cache.accounts, s.cache.books + WarmBooks(s), s.cache.trades + WarmTrades(s))
  {
    hide MarketTrades;
  }
}
