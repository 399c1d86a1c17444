/** The exchange: the live order books, wallet, store, cache and market data behind the
    operations of the state machine. */
module Exchanges {
  import opened Domain
  import opened Matching
  import opened Priority
  import opened BookModel
  import opened WalletModel
  import opened Settlement
  import opened Recovery
  import opened Machine
  import opened Invariant
  import opened Executing
  import opened Syncing
  import opened OrderRecords
  import opened Placing
  import opened Restarting
  import opened Runs
  import opened OrderBooks
  import opened Wallets
  import opened Stores
  import opened Patching
  import opened Steps
  import opened StartUp
  import opened Requests

  datatype Reply = Reply(order: Order, trades: seq<Trade>, account: Account, orderbook: Snapshot)

  class Exchange {
    const symbols: Symbols
    const books: map<string, OrderBook>
    const wallet: Wallet
    const store: PostgresStore
    const cache: CacheStore
    const market: MarketData

    constructor Wire(symbols: Symbols, books: map<string, OrderBook>, wallet: Wallet, store: PostgresStore,
                     cache: CacheStore, market: MarketData)
      ensures this.symbols == symbols && this.books == books && this.wallet == wallet && this.store == store
      ensures this.cache == cache && this.market == market
    {
      this.symbols, this.books, this.wallet := symbols, books, wallet;
      this.store, this.cache, this.market := store, cache, market;
    }

    static method UpdateOrderStatus(order: LiveOrder)
      modifies order`status
      ensures order.View() == WithStatus(old(order.View()))
    {
      if order.remaining == 0.0 {
        order.status := Filled;
      } else if order.remaining < order.quantity {
        order.status := PartiallyFilled;
      } else {
        order.status := Open;
      }
    }

    /** Settle one fill on both sides, adjust both reservations and statuses, release a filled maker. */
    method ApplyTrade(fill: LiveFill, symbol: Symbol, accepted: LiveOrder) returns (err: Option<Error>)
      requires fill.maker != accepted
      modifies wallet, fill.maker`reserved, fill.maker`status, accepted`reserved, accepted`status
      ensures var a := Settlement.ApplyTrade(old(wallet.accounts), symbol, old(fill.maker.View()),
                                             old(accepted.View()), fill.trade);
              && err == a.err && wallet.accounts == a.accounts
              && fill.maker.View() == a.maker && accepted.View() == a.taker
    {
      hide WalletModel.Settle;
      hide WalletModel.ReleaseRemaining;
      hide Notional;
      var maker, trade := fill.maker, fill.trade;
      err := wallet.Settle(symbol, maker, trade.price, trade.quantity);
      if err.Some? {
        return;
      }
      err := wallet.Settle(symbol, accepted, trade.price, trade.quantity);
      if err.Some? {
        return;
      }
      if maker.side == BuySide {
        Wallet.AdjustRemainingReservation(maker, Notional(maker.price, trade.quantity));
      } else {
        Wallet.AdjustRemainingReservation(maker, trade.quantity);
      }
      if accepted.side == BuySide {
        Wallet.AdjustRemainingReservation(accepted, Notional(accepted.price, trade.quantity));
      } else {
        Wallet.AdjustRemainingReservation(accepted, trade.quantity);
      }
      UpdateOrderStatus(maker);
      UpdateOrderStatus(accepted);
      if maker.remaining == 0.0 {
        wallet.ReleaseRemaining(symbol, maker);
      }
    }

    // ----- the fill loop

    /** The records the loop notes as changed: the accepted order and the makers met so far. */
    static function ChangedRefs(accepted: LiveOrder, fills: seq<LiveFill>): map<string, LiveOrder> {
      if fills == [] then map[accepted.id := accepted]
      else ChangedRefs(accepted, fills[..|fills| - 1])[fills[|fills| - 1].maker.id := fills[|fills| - 1].maker]
    }

    static lemma ChangedRefsFirst(accepted: LiveOrder, fills: seq<LiveFill>)
      ensures ChangedRefs(accepted, fills[..0]) == map[accepted.id := accepted]
    {
    }

    static lemma ChangedRefsNext(accepted: LiveOrder, fills: seq<LiveFill>, i: nat)
      requires i < |fills|
      ensures ChangedRefs(accepted, fills[..i + 1]) ==
              ChangedRefs(accepted, fills[..i])[fills[i].maker.id := fills[i].maker]
    {
      assert fills[..i + 1][..i] == fills[..i];
    }

    /** One round of the fill loop: settle the i-th fill and retake the snapshots it may have outdated. */
    method SettleNext(fill: LiveFill, symbol: Symbol, accepted: LiveOrder, changedAccounts: Accounts,
                      ghost makers: seq<LiveOrder>, ghost done: seq<Fill>, ghost i: nat,
                      ghost x: Settled, ghost snaps: Accounts, ghost before: seq<Order>)
      returns (err: Option<Error>, taken: Accounts)
      requires NoDuplicates(makers) && accepted !in makers
      requires i < |done| <= |makers| && fill == LiveFill(makers[i], done[i].trade)
      requires AfterRound(None, x, snaps, wallet.accounts, symbol, accepted.View(), done, Views(makers), before,
                          changedAccounts, i)
      requires before[i] == done[i].maker
      modifies wallet, makers`reserved, makers`status, accepted`reserved, accepted`status
      ensures AfterRound(err, x, snaps, wallet.accounts, symbol, accepted.View(), done, Views(makers), before, taken,
                         if err.None? then i + 1 else i)
    {
      hide Settling;
      hide Settlement.ApplyTrade;
      hide Views;
      SettlingStep(x, snaps, wallet.accounts, symbol, accepted.View(), done, Views(makers), before, changedAccounts, i);
      ghost var shown := Views(makers);
      assert makers[i].View() == shown[i];
      err := ApplyTrade(fill, symbol, accepted);
      if err.Some? {
        return err, changedAccounts;
      }
      assert Views(makers) == shown[i := makers[i].View()];
      var makerAccount := wallet.GetAccount(fill.maker.account);
      taken := changedAccounts[fill.maker.account := makerAccount];
      var takerAccount := wallet.GetAccount(accepted.account);
      taken := taken[accepted.account := takerAccount];
    }

    /** Settle the fills one after the other, noting what changed. */
    method SettleFills(fills: seq<LiveFill>, symbol: Symbol, accepted: LiveOrder, ghost makers: seq<LiveOrder>,
                       ghost done: seq<Fill>)
      returns (err: Option<Error>, changedOrders: map<string, LiveOrder>, changedAccounts: Accounts)
      requires NoDuplicates(makers) && accepted !in makers
      requires |done| <= |makers| && OrderBook.PointInto(fills, makers, done)
      requires forall i | 0 <= i < |done| :: makers[i].View() == done[i].maker
      modifies wallet, makers`reserved, makers`status, accepted`reserved, accepted`status
      ensures var x := old(Settlement.SettleFills(wallet.accounts, symbol, accepted.View(), done));
              && SettledUpTo(err, x, wallet.accounts, accepted.View(), done, Views(makers), old(Views(makers)))
              && changedOrders == ChangedRefs(accepted, fills[..|x.makers|])
      ensures changedAccounts == old(FirstSnapshots(wallet.accounts, symbol, accepted.View(), done))
    {
      hide AfterRound;
      hide SettledUpTo;
      hide ChangedRefs;
      hide Settlement.SettleFills;
      hide FirstSnapshots;
      hide Views;
      hide NoDuplicates;
      hide Settlement.ApplyTrade;
      hide WalletModel.GetAccount;
      ghost var before, taker, w := Views(makers), accepted.View(), wallet.accounts;
      var account := wallet.GetAccount(accepted.account);
      changedOrders, changedAccounts := map[accepted.id := accepted], map[accepted.account := account];
      ghost var x := Settlement.SettleFills(w, symbol, taker, done);
      ghost var snaps := FirstSnapshots(w, symbol, taker, done);
      SettlingBegins(w, symbol, taker, done, before);
      ChangedRefsFirst(accepted, fills);
      err := None;
      ghost var settled: nat := 0;
      for i := 0 to |fills|
        invariant err.None? && settled == i
        invariant AfterRound(err, x, snaps, wallet.accounts, symbol, accepted.View(), done, Views(makers), before,
                             changedAccounts, i)
        invariant changedOrders == ChangedRefs(accepted, fills[..i])
      {
        err, changedAccounts := SettleNext(fills[i], symbol, accepted, changedAccounts, makers, done, i, x, snaps,
                                           before);
        if err.Some? {
          break;
        }
        ChangedRefsNext(accepted, fills, i);
        changedOrders := changedOrders[fills[i].maker.id := fills[i].maker];
        settled := i + 1;
      }
      SettlingEnds(err, x, snaps, wallet.accounts, symbol, accepted.View(), done, Views(makers), before,
                   changedAccounts, settled);
    }

    // ----- writing back

    /** Persist an account, then write it back to the wallet and the cache; `persisted` carries the new version. */
    method SyncAccount(account: Account) returns (err: Option<Error>, persisted: Account)
      modifies wallet, store`accounts, cache`accounts
      ensures Persisted(err, store.accounts, persisted) == Machine.PersistAccount(old(store.accounts), account)
      ensures err.Some? ==> wallet.accounts == old(wallet.accounts) && cache.accounts == old(cache.accounts)
      ensures err.None? ==>
                && wallet.accounts == old(wallet.accounts)[persisted.id := persisted]
                && cache.accounts == old(cache.accounts)[persisted.id := persisted]
      ensures BooksValue() == old(BooksValue())
    {
      hide BooksValue;
      hide Machine.PersistAccount;
      err, persisted := store.PersistAccount(account);
      if err.None? {
        wallet.ReplaceAccount(persisted);
        cache.accounts := cache.accounts[persisted.id := persisted];
      }
      assert Refs() == old(Refs());
    }

    /** Write the changed accounts back, in whatever order the map yields them. The first version conflict
        ends the loop; `written` are the accounts written by then, and they stay written. */
    method PersistChangedAccounts(changed: Accounts) returns (err: Option<Error>, ghost written: set<string>)
      requires OwnIds(changed)
      modifies wallet, store`accounts, cache`accounts
      ensures Written(err, old(store.accounts), changed, written)
      ensures store.accounts == PersistAll(old(store.accounts), Only(changed, written))
      ensures wallet.accounts == old(wallet.accounts) + Bumped(old(store.accounts), Only(changed, written))
      ensures cache.accounts == old(cache.accounts) + Bumped(old(store.accounts), Only(changed, written))
      ensures BooksValue() == old(BooksValue())
    {
      hide BooksValue;
      hide Refs;
      hide Patched;
      hide Machine.PersistAccount;
      hide OwnIds;
      hide Written;
      hide Bumped;
      hide Rows;
      hide PersistAll;
      hide Only;
      hide Splits;
      err, written := None, {};
      ghost var table0, w0, c0 := store.accounts, wallet.accounts, cache.accounts;
      ghost var rows, bumped := Rows(table0, changed), Bumped(table0, changed);
      PatchKeys(table0, changed);
      PatchedNone(table0, rows);
      PatchedNone(w0, bumped);
      PatchedNone(c0, bumped);
      SplitsFirst(changed.Keys);
      WrittenNone(table0, changed);
      var ids := changed.Keys;
      while ids != {}
        invariant Splits(changed.Keys, ids, written) && BooksValue() == old(BooksValue())
        invariant err.None? && AllGood(table0, changed, written)
        invariant Patched(table0, rows, written, store.accounts)
        invariant Patched(w0, bumped, written, wallet.accounts)
        invariant Patched(c0, bumped, written, cache.accounts)
        decreases |ids|
      {
        var id :| id in ids;
        SplitsNext(changed.Keys, ids, written, id);
        PatchedElsewhere(table0, rows, written, store.accounts, id);
        OwnRowOnly(table0, changed, store.accounts, id);
        PatchedOneMore(table0, rows, written, store.accounts, id);
        PatchedOneMore(w0, bumped, written, wallet.accounts, id);
        PatchedOneMore(c0, bumped, written, cache.accounts, id);
        var persisted;
        err, persisted := SyncAccount(changed[id]);
        if err.Some? {
          WrittenUntil(err, table0, changed, written, id);
          break;
        }
        WrittenNext(table0, changed, written, id);
        ids, written := ids - {id}, written + {id};
      }
      if err.None? {
        SplitsLast(changed.Keys, written);
        WrittenAll(table0, changed);
      }
      PatchedSome(table0, changed, w0, wallet.accounts, store.accounts, written);
      PatchedSome(table0, changed, c0, cache.accounts, store.accounts, written);
    }

    /** Write back accounts none of which conflicts with its row. */
    method PersistUnconflicted(changed: Accounts) returns (err: Option<Error>)
      requires NoConflict(store.accounts, changed)
      modifies wallet, store`accounts, cache`accounts
      ensures err.None?
      ensures store.accounts == PersistAll(old(store.accounts), changed)
      ensures wallet.accounts == old(wallet.accounts) + Bumped(old(store.accounts), changed)
      ensures cache.accounts == old(cache.accounts) + Bumped(old(store.accounts), changed)
      ensures BooksValue() == old(BooksValue())
    {
      hide BooksValue;
      hide Refs;
      hide Bumped;
      hide PersistAll;
      hide Written;
      hide Only;
      ghost var table0, written := store.accounts, {};
      assert OwnIds(changed);
      err, written := PersistChangedAccounts(changed);
      WrittenIff(err, table0, changed, written);
    }

    method PersistNextOrder(order: LiveOrder, ghost table0: map<string, Order>, ghost views: map<string, Order>,
                            ghost done: set<string>)
      requires Patched(table0, views, done, store.orders)
      requires order.id in views && order.id !in done && order.View() == views[order.id]
      requires order.id in table0 ==> SameIdentity(table0[order.id], views[order.id])
      modifies store`orders
      ensures Patched(table0, views, done + {order.id}, store.orders)
    {
      hide Patched;
      hide PostgresStore.Upsert;
      PatchedElsewhere(table0, views, done, store.orders, order.id);
      PatchedOneMore(table0, views, done, store.orders, order.id);
      UpsertReplaces(table0, store.orders, order.View());
      store.PersistOrder(order);
    }

    /** The changed records are filed under their ids and show the given orders. */
    static ghost predicate Show(refs: map<string, LiveOrder>, views: map<string, Order>)
      reads refs.Values
    {
      && refs.Keys == views.Keys
      && forall id | id in refs :: refs[id].View() == views[id] && refs[id].id == id
    }

    static lemma ShownAt(refs: map<string, LiveOrder>, views: map<string, Order>, id: string)
      requires Show(refs, views) && id in refs
      ensures id in views && refs[id].View() == views[id] && refs[id].id == id
    {
    }

    /** Write the changed orders back, in whatever order the map yields them. */
    method PersistChangedOrders(changed: map<string, LiveOrder>, ghost views: map<string, Order>)
      requires Show(changed, views)
      requires forall id | id in views && id in store.orders :: SameIdentity(store.orders[id], views[id])
      modifies store`orders
      ensures store.orders == old(store.orders) + views
    {
      hide Patched;
      hide SameIdentity;
      hide Show;
      hide LiveOrder.View;
      hide Splits;
      ghost var table0 := store.orders;
      PatchedNone(table0, views);
      SplitsFirst(changed.Keys);
      var ids, done := changed.Keys, {};
      while ids != {}
        invariant Splits(changed.Keys, ids, done)
        invariant Patched(table0, views, done, store.orders)
        invariant Show(changed, views)
        decreases |ids|
      {
        var id :| id in ids;
        SplitsNext(changed.Keys, ids, done, id);
        ShownAt(changed, views, id);
        PersistNextOrder(changed[id], table0, views, done);
        ids, done := ids - {id}, done + {id};
      }
      SplitsLast(changed.Keys, done);
      PatchedEnds(table0, views, done, store.orders) by { ShownKeys(changed, views); }
    }

    static lemma ShownKeys(refs: map<string, LiveOrder>, views: map<string, Order>)
      requires Show(refs, views)
      ensures refs.Keys == views.Keys
    {
    }

    method RecordAudit(event: AuditEvent)
      modifies store`audit
      ensures store.audit == old(store.audit) + [event]
      ensures BooksValue() == old(BooksValue())
    {
      hide BooksValue;
      store.PersistAudit(event);
      assert Refs() == old(Refs());
    }

    method RecordTrades(trades: seq<Trade>, accepted: string)
      modifies store`audit
      ensures store.audit == old(store.audit) + TradeEvents(trades, accepted)
    {
      ghost var goal := store.audit + TradeEvents(trades, accepted);
      assert trades[0..] == trades;
      for i := 0 to |trades|
        invariant store.audit + TradeEvents(trades[i..], accepted) == goal
      {
        assert trades[i..][0] == trades[i] && trades[i..][1..] == trades[i + 1..];
        RecordAudit(TradeExecuted(trades[i], accepted));
      }
      assert trades[|trades|..] == [];
    }

    // ----- one order against one book

    /** The taker's own side once the taker's record is settled. */
    static lemma OwnByReference(own: seq<LiveOrder>, order: LiveOrder, views: seq<Order>, taker: Order)
      requires Views(own) == views
      requires order.View() == taker.(reserved := order.reserved, status := order.status)
      ensures Views(OrderBook.OwnAfter(own, order, views, taker)) ==
              if taker.remaining > 0.0 then Insert(taker.side, views, order.View()) else views
    {
      hide InsertAt;
      hide Views;
      if taker.remaining > 0.0 {
        InsertAtByKey(taker.side, views, taker, order.View());
        OrderBook.ViewsInsert(own, order, InsertAt(taker.side, views, taker));
      }
    }

    static lemma {:induction false} ChangedShow(accepted: LiveOrder, fills: seq<LiveFill>, taker: Order,
                                                makers: seq<Order>)
      requires accepted.View() == taker && |fills| == |makers|
      requires forall i | 0 <= i < |fills| :: fills[i].maker.View() == makers[i]
      ensures var refs, views := ChangedRefs(accepted, fills), ChangedViews(taker, makers);
              && refs.Keys == views.Keys
              && forall id | id in refs :: refs[id].View() == views[id] && refs[id].id == id
    {
      if fills != [] {
        var n := |fills| - 1;
        ChangedShow(accepted, fills[..n], taker, makers[..n]);
        assert ChangedViews(taker, makers) == ChangedViews(taker, makers[..n])[makers[n].id := makers[n]];
      }
    }

    /** The book's side references after the settlement, in terms of what the records then show. */
    static lemma BookByReference(book: OrderBook, b: Book, o: Order, order: LiveOrder, own0: seq<LiveOrder>,
                                 makers: seq<LiveOrder>, x: Settled)
      requires order.side == o.side && book.seqNo == b.seqNo + 1
      requires var m := Match(Stamped(b, o), Opposite(b, o.side));
               && |m.fills| <= |makers| == |Opposite(b, o.side)|
               && var shown := Makers(m.fills) + Opposite(b, o.side)[|m.fills|..];
               && m.rest == shown[FirstLeft(shown, |m.fills|)..]
               && book.OppositeRefs(o.side) == makers[FirstLeft(shown, |m.fills|)..]
               && book.OwnRefs(o.side) == OrderBook.OwnAfter(own0, order, Own(b, o.side), m.taker)
               && |x.makers| == |m.fills|
               && (forall i | 0 <= i < |m.fills| :: x.makers[i].remaining == m.fills[i].maker.remaining)
               && Views(makers) == x.makers + Opposite(b, o.side)[|m.fills|..]
               && order.View() == m.taker.(reserved := order.reserved, status := order.status)
               && m.taker.side == o.side
      requires Views(own0) == Own(b, o.side)
      ensures book.Value() == SettledBook(b, order.View(), x.makers, Match(Stamped(b, o), Opposite(b, o.side)).rest)
    {
      hide Match;
      hide Views;
      hide Insert;
      hide Makers;
      hide FirstLeft;
      hide Refreshed;
      hide OrderBook.OwnAfter;
      var m := Match(Stamped(b, o), Opposite(b, o.side));
      var tail := Opposite(b, o.side)[|m.fills|..];
      var shown := Makers(m.fills) + tail;
      var k := FirstLeft(shown, |m.fills|);
      RefreshedByReference(shown, tail, Makers(m.fills), x.makers);
      ViewsSplit(makers, k);
      OwnByReference(own0, order, Own(b, o.side), m.taker);
      assert Opposite(book.Value(), o.side) == Refreshed(m.rest, x.makers);
    }

    /** The same when a settlement failed: nothing on the side is settled yet. */
    static lemma BookOnFailure(book: OrderBook, b: Book, o: Order, order: LiveOrder, own0: seq<LiveOrder>,
                               makers: seq<LiveOrder>, x: Settled)
      requires StandingRefs(book, b, o, order, own0, makers) && Views(own0) == Own(b, o.side)
      requires var m := Match(Stamped(b, o), Opposite(b, o.side));
               && |x.makers| < |m.fills|
               && Views(makers) == x.makers + (Makers(m.fills) + Opposite(b, o.side)[|m.fills|..])[|x.makers|..]
               && order.View() == m.taker.(reserved := order.reserved, status := order.status)
      ensures book.Value() == SettledBook(b, order.View(), [], Match(Stamped(b, o), Opposite(b, o.side)).rest)
    {
      hide Match;
      hide Views;
      hide Insert;
      hide Makers;
      hide OrderBook.OwnAfter;
      var m := Match(Stamped(b, o), Opposite(b, o.side));
      var shown := Makers(m.fills) + Opposite(b, o.side)[|m.fills|..];
      var k := FirstLeft(shown, |m.fills|);
      ViewsSplit(makers, k);
      OwnByReference(own0, order, Own(b, o.side), m.taker);
      assert Views(makers)[k..] == shown[k..];
      assert Opposite(book.Value(), o.side) == m.rest;
    }

    /** What a submission leaves of the records other than the taker's. */
    static ghost predicate RestMatched(book: OrderBook, b: Book, o: Order, order: LiveOrder, own0: seq<LiveOrder>,
                                       makers: seq<LiveOrder>, fills: seq<LiveFill>)
      reads book, makers, own0
    {
      var m := Match(Stamped(b, o), Opposite(b, o.side));
      && order.side == o.side && book.seqNo == b.seqNo + 1
      && NoDuplicates(makers) && order !in makers && (forall p | p in own0 :: p !in makers) && order !in own0
      && Views(own0) == Own(b, o.side)
      && |m.fills| <= |makers| == |Opposite(b, o.side)|
      && OrderBook.PointInto(fills, makers, m.fills)
      && Views(makers) == Makers(m.fills) + Opposite(b, o.side)[|m.fills|..]
      && m.rest == Views(makers)[FirstLeft(Views(makers), |m.fills|)..]
      && book.OppositeRefs(o.side) == makers[FirstLeft(Views(makers), |m.fills|)..]
      && book.OwnRefs(o.side) == OrderBook.OwnAfter(own0, order, Own(b, o.side), m.taker)
    }

    /** What a submission leaves, with the taker's status updated: the facts the fill loop starts from. */
    static ghost predicate OrderMatched(book: OrderBook, b: Book, o: Order, order: LiveOrder, own0: seq<LiveOrder>,
                                        makers: seq<LiveOrder>, fills: seq<LiveFill>)
      reads book, order, makers, own0
    {
      && RestMatched(book, b, o, order, own0, makers, fills)
      && order.View() == WithStatus(Match(Stamped(b, o), Opposite(b, o.side)).taker)
    }

    static lemma StandsAfterSubmit(book: OrderBook, b: Book, o: Order, order: LiveOrder, own0: seq<LiveOrder>,
                                   makers: seq<LiveOrder>, fills: seq<LiveFill>)
      requires order.side == o.side && book.seqNo == b.seqNo + 1
      requires NoDuplicates(makers) && order !in makers && (forall p | p in own0 :: p !in makers) && order !in own0
      requires Views(own0) == Own(b, o.side)
      requires var m := Match(Stamped(b, o), Opposite(b, o.side));
               && OrderBook.MakersFilled(makers, Opposite(b, o.side), book.OppositeRefs(o.side), fills, m.fills)
               && Opposite(book.Value(), o.side) == m.rest
               && book.OwnRefs(o.side) == OrderBook.OwnAfter(own0, order, Own(b, o.side), m.taker)
      ensures RestMatched(book, b, o, order, own0, makers, fills)
    {
      hide Match;
      hide Views;
      hide Makers;
      hide FirstLeft;
      hide NoDuplicates;
      hide OrderBook.PointInto;
      hide OrderBook.OwnAfter;
      ViewsSplit(makers, FirstLeft(Views(makers), |Match(Stamped(b, o), Opposite(b, o.side)).fills|));
    }

    /** Submit the order to its book and update its status. */
    method SubmitTo(book: OrderBook, order: LiveOrder) returns (fills: seq<LiveFill>, trades: seq<Trade>)
      requires book.Valid() && order !in book.bids && order !in book.asks
      modifies book, order`remaining, order`sequence, order`status, book.bids`remaining, book.asks`remaining
      ensures OrderMatched(book, old(book.Value()), old(order.View()), order, old(book.OwnRefs(order.side)),
                           old(book.OppositeRefs(order.side)), fills)
      ensures var m := old(Match(Stamped(book.Value(), order.View()), Opposite(book.Value(), order.side)));
              trades == Trades(m.fills)
    {
      hide Match;
      hide Views;
      hide StableSort;
      hide NoDuplicates;
      hide DistinctLive;
      hide OrderBook.MakersFilled;
      hide OrderBook.OwnAfter;
      hide Ordered;
      hide OrderedSides;
      hide RestMatched;
      ghost var b, o := book.Value(), order.View();
      ghost var own0, makers := book.OwnRefs(order.side), book.OppositeRefs(order.side);
      OrderedBySides(b, o.side);
      OrderBook.DistinctOwners(own0, makers, o.side, book.seqNo);
      SubmitKeepsOrder(b, o);
      fills, trades := book.Submit(order);
      StandsAfterSubmit(book, b, o, order, own0, makers, fills);
      UpdateOrderStatus(order);
    }

    static lemma MatchedReadyToSettle(book: OrderBook, b: Book, o: Order, order: LiveOrder, own0: seq<LiveOrder>,
                                      makers: seq<LiveOrder>, fills: seq<LiveFill>)
      requires OrderMatched(book, b, o, order, own0, makers, fills)
      ensures var m := Match(Stamped(b, o), Opposite(b, o.side));
              && NoDuplicates(makers) && order !in makers
              && |m.fills| <= |makers| && OrderBook.PointInto(fills, makers, m.fills)
              && (forall i | 0 <= i < |m.fills| :: makers[i].View() == m.fills[i].maker)
              && order.View() == WithStatus(m.taker) && order.account == o.account && order.side == o.side
      ensures var m := Match(Stamped(b, o), Opposite(b, o.side));
              |m.fills| <= |Opposite(b, o.side)| && Views(makers) == Makers(m.fills) + Opposite(b, o.side)[|m.fills|..]
    {
      hide Match;
      hide OrderBook.OwnAfter;
      hide FirstLeft;
      hide Views;
      hide Makers;
      var m := Match(Stamped(b, o), Opposite(b, o.side));
      MatchedTaker(Stamped(b, o), Opposite(b, o.side));
      forall i | 0 <= i < |m.fills|
        ensures makers[i].View() == m.fills[i].maker
      {
        assert Views(makers)[i] == Makers(m.fills)[i];
      }
    }

    /** Which records stand on the book, whatever they go on to show. */
    static ghost predicate StandingRefs(book: OrderBook, b: Book, o: Order, order: LiveOrder, own0: seq<LiveOrder>,
                                        makers: seq<LiveOrder>)
      reads book
    {
      var m := Match(Stamped(b, o), Opposite(b, o.side));
      && order.side == o.side == m.taker.side && book.seqNo == b.seqNo + 1
      && |m.fills| <= |makers| == |Opposite(b, o.side)|
      && var shown := Makers(m.fills) + Opposite(b, o.side)[|m.fills|..];
      && m.rest == shown[FirstLeft(shown, |m.fills|)..]
      && book.OppositeRefs(o.side) == makers[FirstLeft(shown, |m.fills|)..]
      && book.OwnRefs(o.side) == OrderBook.OwnAfter(own0, order, Own(b, o.side), m.taker)
    }

    static lemma MatchedStand(book: OrderBook, b: Book, o: Order, order: LiveOrder, own0: seq<LiveOrder>,
                              makers: seq<LiveOrder>, fills: seq<LiveFill>)
      requires OrderMatched(book, b, o, order, own0, makers, fills)
      ensures StandingRefs(book, b, o, order, own0, makers)
      ensures Views(own0) == Own(b, o.side) && order !in own0 && forall p | p in own0 :: p !in makers
    {
      hide Match;
      hide OrderBook.OwnAfter;
      hide FirstLeft;
      hide Views;
      hide Makers;
      hide OrderBook.PointInto;
      MatchedTaker(Stamped(b, o), Opposite(b, o.side));
    }

    /** What the records show once the fills are settled and a filled taker is released. */
    static ghost predicate Shown(order: LiveOrder, taker: Order, own0: seq<LiveOrder>, own: seq<Order>,
                                 makers: seq<LiveOrder>, shown: seq<Order>)
      reads order`remaining, order`reserved, order`sequence, order`status
      reads makers`remaining, makers`reserved, makers`sequence, makers`status
      reads own0`remaining, own0`reserved, own0`sequence, own0`status
    {
      order.View() == taker && Views(own0) == own && Views(makers) == shown
    }

    static lemma BookFromShown(book: OrderBook, b: Book, o: Order, order: LiveOrder, own0: seq<LiveOrder>,
                               makers: seq<LiveOrder>, w: Accounts, symbol: Symbol, taker: Order)
      requires StandingRefs(book, b, o, order, own0, makers)
      requires var m := Match(Stamped(b, o), Opposite(b, o.side));
               var x := Settlement.SettleFills(w, symbol, WithStatus(m.taker), m.fills);
               && taker == x.taker.(reserved := taker.reserved)
               && |x.makers| <= |m.fills| && (x.err.None? ==> |x.makers| == |m.fills|)
               && Shown(order, taker, own0, Own(b, o.side), makers,
                        x.makers + (Makers(m.fills) + Opposite(b, o.side)[|m.fills|..])[|x.makers|..])
      ensures var m := Match(Stamped(b, o), Opposite(b, o.side));
              var x := Settlement.SettleFills(w, symbol, WithStatus(m.taker), m.fills);
              book.Value() == SettledBook(b, taker, if x.err.None? then x.makers else [], m.rest)
    {
      hide Match;
      hide Views;
      hide Settlement.SettleFills;
      hide SettledBook;
      hide FirstLeft;
      hide Makers;
      hide OrderBook.OwnAfter;
      var m := Match(Stamped(b, o), Opposite(b, o.side));
      var x := Settlement.SettleFills(w, symbol, WithStatus(m.taker), m.fills);
      SettleKeepsRemaining(w, symbol, WithStatus(m.taker), m.fills);
      if x.err.None? {
        BookByReference(book, b, o, order, own0, makers, x);
      } else {
        BookOnFailure(book, b, o, order, own0, makers, x);
      }
    }

    /** Settle a submission's fills, then release the order if it is filled. */
    method SettleAndRelease(fills: seq<LiveFill>, symbol: Symbol, order: LiveOrder,
                            ghost own0: seq<LiveOrder>, ghost own: seq<Order>, ghost makers: seq<LiveOrder>,
                            ghost done: seq<Fill>)
      returns (err: Option<Error>, changedOrders: map<string, LiveOrder>, changedAccounts: Accounts)
      requires NoDuplicates(makers) && order !in makers && order !in own0 && forall p | p in own0 :: p !in makers
      requires |done| <= |makers| && OrderBook.PointInto(fills, makers, done) && Views(own0) == own
      requires forall i | 0 <= i < |done| :: makers[i].View() == done[i].maker
      modifies wallet, makers`reserved, makers`status, order`reserved, order`status
      ensures var x := old(Settlement.SettleFills(wallet.accounts, symbol, order.View(), done));
              var filled := x.err.None? && x.taker.remaining == 0.0;
              var (w', taker') := if filled then WalletModel.ReleaseRemaining(x.accounts, symbol, x.taker)
                                  else (x.accounts, x.taker);
              && err == x.err && |x.makers| <= |done| && (err.None? ==> |x.makers| == |done|)
              && wallet.accounts == w' && order.View() == taker' == x.taker.(reserved := taker'.reserved)
              && Shown(order, taker', own0, own, makers, x.makers + old(Views(makers))[|x.makers|..])
              && changedOrders == ChangedRefs(order, fills[..|x.makers|])
              && var taken := old(FirstSnapshots(wallet.accounts, symbol, order.View(), done));
              changedAccounts ==
              if filled then taken[order.account := WalletModel.GetAccount(w', order.account)] else taken
    {
      hide Views;
      hide Settlement.SettleFills;
      hide Snapshots;
      hide WalletModel.ReleaseRemaining;
      hide ChangedRefs;
      hide OrderBook.PointInto;
      hide FirstSnapshots;
      assert |own0| == |own| && forall i | 0 <= i < |own0| :: own0[i].View() == own[i];
      ghost var x := Settlement.SettleFills(wallet.accounts, symbol, order.View(), done);
      ghost var before := Views(makers);
      err, changedOrders, changedAccounts := SettleFills(fills, symbol, order, makers, done);
      ReleaseKeepsRest(x.accounts, symbol, x.taker);
      forall i | 0 <= i < |own0|
        ensures own0[i].View() == own[i]
      {
        assert own0[i] in own0;
      }
      assert Views(own0) == own;
      if err.None? && order.remaining == 0.0 {
        ghost var shown := Views(makers);
        wallet.ReleaseRemaining(symbol, order);
        var account := wallet.GetAccount(order.account);
        changedAccounts := changedAccounts[order.account := account];
        assert Views(makers) == shown && Views(own0) == own;
      }
    }

    /** No record stands on the book that was not there before, but the order itself. */
    static lemma StandingMembers(book: OrderBook, b: Book, o: Order, order: LiveOrder, own0: seq<LiveOrder>,
                                 makers: seq<LiveOrder>)
      requires StandingRefs(book, b, o, order, own0, makers)
      ensures forall p | p in book.bids || p in book.asks :: p in own0 || p in makers || p == order
    {
      hide Match;
      hide Makers;
      hide InsertAt;
      hide FirstLeft;
    }

    static lemma ChangedFromShown(order: LiveOrder, taker: Order, own0: seq<LiveOrder>, own: seq<Order>,
                                  makers: seq<LiveOrder>, fills: seq<LiveFill>, done: seq<Fill>,
                                  settled: seq<Order>, rest: seq<Order>)
      requires OrderBook.PointInto(fills, makers, done) && |settled| <= |done|
      requires Shown(order, taker, own0, own, makers, settled + rest)
      ensures Show(ChangedRefs(order, fills[..|settled|]), ChangedViews(taker, settled))
    {
      hide ChangedRefs;
      hide ChangedViews;
      hide Views;
      forall i | 0 <= i < |settled|
        ensures fills[i].maker.View() == settled[i]
      {
        assert Views(makers)[i] == (settled + rest)[i];
      }
      ChangedShow(order, fills[..|settled|], taker, settled);
    }

    /** Match a reserved order against its book, settle the fills, release a filled order. */
    method ExecuteOn(book: OrderBook, symbol: Symbol, order: LiveOrder)
      returns (err: Option<Error>, trades: seq<Trade>, changedOrders: map<string, LiveOrder>, changedAccounts: Accounts)
      requires book.Valid() && order !in book.bids && order !in book.asks
      modifies wallet, book, order`remaining, order`reserved, order`sequence, order`status
      modifies book.bids`remaining, book.bids`reserved, book.bids`status, book.asks`remaining, book.asks`reserved,
               book.asks`status
      ensures var e := old(Execute(wallet.accounts, symbol, book.Value(), order.View()));
              && err == e.err && wallet.accounts == e.accounts && book.Value() == e.book && order.View() == e.taker
              && trades == e.trades && changedAccounts == e.changed
              && Show(changedOrders, ChangedViews(e.taker, e.makers))
      ensures forall p | p in book.bids || p in book.asks :: p in old(book.bids) || p in old(book.asks) || p == order
    {
      hide Match;
      hide Views;
      hide Settlement.SettleFills;
      hide Snapshots;
      hide WalletModel.ReleaseRemaining;
      hide ChangedRefs;
      hide ChangedViews;
      hide OrderBook.PointInto;
      hide StandingRefs;
      hide SettledBook;
      hide OrderMatched;
      hide Shown;
      hide Show;
      hide Ordered;
      ghost var b, o, w := book.Value(), order.View(), wallet.accounts;
      ghost var own0, makers := book.OwnRefs(order.side), book.OppositeRefs(order.side);
      var fills;
      fills, trades := SubmitTo(book, order);
      ghost var m := Match(Stamped(b, o), Opposite(b, o.side));
      MatchedReadyToSettle(book, b, o, order, own0, makers, fills);
      MatchedStand(book, b, o, order, own0, makers, fills);
      StandingMembers(book, b, o, order, own0, makers);
      err, changedOrders, changedAccounts :=
        SettleAndRelease(fills, symbol, order, own0, Own(b, o.side), makers, m.fills);
      BookFromShown(book, b, o, order, own0, makers, w, symbol, order.View());
      ghost var settled := Settlement.SettleFills(w, symbol, WithStatus(m.taker), m.fills).makers;
      ChangedFromShown(order, order.View(), own0, Own(b, o.side), makers, fills, m.fills, settled,
                       (Makers(m.fills) + Opposite(b, o.side)[|m.fills|..])[|settled|..]);
    }

    // ----- the whole exchange

    ghost function Refs(): set<LiveOrder>
      reads books.Values
    {
      set n, o | n in books && o in books[n].bids + books[n].asks :: o
    }

    ghost function BooksValue(): (views: map<string, Book>)
      reads books.Values, Refs()
      ensures views.Keys == books.Keys
    {
      map n | n in books :: (MemberRefs(n); books[n].Value())
    }

    /** Each book's records are among the exchange's. */
    lemma MemberRefs(n: string)
      requires n in books
      ensures books[n] in books.Values
      ensures forall o | o in books[n].bids || o in books[n].asks :: o in Refs()
    {
      forall o | o in books[n].bids || o in books[n].asks
        ensures o in Refs()
      {
        assert o in books[n].bids + books[n].asks;
      }
    }

    /** The exchange as a state of the machine. */
    ghost function Value(): State
      reads wallet, store, cache, market, books.Values, Refs()
    {
      State(symbols, wallet.accounts, BooksValue(), store.Value(), market.trades, cache.Value())
    }

    ghost predicate Wired() {
      && books.Keys == symbols.Keys
      && forall n | n in books :: books[n].symbol == n
    }

    /** Every record stands on the book of its own symbol; so no two books share one. */
    ghost predicate Apart()
      reads books.Values
    {
      forall n | n in books :: (forall o | o in books[n].bids :: o.symbol == n)
                               && (forall o | o in books[n].asks :: o.symbol == n)
    }

    ghost predicate Valid()
      reads wallet, store, cache, market, books.Values, Refs()
    {
      Wired() && Good(Value())
    }

    // ----- deposits

    static method ApplyDeposit(account: Account, asset: string, amount: real)
      returns (err: Option<Error>, credited: Account)
      ensures err == (if amount <= 0.0 then Some(AmountNotPositive) else None)
      ensures credited == if err.None? then Credited(account, asset, amount) else account
    {
      if amount <= 0.0 {
        return Some(AmountNotPositive), account;
      }
      var balance := Wallet.Entry(account, asset);
      err := None;
      credited := account.(balances := account.balances[asset := Balance(balance.available + amount, balance.locked)]);
    }

    /** A credited copy of the account. */
    method CreditedCopy(accountId: string, asset: string, amount: real) returns (err: Option<Error>, credited: Account)
      ensures err == (if amount <= 0.0 then Some(AmountNotPositive) else None)
      ensures err.None? ==> credited == Credited(WalletModel.GetAccount(wallet.accounts, accountId), asset, amount)
      ensures BooksValue() == old(BooksValue())
    {
      hide BooksValue;
      credited := wallet.GetAccount(accountId);
      err, credited := ApplyDeposit(credited, asset, amount);
      assert Refs() == old(Refs());
    }

    /** Write a credited account back and record the deposit. */
    method StoreDeposit(credited: Account, asset: string, amount: real) returns (err: Option<Error>, account: Account)
      modifies wallet, store, cache
      ensures var p := Machine.PersistAccount(old(store.accounts), credited);
              && err == p.err && account == p.account
              && wallet.accounts ==
                 (if err.None? then old(wallet.accounts)[account.id := account] else old(wallet.accounts))
              && store.accounts == p.table && store.orders == old(store.orders) && store.trades == old(store.trades)
              && store.audit ==
                 old(store.audit)
                 + (if err.None? then [DepositCompleted(account.id, asset, amount, account.version)] else [])
              && cache.Value() == old(cache.Value()).(accounts :=
                                  if err.None? then old(cache.accounts)[account.id := account] else old(cache.accounts))
      ensures BooksValue() == old(BooksValue())
    {
      hide Machine.PersistAccount;
      hide BooksValue;
      hide Refs;
      err, account := SyncAccount(credited);
      if err.None? {
        RecordAudit(DepositCompleted(account.id, asset, amount, account.version));
      }
    }

    method Deposit(accountId: string, asset: string, amount: real) returns (err: Option<Error>, account: Account)
      requires Valid()
      modifies wallet, store, cache
      ensures (err, Value()) == Machine.Deposit(old(Value()), accountId, asset, amount)
      ensures err.None? ==> account == WalletModel.GetAccount(Value().wallet, accountId)
      ensures Valid()
    {
      hide Good;
      hide Machine.PersistAccount;
      hide Credited;
      hide BooksValue;
      hide Refs;
      ghost var s := Value();
      DepositKeepsGood(s, accountId, asset, amount);
      err, account := CreditedCopy(accountId, asset, amount);
      if err.Some? {
        return;
      }
      DepositSucceeds(s, accountId, asset, amount);
      err, account := StoreDeposit(account, asset, amount);
    }

    // ----- orders

    /** Reserve the order's funds, then write its account back. */
    method ReserveFunds(symbol: Symbol, order: LiveOrder) returns (err: Option<Error>)
      requires order !in Refs()
      modifies wallet, store`accounts, cache`accounts, order`reserved
      ensures var r := WalletModel.Reserve(old(wallet.accounts), symbol, old(order.View()));
              var p := Machine.PersistAccount(old(store.accounts), WalletModel.GetAccount(r.accounts, order.account));
              r.err.None? && p.err.None? ==>
                && err.None? && order.View() == r.order && store.accounts == p.table
                && wallet.accounts == r.accounts[p.account.id := p.account]
                && cache.accounts == old(cache.accounts)[p.account.id := p.account]
      ensures BooksValue() == old(BooksValue()) && Refs() == old(Refs())
    {
      hide BooksValue;
      hide Machine.PersistAccount;
      hide WalletModel.Reserve;
      err := wallet.Reserve(symbol, order);
      assert Refs() == old(Refs());
      if err.Some? {
        return;
      }
      var account := wallet.GetAccount(order.account);
      var persisted;
      err, persisted := SyncAccount(account);
    }

    ghost function OtherBooks(n: string): set<OrderBook> {
      set m | m in books && m != n :: books[m]
    }

    ghost function OtherRefs(n: string): set<LiveOrder>
      reads OtherBooks(n)
    {
      set m, o | m in books && m != n && o in books[m].bids + books[m].asks :: o
    }

    /** What all books but one show, and where their records are. */
    ghost predicate OthersShow(n: string, before: map<string, Book>, refs: set<LiveOrder>)
      reads OtherBooks(n), OtherRefs(n)
    {
      && before.Keys == books.Keys && OtherRefs(n) <= refs
      && forall m | m in books && m != n :: (OtherMember(n, m); books[m].Value() == before[m])
    }

    lemma OtherMember(n: string, m: string)
      requires m in books && m != n
      ensures books[m] in OtherBooks(n)
      ensures forall o | o in books[m].bids || o in books[m].asks :: o in OtherRefs(n)
    {
      forall o | o in books[m].bids || o in books[m].asks
        ensures o in OtherRefs(n)
      {
        assert o in books[m].bids + books[m].asks;
      }
    }

    lemma OthersNow(n: string)
      requires Wired() && n in books
      ensures books[n] !in OtherBooks(n) && OthersShow(n, BooksValue(), Refs())
    {
      forall o | o in OtherRefs(n)
        ensures o in Refs()
      {
        var m :| m in books && m != n && o in books[m].bids + books[m].asks;
      }
    }

    /** The other books share no record with the book of n, and the order stands on none. */
    lemma OthersApart(n: string, order: LiveOrder)
      requires Wired() && Apart() && n in books && order !in Refs()
      ensures forall o | o in OtherRefs(n) :: o !in books[n].bids && o !in books[n].asks && o != order
    {
      forall o | o in OtherRefs(n)
        ensures o !in books[n].bids && o !in books[n].asks && o != order
      {
        var m :| m in books && m != n && o in books[m].bids + books[m].asks;
        assert o.symbol == m && o in Refs();
      }
    }

    lemma OnlyOneChanged(n: string, before: map<string, Book>, refs: set<LiveOrder>, order: LiveOrder)
      requires n in books && OthersShow(n, before, refs)
      requires forall o | o in books[n].bids || o in books[n].asks :: o in refs || o == order
      ensures BooksValue() == before[n := books[n].Value()] && Refs() <= refs + {order}
    {
      hide OrderBook.Value;
      forall o | o in Refs()
        ensures o in refs || o == order
      {
        var m :| m in books && o in books[m].bids + books[m].asks;
        assert m != n ==> o in OtherRefs(n);
      }
    }

    /** Execute a reserved order on the book of its symbol; the other books stay as they are. */
    method ExecuteIn(n: string, symbol: Symbol, order: LiveOrder)
      returns (err: Option<Error>, trades: seq<Trade>, changedOrders: map<string, LiveOrder>, changedAccounts: Accounts)
      requires Wired() && Apart() && n in books && books[n].Valid() && order.symbol == n && order !in Refs()
      modifies wallet, books[n], order`remaining, order`reserved, order`sequence, order`status
      modifies books[n].bids`remaining, books[n].bids`reserved, books[n].bids`status
      modifies books[n].asks`remaining, books[n].asks`reserved, books[n].asks`status
      ensures var e := old(Execute(wallet.accounts, symbol, books[n].Value(), order.View()));
              && err == e.err && wallet.accounts == e.accounts && order.View() == e.taker
              && trades == e.trades && changedAccounts == e.changed
              && Show(changedOrders, ChangedViews(e.taker, e.makers))
              && BooksValue() == old(BooksValue())[n := e.book]
      ensures Refs() <= old(Refs()) + {order}
    {
      hide Execute;
      hide Show;
      hide Views;
      hide Ordered;
      hide Refs;
      hide Apart;
      hide Wired;
      hide BooksValue;
      hide OthersShow;
      ghost var before, refs := BooksValue(), Refs();
      OthersNow(n);
      OthersApart(n, order);
      MemberRefs(n);
      err, trades, changedOrders, changedAccounts := ExecuteOn(books[n], symbol, order);
      assert OtherRefs(n) == old(OtherRefs(n));
      assert OthersShow(n, before, refs);
      OnlyOneChanged(n, before, refs, order);
    }

    /** Persist what an execution changed and record it: accounts, orders, trades, market data, audit. */
    method PersistExecution(n: string, order: LiveOrder, trades: seq<Trade>, changedOrders: map<string, LiveOrder>,
                            changedAccounts: Accounts, ghost views: map<string, Order>)
      returns (err: Option<Error>)
      requires NoConflict(store.accounts, changedAccounts) && Show(changedOrders, views)
      requires forall id | id in views && id in store.orders :: SameIdentity(store.orders[id], views[id])
      modifies wallet, store, cache`accounts, market
      ensures err.None?
      ensures wallet.accounts == old(wallet.accounts) + Bumped(old(store.accounts), changedAccounts)
      ensures cache.accounts == old(cache.accounts) + Bumped(old(store.accounts), changedAccounts)
      ensures store.Value() == Db(PersistAll(old(store.accounts), changedAccounts), old(store.orders) + views,
                                  old(store.trades) + trades,
                                  old(store.audit) + [OrderAccepted(order.View(), |trades|)]
                                  + TradeEvents(trades, order.id))
      ensures market.trades == Machine.Record(old(market.trades), n, trades)
    {
      hide Machine.PersistAccount;
      hide NoConflict;
      hide PersistAll;
      hide Bumped;
      hide SameIdentity;
      hide BooksValue;
      hide Refs;
      hide TradeEvents;
      hide Machine.Record;
      err := PersistUnconflicted(changedAccounts);
      if err.Some? {
        return;
      }
      PersistChangedOrders(changedOrders, views);
      store.PersistTrades(trades);
      market.Record(n, trades);
      RecordAudit(OrderAccepted(order.View(), |trades|));
      RecordTrades(trades, order.id);
    }

    method CacheBook(n: string) returns (b: Snapshot)
      requires n in books
      modifies cache`books
      ensures b == BookSnapshot(books[n].Value()) && cache.books == old(cache.books)[n := b]
      ensures BooksValue() == old(BooksValue())
    {
      hide BooksValue;
      hide Views;
      var bids, asks := books[n].Snapshot();
      b := Snapshot(bids, asks);
      cache.books := cache.books[n := b];
      assert Refs() == old(Refs());
    }

    method CacheTrades(n: string) returns (recent: seq<Trade>)
      modifies cache`trades
      ensures recent == MarketTrades(market.trades, n) && cache.trades == old(cache.trades)[n := recent]
      ensures BooksValue() == old(BooksValue())
    {
      hide BooksValue;
      recent := market.Trades(n);
      cache.trades := cache.trades[n := recent];
      assert Refs() == old(Refs());
    }

    /** Cache the book and the trades of one symbol. */
    method CacheMarket(n: string) returns (b: Snapshot)
      requires n in books
      modifies cache`books, cache`trades
      ensures b == BookSnapshot(books[n].Value()) && cache.books == old(cache.books)[n := b]
      ensures cache.trades == old(cache.trades)[n := MarketTrades(market.trades, n)]
      ensures BooksValue() == old(BooksValue())
    {
      hide BooksValue;
      hide Refs;
      hide OrderBook.Value;
      BookOfValue(n);
      b := CacheBook(n);
      var recent := CacheTrades(n);
      BookOfValue(n);
    }

    /** Persist an execution, then cache its market. */
    method WriteBack(n: string, order: LiveOrder, trades: seq<Trade>, changedOrders: map<string, LiveOrder>,
                     changedAccounts: Accounts, ghost views: map<string, Order>)
      returns (err: Option<Error>, b: Snapshot)
      requires n in books && NoConflict(store.accounts, changedAccounts) && Show(changedOrders, views)
      requires forall id | id in views && id in store.orders :: SameIdentity(store.orders[id], views[id])
      modifies wallet, store, cache, market
      ensures err.None? && b == BookSnapshot(books[n].Value())
      ensures wallet.accounts == old(wallet.accounts) + Bumped(old(store.accounts), changedAccounts)
      ensures store.Value() == Db(PersistAll(old(store.accounts), changedAccounts), old(store.orders) + views,
                                  old(store.trades) + trades,
                                  old(store.audit) + [OrderAccepted(order.View(), |trades|)]
                                  + TradeEvents(trades, order.id))
      ensures market.trades == Machine.Record(old(market.trades), n, trades)
      ensures cache.Value() == Cache(old(cache.accounts)
                                     + Bumped(old(store.accounts), changedAccounts), old(cache.books)[n := b],
                                     old(cache.trades)[n := MarketTrades(market.trades, n)])
      ensures BooksValue() == old(BooksValue())
    {
      hide NoConflict;
      hide PersistAll;
      hide Bumped;
      hide SameIdentity;
      hide BooksValue;
      hide TradeEvents;
      hide Machine.Record;
      hide MarketTrades;
      hide Show;
      hide Views;
      err := PersistExecution(n, order, trades, changedOrders, changedAccounts, views);
      assert Refs() == old(Refs());
      b := CacheMarket(n);
    }

    lemma BooksApart()
      requires Valid()
      ensures Apart() && forall n | n in books :: books[n].Valid() && books[n].Value() == Value().books[n]
    {
      hide Good;
      hide Views;
      hide Ordered;
      hide Uncrossed;
      hide Refs;
      forall n | n in books
        ensures books[n].Valid() && books[n].Value() == Value().books[n]
        ensures forall o | o in books[n].bids || o in books[n].asks :: o.symbol == n
      {
        MemberRefs(n);
        GoodBook(Value(), n);
        SideSymbols(books[n].bids, BuySide, n);
        SideSymbols(books[n].asks, SellSide, n);
      }
    }

    static lemma SideSymbols(os: seq<LiveOrder>, side: Side, n: string)
      requires forall o | o in Views(os) :: Resting(o, side, n)
      ensures forall o | o in os :: o.symbol == n
    {
      hide Views;
      forall o | o in os
        ensures o.symbol == n
      {
        var i :| 0 <= i < |os| && os[i] == o;
        assert Views(os)[i] in Views(os);
      }
    }

    /** The first half of placing an order that passed validation. */
    method ReserveAccepted(symbol: Symbol, order: LiveOrder) returns (err: Option<Error>)
      requires Valid() && Accepted(Value(), symbol, order.View()) && order !in Refs()
      modifies wallet, store`accounts, cache`accounts, order`reserved
      ensures err.None? && Value() == ReservedState(old(Value()), symbol, old(order.View()))
      ensures order.View() == ReservedOrder(old(Value()), symbol, old(order.View()))
      ensures Refs() == old(Refs())
    {
      hide Accepted;
      hide BooksValue;
      hide Refs;
      hide Machine.PersistAccount;
      hide WalletModel.Reserve;
      hide ReservedState;
      hide ReservedOrder;
      ReservedIsSynced(Value(), symbol, order.View());
      err := ReserveFunds(symbol, order);
    }

    /** The second half: execute the reserved order and write everything back. */
    method ExecuteAccepted(symbol: Symbol, order: LiveOrder, ghost s: State, ghost o: Order)
      returns (err: Option<Error>, trades: seq<Trade>, b: Snapshot)
      requires Accepted(s, symbol, o) && Value() == ReservedState(s, symbol, o)
      requires order.View() == ReservedOrder(s, symbol, o) && order.symbol == o.symbol && order.id == o.id
      requires Wired() && Apart() && order.symbol in books && books[order.symbol].Valid() && order !in Refs()
      requires books[order.symbol].Value() == Value().books[order.symbol]
      modifies wallet, store, cache, market, books[order.symbol]
      modifies order`remaining, order`reserved, order`sequence, order`status
      modifies books[order.symbol].bids`remaining, books[order.symbol].bids`reserved, books[order.symbol].bids`status
      modifies books[order.symbol].asks`remaining, books[order.symbol].asks`reserved, books[order.symbol].asks`status
      ensures o.symbol in s.books && err.None? && Value() == FinalState(s, symbol, o)
      ensures order.View() == Executed(s, symbol, o).taker && trades == Executed(s, symbol, o).trades
      ensures b == BookSnapshot(Executed(s, symbol, o).book)
      ensures Refs() <= old(Refs()) + {order}
    {
      hide Accepted;
      hide FinalState;
      hide Executed;
      hide Execute;
      hide ReservedState;
      hide ReservedOrder;
      hide BooksValue;
      hide Refs;
      hide Show;
      hide Wired;
      hide Apart;
      hide Ordered;
      hide ChangedViews;
      hide NoConflict;
      hide SameIdentity;
      hide Bumped;
      hide PersistAll;
      hide Machine.Record;
      hide TradeEvents;
      hide MarketTrades;
      hide Views;
      ExecutedFromReserved(s, symbol, o);
      ghost var e := Executed(s, symbol, o);
      var changedOrders, changedAccounts;
      err, trades, changedOrders, changedAccounts := ExecuteIn(order.symbol, symbol, order);
      if err.Some? {
        return;
      }
      err, b := WriteBack(order.symbol, order, trades, changedOrders, changedAccounts, ChangedViews(e.taker, e.makers));
      BookOfValue(order.symbol);
      FinalIsAssembled(s, symbol, o, Value());
    }

    lemma BookOfValue(n: string)
      requires n in books
      ensures n in BooksValue() && BooksValue()[n] == books[n].Value()
    {
    }

    /** Reserve, execute and write back an order that passed validation. */
    method PlaceAccepted(symbol: Symbol, order: LiveOrder) returns (err: Option<Error>, trades: seq<Trade>, b: Snapshot)
      requires Valid() && Accepted(Value(), symbol, order.View()) && order !in Refs()
      modifies wallet, store, cache, market, books.Values, order, Refs()
      ensures var s, o := old(Value()), old(order.View());
              && o.symbol in s.books && err.None? && Value() == FinalState(s, symbol, o)
              && order.View() == Executed(s, symbol, o).taker && trades == Executed(s, symbol, o).trades
              && b == BookSnapshot(Executed(s, symbol, o).book)
      ensures Refs() <= old(Refs()) + {order}
    {
      hide Good;
      hide Accepted;
      hide FinalState;
      hide Executed;
      hide ReservedState;
      hide ReservedOrder;
      hide Refs;
      hide BooksValue;
      hide Ordered;
      hide OrderBook.Value;
      hide Apart;
      hide Wired;
      ghost var s, o := Value(), order.View();
      ghost var n := order.symbol;
      BooksApart();
      AcceptedInBooks(s, symbol, o);
      WiredKeys();
      MemberRefs(n);
      err := ReserveAccepted(symbol, order);
      if err.Some? {
        return;
      }
      BookOfValue(n);
      err, trades, b := ExecuteAccepted(symbol, order, s, o);
    }

    method NewOrderRecord(o: Order) returns (order: LiveOrder)
      ensures fresh(order) && order.View() == o && order !in Refs()
      ensures Refs() == old(Refs()) && BooksValue() == old(BooksValue())
    {
      hide BooksValue;
      order := new LiveOrder(o);
      assert Refs() == old(Refs());
    }

    method ReplyTo(order: LiveOrder, trades: seq<Trade>, b: Snapshot) returns (reply: Reply)
      ensures reply == Reply(order.View(), trades, WalletModel.GetAccount(wallet.accounts, order.account), b)
      ensures Refs() == old(Refs()) && BooksValue() == old(BooksValue())
    {
      hide BooksValue;
      var account := wallet.GetAccount(order.account);
      reply := Reply(order.View(), trades, account, b);
      assert Refs() == old(Refs());
    }

    /** Place an order that passed validation, and answer with what became of it. */
    method PlaceNew(symbol: Symbol, o: Order) returns (err: Option<Error>, reply: Option<Reply>)
      requires Valid() && Accepted(Value(), symbol, o)
      modifies wallet, store, cache, market, books.Values, Refs()
      ensures var s := old(Value());
              var s', e := FinalState(s, symbol, o), Executed(s, symbol, o);
              && o.symbol in s.books && err.None? && Value() == s'
              && reply == Some(Reply(e.taker, e.trades, WalletModel.GetAccount(s'.wallet, e.taker.account),
                                     BookSnapshot(e.book)))
      ensures fresh(Refs() - old(Refs()))
    {
      hide Good;
      hide Accepted;
      hide FinalState;
      hide Executed;
      hide Refs;
      hide BooksValue;
      reply := None;
      var order := NewOrderRecord(o);
      var trades, b;
      err, trades, b := PlaceAccepted(symbol, order);
      if err.Some? {
        return;
      }
      var answer := ReplyTo(order, trades, b);
      reply := Some(answer);
    }

    /** Validate a request, then reserve, match, settle and record the order. */
    method PlaceOrder(req: Request, id: string) returns (err: Option<Error>, reply: Option<Reply>)
      requires Valid() && id !in store.orders
      modifies wallet, store, cache, market, books.Values, Refs()
      ensures Valid() && fresh(Refs() - old(Refs()))
      ensures match Machine.PlaceOrder(old(Value()), req, id)
              case Rejected(e) => err == Some(e) && reply.None? && Value() == old(Value())
              case Stuck(_) => false
              case Placed(s', o, trades) =>
                && err.None? && Value() == s' && req.symbol in s'.books
                && reply == Some(Reply(o, trades, WalletModel.GetAccount(s'.wallet, o.account),
                                       BookSnapshot(s'.books[req.symbol])))
      ensures err.None? ==>
                && reply.Some? && id in store.orders && store.orders[id] == reply.value.order
                && AskedFor(req, id, reply.value.order)
    {
      hide Good;
      hide Accepted;
      hide FinalState;
      hide Executed;
      hide Refs;
      hide BooksValue;
      hide Validate;
      hide ParseSide;
      ghost var s := Value();
      GoodCache(s);
      reply := None;
      if req.symbol !in symbols {
        return Some(UnsupportedSymbol(req.symbol)), None;
      }
      var symbol := symbols[req.symbol];
      var side := ParseSide(req.side);
      if side.None? {
        return Some(UnsupportedSide(req.side)), None;
      }
      var o := NewOrder(req, side.value, id);
      err := Validate(wallet.accounts, symbol, o);
      if err.Some? {
        return;
      }
      AcceptedIsPlaced(s, req, id);
      PlacingKeepsGood(s, symbol, o);
      FinalBook(s, symbol, o);
      AnswerIsAskedFor(s, req, id);
      err, reply := PlaceNew(symbol, o);
    }

    // ----- cache-first reads

    method FetchAccount(id: string) returns (account: Account)
      modifies cache`accounts
      ensures account == WalletModel.GetAccount(wallet.accounts, id)
      ensures cache.accounts == old(cache.accounts)[account.id := account]
      ensures BooksValue() == old(BooksValue())
    {
      hide BooksValue;
      account := wallet.GetAccount(id);
      cache.accounts := cache.accounts[account.id := account];
      assert Refs() == old(Refs());
    }

    method GetAccount(id: string) returns (account: Account)
      requires Valid()
      modifies cache
      ensures (account, Value()) == Machine.ReadAccount(old(Value()), id)
      ensures Valid() && account == WalletModel.GetAccount(wallet.accounts, id)
    {
      hide Good;
      hide BooksValue;
      hide Refs;
      ghost var s := Value();
      GoodWellFormed(s);
      AccountReadIsUncached(s, id);
      if id in cache.accounts {
        return cache.accounts[id];
      }
      account := FetchAccount(id);
    }

    method OrderBookOf(n: string) returns (b: Option<Snapshot>)
      requires Valid()
      modifies cache
      ensures (b, Value()) == Machine.ReadBook(old(Value()), n)
      ensures Valid() && b == if n in books then Some(BookSnapshot(BooksValue()[n])) else None
    {
      hide Good;
      hide BooksValue;
      hide Refs;
      hide OrderBook.Value;
      ghost var s := Value();
      BookReadIsUncached(s, n);
      if n !in symbols {
        return None;
      }
      if n in cache.books {
        return Some(cache.books[n]);
      }
      BookOfValue(n);
      var snapshot := CacheBook(n);
      b := Some(snapshot);
      BookOfValue(n);
    }

    method TradesOf(n: string) returns (trades: Option<seq<Trade>>)
      requires Valid()
      modifies cache
      ensures (trades, Value()) == Machine.ReadTrades(old(Value()), n)
      ensures Valid() && trades == if n in symbols then Some(MarketTrades(market.trades, n)) else None
    {
      hide Good;
      hide BooksValue;
      hide Refs;
      ghost var s := Value();
      GoodCache(s);
      TradesReadIsUncached(s, n);
      if n !in symbols {
        return None;
      }
      if n in cache.trades {
        return Some(cache.trades[n]);
      }
      var recent := CacheTrades(n);
      trades := Some(recent);
    }

    // ----- starting up

    static ghost predicate Opened(books: map<string, OrderBook>, names: set<string>)
      reads books.Values
    {
      && books.Keys == names
      && forall n | n in books :: books[n].symbol == n && books[n].bids == [] == books[n].asks && books[n].seqNo == 0
    }

    static lemma OpenedOneMore(books: map<string, OrderBook>, names: set<string>, book: OrderBook)
      requires Opened(books, names) && book.bids == [] == book.asks && book.seqNo == 0
      ensures Opened(books[book.symbol := book], names + {book.symbol})
      ensures books[book.symbol := book].Values <= books.Values + {book}
    {
    }

    /** One empty book per symbol. */
    static method OpenBooks(symbols: Symbols) returns (books: map<string, OrderBook>)
      ensures Opened(books, symbols.Keys) && fresh(books.Values)
    {
      hide Opened;
      hide Splits;
      books := map[];
      SplitsFirst(symbols.Keys);
      var names, done := symbols.Keys, {};
      assert Opened(books, {}) by { OpenedNone(); }
      while names != {}
        invariant Splits(symbols.Keys, names, done) && fresh(books.Values)
        invariant Opened(books, done)
        decreases |names|
      {
        var name :| name in names;
        SplitsNext(symbols.Keys, names, done, name);
        var book := new OrderBook(name);
        assert Opened(books, done);
        OpenedOneMore(books, done, book);
        books := books[name := book];
        names, done := names - {name}, done + {name};
      }
      SplitsLast(symbols.Keys, done);
    }

    static lemma OpenedNone()
      ensures Opened(map[], {})
    {
    }

    /** A record of its own for each loaded order. */
    static method NewRecords(os: seq<Order>) returns (orders: seq<LiveOrder>)
      ensures Views(orders) == os && NoDuplicates(orders) && fresh(set o | o in orders)
    {
      hide Views;
      orders := [];
      for i := 0 to |os|
        invariant Views(orders) == os[..i] && NoDuplicates(orders) && fresh(set o | o in orders)
      {
        var order := new LiveOrder(os[i]);
        assert forall j | 0 <= j < |orders| :: orders[j] in orders;
        ghost var shown := Views(orders);
        orders := orders + [order];
        assert Views(orders) == os[..i + 1];
      }
    }

    /** Put a loaded order on the book of its symbol, if there is one. */
    method RestoreNext(order: LiveOrder)
      requires Wired()
      modifies books.Values
      ensures BooksValue() ==
              if order.symbol in books then RestoredFirst(old(BooksValue()), order.View()) else old(BooksValue())
      ensures Refs() <= old(Refs()) + {order}
    {
      hide BookModel.Restore;
      hide BooksValue;
      hide Refs;
      hide Views;
      hide Wired;
      hide OthersShow;
      if order.symbol in books {
        var n := order.symbol;
        ghost var before, refs := BooksValue(), Refs();
        OthersNow(n);
        MemberRefs(n);
        BookOfValue(n);
        books[n].Restore(order);
        assert OtherRefs(n) == old(OtherRefs(n));
        assert OthersShow(n, before, refs);
        OnlyOneChanged(n, before, refs, order);
      }
    }

    method RestoreOrders(orders: seq<LiveOrder>)
      requires Wired()
      modifies books.Values
      ensures BooksValue() == RestoreAll(old(BooksValue()), Views(orders))
      ensures Refs() <= old(Refs()) + set o | o in orders
    {
      hide BooksValue;
      hide Refs;
      hide Wired;
      hide Views;
      hide BookModel.Restore;
      ghost var os := Views(orders);
      ghost var goal := RestoreAll(BooksValue(), os);
      assert os[0..] == os;
      for i := 0 to |orders|
        invariant Views(orders) == os
        invariant RestoreAll(BooksValue(), os[i..]) == goal
        invariant Refs() <= old(Refs()) + set o | o in orders
      {
        assert os[i..][0] == os[i] && os[i..][1..] == os[i + 1..];
        assert orders[i].View() == os[i];
        RestoreNext(orders[i]);
      }
      assert os[|orders|..] == [];
    }

    ghost predicate Warming(s: State, done: set<string>)
      reads cache, books.Values, Refs(), market
    {
      && BooksValue() == s.books && market.trades == s.market && done <= s.symbols.Keys
      && Patched(s.cache.books, WarmBooks(s), done, cache.books)
      && Patched(s.cache.trades, WarmTrades(s), done, cache.trades)
    }

    method WarmNext(n: string, ghost s: State, ghost done: set<string>)
      requires Wired() && s.symbols == symbols && n in symbols && Warming(s, done)
      modifies cache`books, cache`trades
      ensures Warming(s, done + {n}) && BooksValue() == old(BooksValue())
    {
      hide BooksValue;
      hide Refs;
      hide Patched;
      hide OrderBook.Value;
      hide WarmBooks;
      hide WarmTrades;
      hide MarketTrades;
      hide BookSnapshot;
      hide Warmed;
      hide Wired;
      WiredKeys();
      Warm(s);
      BookOfValue(n);
      PatchedOneMore(s.cache.books, WarmBooks(s), done, cache.books, n);
      PatchedOneMore(s.cache.trades, WarmTrades(s), done, cache.trades, n);
      var b := CacheMarket(n);
      BookOfValue(n);
    }

    lemma WarmingBegins(s: State)
      requires s == Value()
      ensures Warming(s, {})
    {
      hide WarmBooks;
      hide WarmTrades;
      PatchedNone(cache.books, WarmBooks(s));
      PatchedNone(cache.trades, WarmTrades(s));
    }

    lemma WarmingEnds(s: State, done: set<string>)
      requires Warming(s, done) && s.symbols.Keys - done == {} && s.books.Keys == s.symbols.Keys
      ensures cache.books == Warmed(s).books && cache.trades == Warmed(s).trades
      ensures BooksValue() == s.books && Warmed(s).accounts == s.cache.accounts
    {
      hide WarmBooks;
      hide WarmTrades;
      hide Patched;
      hide Warmed;
      Warm(s);
      PatchedEnds(s.cache.books, WarmBooks(s), done, cache.books);
      PatchedEnds(s.cache.trades, WarmTrades(s), done, cache.trades);
    }

    /** Cache every symbol's book and trades. */
    method WarmCaches()
      requires Wired()
      modifies cache`books, cache`trades
      ensures BooksValue() == old(BooksValue()) && cache.Value() == Warmed(old(Value()))
    {
      hide BooksValue;
      hide Refs;
      hide Warming;
      hide Warmed;
      hide Wired;
      hide Splits;
      ghost var s := Value();
      WarmingBegins(s);
      SplitsFirst(symbols.Keys);
      var names, done := symbols.Keys, {};
      while names != {}
        invariant Splits(symbols.Keys, names, done)
        invariant Warming(s, done)
        decreases |names|
      {
        var n :| n in names;
        SplitsNext(symbols.Keys, names, done, n);
        WarmNext(n, s, done);
        names, done := names - {n}, done + {n};
      }
      SplitsLast(symbols.Keys, done);
      WarmingEnds(s, done) by { WiredKeys(); }
    }

    lemma WiredKeys()
      requires Wired()
      ensures BooksValue().Keys == symbols.Keys
    {
    }

    /** The books show these values through records that show those. */
    ghost predicate ShownAs(before: map<string, Book>, shown: map<LiveOrder, Order>)
      reads books.Values
    {
      && before.Keys == books.Keys
      && forall n | n in books ::
           && SideShownAs(before[n].bids, books[n].bids, shown) && SideShownAs(before[n].asks, books[n].asks, shown)
           && before[n].seqNo == books[n].seqNo
    }

    static ghost predicate SideShownAs(side: seq<Order>, refs: seq<LiveOrder>, shown: map<LiveOrder, Order>) {
      |side| == |refs| && forall k | 0 <= k < |refs| :: refs[k] in shown && shown[refs[k]] == side[k]
    }

    lemma ShownNow(shown: map<LiveOrder, Order>)
      requires shown.Keys == Refs() && forall o | o in shown :: shown[o] == o.View()
      ensures ShownAs(BooksValue(), shown)
    {
      hide Views;
      forall n | n in books
        ensures SideShownAs(BooksValue()[n].bids, books[n].bids, shown)
        ensures SideShownAs(BooksValue()[n].asks, books[n].asks, shown)
      {
        BookOfValue(n);
        MemberRefs(n);
      }
    }

    /** What the books show once the reservations on their records have been rewritten. */
    lemma BooksRewritten(orders: seq<LiveOrder>, os: seq<Order>, os': seq<Order>, before: map<string, Book>,
                         shown: map<LiveOrder, Order>)
      requires Wired() && Refs() <= set o | o in orders
      requires Views(orders) == os' && Alike(os, os') && DistinctIds(os)
      requires before == RestoreAll(EmptyBooks(symbols), os) && ShownAs(before, shown)
      requires forall o | o in shown :: SameExceptReserved(shown[o], o.View())
      ensures BooksValue() == RestoreAll(EmptyBooks(symbols), os')
    {
      hide RestoreAll;
      hide DistinctIds;
      hide Views;
      hide SameExceptReserved;
      hide BooksValue;
      var after := BooksValue();
      forall n | n in books
        ensures AlikeBook(before[n], after[n])
      {
        BookOfValue(n);
      }
      forall n, o | n in after && (o in after[n].bids || o in after[n].asks)
        ensures o in os'
      {
        ShownByRecord(orders, n, o);
      }
      RewrittenBooks(symbols, os, os', after);
    }

    lemma ShownByRecord(orders: seq<LiveOrder>, n: string, o: Order)
      requires Refs() <= set r | r in orders
      requires n in books && (o in BooksValue()[n].bids || o in BooksValue()[n].asks)
      ensures o in Views(orders)
    {
      hide Refs;
      hide Views;
      BookOfValue(n);
      MemberRefs(n);
      var side := if o in Views(books[n].bids) then books[n].bids else books[n].asks;
      var k :| 0 <= k < |side| && Views(side)[k] == o;
      assert side[k] in Refs();
      var i :| 0 <= i < |orders| && orders[i] == side[k];
      assert Views(orders)[i] == o;
    }

    /** Rebuild the reservations: the records on the books are rewritten with those of the list. */
    method RebuildWallet(orders: seq<LiveOrder>, ghost os: seq<Order>) returns (changed: Accounts)
      requires Wired() && BooksValue() == RestoreAll(EmptyBooks(symbols), os) && DistinctIds(os)
      requires Views(orders) == os && NoDuplicates(orders) && Refs() <= set o | o in orders
      modifies wallet, orders`reserved
      ensures var r := Rebuild(old(wallet.accounts), symbols, os);
              && wallet.accounts == r.accounts && BooksValue() == RestoreAll(EmptyBooks(symbols), r.orders)
              && changed == map a | a in r.accounts && AccountAffected(symbols, os, a) :: r.accounts[a]
    {
      hide Rebuild;
      hide RestoreAll;
      hide AccountAffected;
      hide BooksValue;
      hide NoDuplicates;
      hide Alike;
      hide DistinctIds;
      hide ShownAs;
      hide Views;
      hide Wired;
      hide Refs;
      ghost var before, w := BooksValue(), wallet.accounts;
      ghost var shown := map o | o in Refs() :: o.View();
      ShownNow(shown);
      RebuildKeepsOrders(w, symbols, os);
      changed := wallet.RebuildReservations(symbols, orders);
      assert Refs() == old(Refs());
      BooksRewritten(orders, os, Views(orders), before, shown);
    }

    /** Rebuild the reservations, write the reconciled accounts back and warm the caches. A version conflict
        stops the start; `written` are the accounts written back by then. */
    method RebuildRecoveredState(loaded: seq<Account>, orders: seq<LiveOrder>,
                                 ghost s: State, ghost os: seq<Order>, ghost trades: seq<Trade>)
      returns (err: Option<Error>, ghost written: set<string>)
      requires OwnIds(s.db.accounts) && OpenOrders(s.db, os) && Wired() && Value() == Loaded(s, os, trades)
      requires Wallet.ById(loaded) == LoadAccounts(s.db.accounts)
      requires Views(orders) == os && NoDuplicates(orders) && Refs() <= set o | o in orders
      modifies wallet, store`accounts, cache, orders`reserved
      ensures err.None? <==> Machine.Restart(s, os, trades).0.None?
      ensures Written(err, s.db.accounts, ToSync(s, os), written)
      ensures Value() == if err.None? then Machine.Restart(s, os, trades).1
                         else SyncAll(BeforeSync(s, os, trades), Only(ToSync(s, os), written))
    {
      hide OwnIds;
      hide OpenOrders;
      hide Rebuild;
      hide RestoreAll;
      hide AccountAffected;
      hide BooksValue;
      hide Refs;
      hide Views;
      hide Wired;
      hide NoDuplicates;
      hide NoConflict;
      hide Wallet.ById;
      hide LoadAccounts;
      hide PersistAll;
      hide Bumped;
      hide Warmed;
      hide Filed;
      hide Written;
      hide Only;
      ghost var changed := ToSync(s, os);
      ListedDistinctIds(s.db, os);
      ToSyncIs(s, os);
      ToSyncOwnIds(s, os);
      var reconciled := RebuildWallet(orders, os);
      if reconciled == map[] {
        reconciled := Wallet.ById(loaded);
      }
      assert reconciled == changed;
      err, written := PersistChangedAccounts(reconciled);
      WrittenIff(err, s.db.accounts, changed, written);
      if err.None? {
        WarmCaches();
      }
    }

    /** Everything is in place, and nothing stands on a book yet. */
    static method Assemble(symbols: Symbols, store: PostgresStore, cache: CacheStore, loaded: seq<Account>,
                           tape: seq<Trade>)
      returns (exchange: Exchange)
      ensures exchange.Wired() && exchange.symbols == symbols && exchange.store == store && exchange.cache == cache
      ensures fresh(exchange) && fresh(exchange.wallet) && fresh(exchange.market) && fresh(exchange.books.Values)
      ensures exchange.wallet.accounts == Wallet.ById(loaded) && exchange.market.trades == Filed(tape, map[])
      ensures exchange.BooksValue() == EmptyBooks(symbols) && exchange.Refs() == {}
    {
      hide Wallet.ById;
      hide Filed;
      var books := OpenBooks(symbols);
      var wallet := new Wallet(loaded);
      var market := new MarketData(tape);
      assert Opened(books, symbols.Keys);
      exchange := new Exchange.Wire(symbols, books, wallet, store, cache, market);
      exchange.OpenedIsEmpty();
    }

    lemma OpenedIsEmpty()
      requires Opened(books, symbols.Keys)
      ensures Wired() && BooksValue() == EmptyBooks(symbols) && Refs() == {}
    {
    }

    /** The wallet, market and books of what was loaded; nothing is reconciled yet. */
    static method Reload(symbols: Symbols, store: PostgresStore, cache: CacheStore, ghost s: State)
      returns (exchange: Exchange, loaded: seq<Account>, records: seq<LiveOrder>, ghost os: seq<Order>,
               ghost trades: seq<Trade>)
      requires OwnIds(store.accounts) && forall id | id in store.orders :: store.orders[id].id == id
      requires s.symbols == symbols && s.db == store.Value() && s.cache == cache.Value()
      ensures trades == FirstRows(s.db.trades)
      ensures OpenOrders(s.db, os) && Views(records) == os && NoDuplicates(records) && fresh(set o | o in records)
      ensures exchange.Wired() && exchange.symbols == symbols && exchange.store == store && exchange.cache == cache
      ensures fresh(exchange) && fresh(exchange.wallet) && fresh(exchange.market) && fresh(exchange.books.Values)
      ensures exchange.Refs() <= (set o | o in records) && exchange.Value() == Loaded(s, os, trades)
      ensures Wallet.ById(loaded) == LoadAccounts(s.db.accounts)
    {
      hide OpenOrders;
      hide RestoreAll;
      hide LoadAccounts;
      hide Exchange.BooksValue;
      hide Exchange.Refs;
      hide Exchange.Wired;
      hide Views;
      hide Wallet.ById;
      hide Filed;
      hide PostgresStore.ListsAccounts;
      hide NoDuplicates;
      loaded := store.LoadAccountRows();
      var orders := store.LoadOpenOrders();
      var tape := store.LoadTrades();
      PostgresStore.ListingById(store.accounts, loaded);
      records := NewRecords(orders);
      exchange := Assemble(symbols, store, cache, loaded, tape);
      exchange.RestoreOrders(records);
      os, trades := orders, tape;
    }

    /** Start over whatever the store holds: load, restore the books, rebuild the reservations, write the
        reconciled accounts back, warm the caches. */
    static method NewExchange(symbols: Symbols, store: PostgresStore, cache: CacheStore, ghost s: State)
      returns (err: Option<Error>, exchange: Exchange?, ghost os: seq<Order>, ghost trades: seq<Trade>,
               ghost written: set<string>)
      requires OwnIds(store.accounts) && forall id | id in store.orders :: store.orders[id].id == id
      requires s.symbols == symbols && s.db == store.Value() && s.cache == cache.Value()
      modifies store`accounts, cache
      ensures OpenOrders(s.db, os) && trades == FirstRows(s.db.trades)
      ensures err.None? <==> Machine.Restart(s, os, trades).0.None?
      ensures err.Some? ==>
                && exchange == null && Written(err, s.db.accounts, ToSync(s, os), written)
                && var s1 := SyncAll(BeforeSync(s, os, trades), Only(ToSync(s, os), written));
                store.accounts == s1.db.accounts && cache.Value() == s1.cache
      ensures err.None? ==>
                && exchange != null && exchange.symbols == symbols && exchange.store == store && exchange.cache == cache
                && fresh(exchange) && fresh(exchange.wallet) && fresh(exchange.market) && fresh(exchange.books.Values)
                && fresh(exchange.Refs())
                && exchange.Value() == Machine.Restart(s, os, trades).1
      ensures Good(s) ==> err.None? && exchange.Valid()
    {
      hide Good;
      hide OwnIds;
      hide OpenOrders;
      hide Machine.Restart;
      hide BeforeSync;
      hide ToSync;
      hide Exchange.BooksValue;
      hide Exchange.Refs;
      hide Exchange.Wired;
      hide Views;
      hide Wallet.ById;
      hide LoadAccounts;
      hide NoDuplicates;
      hide Loaded;
      hide Written;
      hide Only;
      hide SyncAll;
      var loaded, records, started;
      started, loaded, records, os, trades := Reload(symbols, store, cache, s);
      ghost var refs := started.Refs();
      err, written := started.RebuildRecoveredState(loaded, records, s, os, trades);
      assert started.Refs() == refs;
      if Good(s) {
        RestartIsInvisible(s, os, trades);
        RestartKeepsGood(s, os, trades);
      }
      exchange := if err.None? then started else null;
    }

  }
}
