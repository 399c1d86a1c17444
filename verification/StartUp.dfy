/** Starting over whatever the store holds: the books and the rebuilt reservations share their records, and
    the write-back of the reconciled accounts may meet a version conflict. */
module StartUp {
  import opened Domain
  import opened Priority
  import opened BookModel
  import opened WalletModel
  import opened Recovery
  import opened Machine
  import opened OrderRecords
  import opened Syncing
  import opened Restarting
  import opened Steps

  // ----- rewriting reservations on the books

  /** The same orders but for their reservations. */
  ghost predicate Alike(s: seq<Order>, t: seq<Order>) {
    |s| == |t| && forall i | 0 <= i < |s| :: SameExceptReserved(s[i], t[i])
  }

  ghost predicate AlikeBook(b: Book, b': Book) {
    Alike(b.bids, b'.bids) && Alike(b.asks, b'.asks) && b.seqNo == b'.seqNo
  }

  ghost predicate BooksAlike(books: map<string, Book>, books': map<string, Book>) {
    && books.Keys == books'.Keys
    && forall n | n in books :: AlikeBook(books[n], books'[n])
  }

  lemma {:induction false} InsertAtAlike(side: Side, s: seq<Order>, t: seq<Order>, o: Order, o': Order)
    requires Alike(s, t) && SameExceptReserved(o, o')
    ensures InsertAt(side, s, o) == InsertAt(side, t, o')
  {
    if s != [] {
      InsertAtAlike(side, s[..|s| - 1], t[..|t| - 1], o, o');
    }
  }

  lemma {:induction false} SortAlike(side: Side, s: seq<Order>, t: seq<Order>)
    requires Alike(s, t)
    ensures Alike(StableSort(side, s), StableSort(side, t))
  {
    hide SameExceptReserved;
    hide Insert;
    if s != [] {
      var n := |s| - 1;
      SortAlike(side, s[..n], t[..n]);
      InsertAlike(side, StableSort(side, s[..n]), StableSort(side, t[..n]), s[n], t[n]);
    }
  }

  lemma InsertAlike(side: Side, s: seq<Order>, t: seq<Order>, o: Order, o': Order)
    requires Alike(s, t) && SameExceptReserved(o, o')
    ensures Alike(Insert(side, s, o), Insert(side, t, o'))
  {
    hide SameExceptReserved;
    InsertAtAlike(side, s, t, o, o');
  }

  lemma RestoreAlike(b: Book, b': Book, o: Order, o': Order)
    requires AlikeBook(b, b') && SameExceptReserved(o, o')
    ensures AlikeBook(Restore(b, o), Restore(b', o'))
  {
    hide StableSort;
    SortAlike(BuySide, if o.side == BuySide then b.bids + [o] else b.bids,
              if o'.side == BuySide then b'.bids + [o'] else b'.bids);
    SortAlike(SellSide, if o.side == SellSide then b.asks + [o] else b.asks,
              if o'.side == SellSide then b'.asks + [o'] else b'.asks);
  }

  /** Where a restored order stands does not depend on its reservation. */
  lemma {:induction false} RestoreAllAlike(books: map<string, Book>, books': map<string, Book>, os: seq<Order>,
                                           os': seq<Order>)
    requires BooksAlike(books, books') && Alike(os, os')
    ensures BooksAlike(RestoreAll(books, os), RestoreAll(books', os'))
    decreases |os|
  {
    hide Restore;
    if os != [] {
      var n := os[0].symbol;
      if n in books {
        RestoreAlike(books[n], books'[n], os[0], os'[0]);
        RestoreAllAlike(books[n := Restore(books[n], os[0])], books'[n := Restore(books'[n], os'[0])], os[1..],
                        os'[1..]);
      } else {
        RestoreAllAlike(books, books', os[1..], os'[1..]);
      }
    }
  }

  lemma RestoreMembers(b: Book, o: Order, p: Order)
    ensures var r := Restore(b, o);
            p in r.bids || p in r.asks ==> p == o || p in b.bids || p in b.asks
  {
    hide StableSort;
    var bids := if o.side == BuySide then b.bids + [o] else b.bids;
    var asks := if o.side == SellSide then b.asks + [o] else b.asks;
    StableSortPermutes(BuySide, bids);
    StableSortPermutes(SellSide, asks);
    assert p in StableSort(BuySide, bids) <==> p in multiset(StableSort(BuySide, bids));
    assert p in StableSort(SellSide, asks) <==> p in multiset(StableSort(SellSide, asks));
  }

  /** Nothing comes to stand on a book that was not restored. */
  lemma {:induction false} OnlyRestored(books: map<string, Book>, os: seq<Order>, n: string, p: Order)
    requires n in books
    ensures n in RestoreAll(books, os)
    ensures var b := RestoreAll(books, os)[n];
            p in b.bids || p in b.asks ==> p in os || p in books[n].bids || p in books[n].asks
    decreases |os|
  {
    hide Restore;
    if os != [] {
      var first := os[0].symbol;
      if first in books {
        RestoreMembers(books[first], os[0], p);
        OnlyRestored(books[first := Restore(books[first], os[0])], os[1..], n, p);
      } else {
        OnlyRestored(books, os[1..], n, p);
      }
    }
  }

  /** A side whose records have been rewritten is the side the rewritten orders are restored to. */
  lemma RewrittenSide(side: seq<Order>, shown: seq<Order>, restored: seq<Order>, os: seq<Order>)
    requires Alike(side, restored) && Alike(side, shown) && DistinctIds(os)
    requires forall o | o in shown || o in restored :: o in os
    ensures shown == restored
  {
    forall k | 0 <= k < |side|
      ensures shown[k] == restored[k]
    {
      assert SameExceptReserved(side[k], shown[k]) && SameExceptReserved(side[k], restored[k]);
      assert shown[k] in os && restored[k] in os;
      var i :| 0 <= i < |os| && os[i] == shown[k];
      var j :| 0 <= j < |os| && os[j] == restored[k];
      assert os[i].id == os[j].id;
    }
  }

  /** Rewriting the records that stand on the books is restoring the rewritten orders. */
  lemma RewrittenBooks(symbols: Symbols, os: seq<Order>, os': seq<Order>, shown: map<string, Book>)
    requires Alike(os, os') && DistinctIds(os)
    requires BooksAlike(RestoreAll(EmptyBooks(symbols), os), shown)
    requires forall n, o | n in shown && (o in shown[n].bids || o in shown[n].asks) :: o in os'
    ensures shown == RestoreAll(EmptyBooks(symbols), os')
  {
    hide RestoreAll;
    hide Alike;
    hide DistinctIds;
    var empty := EmptyBooks(symbols);
    var before, after := RestoreAll(empty, os), RestoreAll(empty, os');
    assert BooksAlike(empty, empty) && DistinctIds(os') by { EmptyAlike(symbols); SameIds(os, os'); }
    RestoreAllAlike(empty, empty, os, os');
    RestoredNames(symbols, os');
    forall n | n in shown
      ensures shown[n] == after[n]
    {
      forall o | o in after[n].bids || o in after[n].asks
        ensures o in os'
      {
        OnlyRestored(empty, os', n, o);
      }
      RewrittenSide(before[n].bids, shown[n].bids, after[n].bids, os');
      RewrittenSide(before[n].asks, shown[n].asks, after[n].asks, os');
    }
  }

  lemma EmptyAlike(symbols: Symbols)
    ensures BooksAlike(EmptyBooks(symbols), EmptyBooks(symbols))
  {
  }

  lemma SameIds(os: seq<Order>, os': seq<Order>)
    requires Alike(os, os') && DistinctIds(os)
    ensures DistinctIds(os')
  {
    assert forall i | 0 <= i < |os| :: SameExceptReserved(os[i], os'[i]) && os'[i].id == os[i].id;
  }

  lemma RestoredNames(symbols: Symbols, os: seq<Order>)
    ensures RestoreAll(EmptyBooks(symbols), os).Keys == symbols.Keys
  {
    RestoreKeeps(EmptyBooks(symbols), os);
  }

  lemma {:induction false} RestoreKeeps(books: map<string, Book>, os: seq<Order>)
    ensures RestoreAll(books, os).Keys == books.Keys
    decreases |os|
  {
    hide Restore;
    if os != [] {
      RestoreKeeps(if os[0].symbol in books then RestoredFirst(books, os[0]) else books, os[1..]);
    }
  }

  lemma ListedDistinctIds(db: Db, os: seq<Order>)
    requires OpenOrders(db, os)
    ensures DistinctIds(os)
  {
  }

  /** What was loaded, before the reservations are rebuilt. */
  function Loaded(s: State, os: seq<Order>, trades: seq<Trade>): State {
    s.(wallet := LoadAccounts(s.db.accounts), books := RestoreAll(EmptyBooks(s.symbols), os),
    market := Filed(trades, map[]))
  }

  // ----- version conflicts at the start

  /** Later accounts keep the identity, version and entries of the loaded ones; others are new. */
  ghost predicate Grown(loaded: Accounts, w: Accounts) {
    && (forall a | a in loaded :: a in w && w[a].id == loaded[a].id && w[a].version == loaded[a].version)
    && (forall a | a in loaded :: loaded[a].balances.Keys <= w[a].balances.Keys)
    && (forall a | a in w && a !in loaded :: w[a].id == a && w[a].version == 0)
  }

  lemma EnsuringGrows(loaded: Accounts, w: Accounts, id: string)
    requires Grown(loaded, w)
    ensures Grown(loaded, Ensure(w, id))
  {
  }

  lemma ShiftingGrows(loaded: Accounts, w: Accounts, id: string, asset: string, available: real, locked: real)
    requires Grown(loaded, w) && id in w
    ensures Grown(loaded, Shift(w, id, asset, available, locked))
  {
    hide Bal;
  }

  lemma {:induction false} FreeingGrows(loaded: Accounts, w: Accounts, symbols: Symbols, os: seq<Order>)
    requires Grown(loaded, w)
    ensures Grown(loaded, FreeAll(w, symbols, os))
    decreases |os|
  {
    hide Bal;
    hide Grown;
    hide Shift;
    if os != [] {
      var o := os[0];
      if o.symbol in symbols {
        var w0, asset := Ensure(w, o.account), LockAsset(symbols[o.symbol], o.side);
        var locked := Bal(w0, o.account, asset).locked;
        EnsuringGrows(loaded, w, o.account);
        ShiftingGrows(loaded, w0, o.account, asset, locked, -locked);
      }
      FreeingGrows(loaded, FreeOne(w, symbols, o), symbols, os[1..]);
    }
  }

  lemma {:induction false} LockingGrows(loaded: Accounts, w: Accounts, symbols: Symbols, os: seq<Order>)
    requires Grown(loaded, w)
    ensures Grown(loaded, LockAll(w, symbols, os).accounts)
    decreases |os|
  {
    hide Bal;
    hide Want;
    hide Grown;
    hide Shift;
    if os != [] {
      var o := os[0];
      if o.symbol in symbols {
        var w0, asset := Ensure(w, o.account), LockAsset(symbols[o.symbol], o.side);
        var amount := Grant(w0, symbols, o);
        EnsuringGrows(loaded, w, o.account);
        ShiftingGrows(loaded, w0, o.account, asset, -amount, amount);
      }
      LockingGrows(loaded, LockOne(w, symbols, o).0, symbols, os[1..]);
    }
  }

  lemma RebuildingGrows(w: Accounts, symbols: Symbols, os: seq<Order>)
    ensures Grown(w, Rebuild(w, symbols, os).accounts)
  {
    hide FreeAll;
    hide LockAll;
    FreeingGrows(w, w, symbols, os);
    LockingGrows(w, FreeAll(w, symbols, os), symbols, os);
  }

  lemma RebuildKeepsOrders(w: Accounts, symbols: Symbols, os: seq<Order>)
    ensures Alike(os, Rebuild(w, symbols, os).orders)
  {
    hide FreeAll;
    hide LockAll;
    hide SameExceptReserved;
    forall i | 0 <= i < |os|
      ensures SameExceptReserved(os[i], Rebuild(w, symbols, os).orders[i])
    {
      LockAllKeepsOrders(FreeAll(w, symbols, os), symbols, os, i);
    }
  }

  lemma SameAffected(symbols: Symbols, os: seq<Order>, os': seq<Order>, a: string)
    requires Alike(os, os')
    ensures AccountAffected(symbols, os', a) <==> AccountAffected(symbols, os, a)
  {
    assert forall i | 0 <= i < |os| :: SameExceptReserved(os[i], os'[i]) && os'[i].account == os[i].account
                                       && os'[i].symbol == os[i].symbol;
  }

  /** What is written back at the start, in terms of the orders as loaded. */
  lemma ToSyncIs(s: State, os: seq<Order>)
    ensures var loaded := LoadAccounts(s.db.accounts);
            var w := Rebuild(loaded, s.symbols, os).accounts;
            var touched := map a | a in w && AccountAffected(s.symbols, os, a) :: w[a];
            ToSync(s, os) == if touched == map[] then loaded else touched
  {
    hide Rebuild;
    hide AccountAffected;
    hide LoadAccounts;
    hide Alike;
    var loaded := LoadAccounts(s.db.accounts);
    var r := Rebuild(loaded, s.symbols, os);
    RebuildKeepsOrders(loaded, s.symbols, os);
    forall a
      ensures AccountAffected(s.symbols, r.orders, a) <==> AccountAffected(s.symbols, os, a)
    {
      SameAffected(s.symbols, os, r.orders, a);
    }
  }

  lemma AffectedIsPresent(w: Accounts, symbols: Symbols, os: seq<Order>, a: string)
    requires AccountAffected(symbols, os, a)
    ensures a in Rebuild(w, symbols, os).accounts
  {
    hide FreeAll;
    hide LockAll;
    FreeAllMakesPresent(w, symbols, os);
    LockAllShape(FreeAll(w, symbols, os), symbols, os);
  }

  lemma ToSyncOwnIds(s: State, os: seq<Order>)
    requires OwnIds(s.db.accounts)
    ensures OwnIds(ToSync(s, os))
  {
    hide Rebuild;
    hide AccountAffected;
    ToSyncIs(s, os);
    RebuildingGrows(LoadAccounts(s.db.accounts), s.symbols, os);
  }

  /** The account was stored before and has no balance row, so a reload misses its version. */
  predicate Overlooked(table: Accounts, a: string) {
    a in table && table[a].balances == map[] && table[a].version != 0
  }

  lemma ConflictsWhenOverlooked(s: State, os: seq<Order>, a: string)
    requires OwnIds(s.db.accounts) && a in ToSync(s, os)
    ensures Machine.PersistAccount(s.db.accounts, ToSync(s, os)[a]).err.Some? <==> Overlooked(s.db.accounts, a)
  {
    hide Rebuild;
    hide AccountAffected;
    ToSyncIs(s, os);
    RebuildingGrows(LoadAccounts(s.db.accounts), s.symbols, os);
    ToSyncOwnIds(s, os);
  }

  /** A start fails exactly when an open order of a known market belongs to an account that a reload
      overlooks. */
  lemma StartFailsIff(s: State, os: seq<Order>, trades: seq<Trade>)
    requires forall a | a in s.db.accounts :: s.db.accounts[a].id == a
    ensures Restart(s, os, trades).0.Some? <==>
            exists i | 0 <= i < |os| :: os[i].symbol in s.symbols && Overlooked(s.db.accounts, os[i].account)
  {
    hide Rebuild;
    hide RestoreAll;
    hide Filed;
    hide Warmed;
    hide Overlooked;
    hide Machine.PersistAccount;
    var table, changed := s.db.accounts, ToSync(s, os);
    var loaded := LoadAccounts(table);
    var w := Rebuild(loaded, s.symbols, os).accounts;
    assert OwnIds(table);
    ToSyncIs(s, os);
    ToSyncOwnIds(s, os);
    if i :| 0 <= i < |os| && os[i].symbol in s.symbols && Overlooked(table, os[i].account) {
      var a := os[i].account;
      AffectedIsPresent(loaded, s.symbols, os, a);
      var touched := map a | a in w && AccountAffected(s.symbols, os, a) :: w[a];
      assert a in touched;
      ConflictsWhenOverlooked(s, os, a);
    }
    if Restart(s, os, trades).0.Some? {
      var a :| a in changed && !(changed[a].id == a && Machine.PersistAccount(table, changed[a]).err.None?);
      ConflictsWhenOverlooked(s, os, a);
      LoadedNotOverlooked(table, a);
    }
  }

  lemma LoadedNotOverlooked(table: Accounts, a: string)
    ensures a in LoadAccounts(table) ==> !Overlooked(table, a)
  {
  }

  /** Tables over which no process starts: an account row without balances, two versions on, and an order. */
  lemma StartCanFail(symbols: Symbols, name: string)
    requires name in symbols
    ensures var o := Order("order-1", "alice", name, BuySide, 1.0, 1.0, 1.0, 1.0, 1, Open);
            var db := Db(map["alice" := Account("alice", 2, map[])], map["order-1" := o], [], []);
            var s := State(symbols, map[], map[], db, map[], Cache(map[], map[], map[]));
            OpenOrders(db, [o]) && Restart(s, [o], []).0.Some?
  {
    hide Restart;
    var o := Order("order-1", "alice", name, BuySide, 1.0, 1.0, 1.0, 1.0, 1, Open);
    var db := Db(map["alice" := Account("alice", 2, map[])], map["order-1" := o], [], []);
    var s := State(symbols, map[], map[], db, map[], Cache(map[], map[], map[]));
    assert [o][0].symbol in symbols && Overlooked(db.accounts, [o][0].account);
    StartFailsIff(s, [o], []);
  }

  // ----- what a successful start leaves, over whatever tables

  /** Leaving out accounts without balance rows leaves out no balance. */
  lemma LoadedBalance(table: Accounts, a: string, x: string)
    ensures Bal(LoadAccounts(table), a, x) == Bal(table, a, x)
  {
  }

  lemma LoadedNonNegative(table: Accounts)
    requires NonNegative(table)
    ensures NonNegative(LoadAccounts(table))
  {
    hide LoadAccounts;
    hide Bal;
    forall a, x
      ensures Bal(LoadAccounts(table), a, x).available >= 0.0 && Bal(LoadAccounts(table), a, x).locked >= 0.0
    {
      LoadedBalance(table, a, x);
      assert Bal(table, a, x).available >= 0.0 && Bal(table, a, x).locked >= 0.0;
    }
  }

  /** A key that holds an order's funds is written back. */
  lemma AffectedIsWritten(s: State, os: seq<Order>, a: string, x: string)
    requires Affected(s.symbols, os, a, x)
    ensures var w := Rebuild(LoadAccounts(s.db.accounts), s.symbols, os).accounts;
            a in w && a in ToSync(s, os) && ToSync(s, os)[a] == w[a]
  {
    hide Rebuild;
    hide AccountAffected;
    hide Affected;
    hide LoadAccounts;
    var loaded := LoadAccounts(s.db.accounts);
    var w := Rebuild(loaded, s.symbols, os).accounts;
    ToSyncIs(s, os);
    assert AccountAffected(s.symbols, os, a) by { AffectedAccounts(s.symbols, os, a); }
    AffectedIsPresent(loaded, s.symbols, os, a);
    var touched := map b | b in w && AccountAffected(s.symbols, os, b) :: w[b];
    assert a in touched;
  }

  /** What is written back are balances as the rebuild left them, and has every entry that is stored. */
  lemma WrittenBalance(s: State, os: seq<Order>, a: string, x: string)
    requires NonNegative(s.db.accounts) && Recoverable(os)
    ensures var changed, table := ToSync(s, os), s.db.accounts;
            var w := Rebuild(LoadAccounts(table), s.symbols, os).accounts;
            && (a in changed ==> Bal(changed, a, x) == Bal(w, a, x))
            && (a in changed && a in table ==> table[a].balances.Keys <= changed[a].balances.Keys)
            && (a !in changed ==> Bal(table, a, x) == Bal(w, a, x))
  {
    hide Rebuild;
    hide AccountAffected;
    hide Affected;
    var table := s.db.accounts;
    var loaded := LoadAccounts(table);
    ToSyncIs(s, os);
    RebuildingGrows(loaded, s.symbols, os);
    LoadedNonNegative(table);
    LoadedBalance(table, a, x);
    RebuildConserves(loaded, s.symbols, os, a, x);
    if Affected(s.symbols, os, a, x) {
      AffectedIsWritten(s, os, a, x);
    }
  }

  /** The wallet and the stored rows once everything is written back. */
  lemma StartedBalance(s: State, os: seq<Order>, a: string, x: string)
    requires OwnIds(s.db.accounts) && NoConflict(s.db.accounts, ToSync(s, os))
    requires NonNegative(s.db.accounts) && Recoverable(os)
    ensures var table, changed := s.db.accounts, ToSync(s, os);
            var w := Rebuild(LoadAccounts(table), s.symbols, os).accounts;
            && Bal(w + Bumped(table, changed), a, x) == Bal(w, a, x)
            && Bal(PersistAll(table, changed), a, x) == Bal(w, a, x)
  {
    hide Rebuild;
    hide LoadAccounts;
    hide ToSync;
    hide NonNegative;
    hide Recoverable;
    hide PersistAccount;
    var table, changed := s.db.accounts, ToSync(s, os);
    WrittenBalance(s, os, a, x);
    ToSyncOwnIds(s, os);
    if a in changed {
      PersistComparesVersion(table, changed[a]);
    }
  }

  /** Over any tables whose balances are not negative, a start that succeeds leaves wallet and store with the
      same balances. It creates and destroys nothing: every stored total is as it was. On each key that open
      orders draw on the lock is the sum of what the books' orders now hold; every other balance is as stored. */
  lemma StartReconciles(s: State, os: seq<Order>, trades: seq<Trade>, a: string, x: string)
    requires OwnIds(s.db.accounts) && NonNegative(s.db.accounts) && Recoverable(os)
    requires Restart(s, os, trades).0.None?
    ensures var s', orders := Restart(s, os, trades).1, Rebuild(LoadAccounts(s.db.accounts), s.symbols, os).orders;
            var b := Bal(s'.wallet, a, x);
            && Bal(s'.db.accounts, a, x) == b && b.available >= 0.0 && b.locked >= 0.0
            && Total(b) == Total(Bal(s.db.accounts, a, x))
            && (if Affected(s.symbols, os, a, x) then b.locked == SumReserved(s.symbols, orders, a, x)
                else b == Bal(s.db.accounts, a, x))
            && s'.books == RestoreAll(EmptyBooks(s.symbols), orders)
  {
    hide Rebuild;
    hide LoadAccounts;
    hide ToSync;
    hide NonNegative;
    hide Recoverable;
    hide Affected;
    hide Bal;
    hide NoConflict;
    hide RestoreAll;
    hide Filed;
    hide PersistAll;
    hide Bumped;
    LoadedNonNegative(s.db.accounts);
    LoadedBalance(s.db.accounts, a, x);
    RebuildConserves(LoadAccounts(s.db.accounts), s.symbols, os, a, x);
    StartedBalance(s, os, a, x);
  }
}
