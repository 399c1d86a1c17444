/** A restart is invisible: reloading the store, restoring the books and rebuilding the
    reservations gives back the balances, the reservations and the books. */
module Restarting {
  import opened Domain
  import opened Matching
  import opened Priority
  import opened BookModel
  import opened WalletModel
  import opened Recovery
  import opened Money
  import opened Machine
  import opened Invariant
  import opened Executing
  import opened Syncing

  // ----- restoring one order

  ghost predicate NewToBook(b: Book, o: Order) {
    forall p | InBook(b, p) :: p.sequence != o.sequence
  }

  lemma AppendDistinct(s: seq<Order>, o: Order)
    requires DistinctSequences(s) && forall p | p in s :: p.sequence != o.sequence
    ensures DistinctSequences(s + [o])
  {
  }

  /** A restored order goes to its place on its side; the other side and all others stay. */
  lemma RestoreIsInsert(b: Book, o: Order)
    requires Ordered(b) && NewToBook(b, o)
    ensures Own(Restore(b, o), o.side) == Insert(o.side, Own(b, o.side), o)
    ensures Opposite(Restore(b, o), o.side) == Opposite(b, o.side)
    ensures Sorted(o.side, Insert(o.side, Own(b, o.side), o)) && DistinctSequences(Insert(o.side, Own(b, o.side), o))
  {
    hide StableSort;
    hide Insert;
    hide Sorted;
    OrderedBySides(b, o.side);
    var own, opposite := Own(b, o.side), Opposite(b, o.side);
    forall p | p in own
      ensures p.sequence != o.sequence
    {
      assert InBook(b, p);
    }
    AppendDistinct(own, o);
    AppendAndSortInserts(o.side, own, o);
    SortedIsFixed(OtherSide(o.side), opposite);
  }

  lemma InsertMembers(side: Side, s: seq<Order>, o: Order)
    ensures forall p :: p in Insert(side, s, o) <==> p in s || p == o
  {
    hide InsertAt;
    var k := InsertAt(side, s, o);
    assert s == s[..k] + s[k..];
  }

  lemma RestoreKeepsOrder(b: Book, o: Order)
    requires Ordered(b) && NewToBook(b, o)
    ensures Ordered(Restore(b, o))
    ensures forall p :: InBook(Restore(b, o), p) <==> InBook(b, p) || p == o
    ensures forall p :: p in Restore(b, o).bids <==> p in b.bids || (p == o && o.side == BuySide)
    ensures forall p :: p in Restore(b, o).asks <==> p in b.asks || (p == o && o.side == SellSide)
  {
    hide StableSort;
    hide Insert;
    hide Sorted;
    var own, opposite, b' := Own(b, o.side), Opposite(b, o.side), Restore(b, o);
    RestoreIsInsert(b, o);
    InsertMembers(o.side, own, o);
    OrderedBySides(b, o.side);
    var own' := Insert(o.side, own, o);
    forall i | 0 <= i < |own'|
      ensures own'[i].sequence <= b'.seqNo
      ensures forall j | 0 <= j < |opposite| :: own'[i].sequence != opposite[j].sequence
    {
      assert own'[i] in own || own'[i] == o;
      forall j | 0 <= j < |opposite|
        ensures own'[i].sequence != opposite[j].sequence
      {
        assert InBook(b, opposite[j]);
      }
    }
    OrderedBySides(b', o.side);
  }

  lemma RestoreHeld(sym: Symbol, b: Book, o: Order, a: string, x: string)
    requires Ordered(b) && NewToBook(b, o)
    ensures BookHeld(sym, Restore(b, o), a, x) == BookHeld(sym, b, a, x) + Held(sym, o, a, x)
  {
    hide StableSort;
    hide Insert;
    hide Sorted;
    hide Ordered;
    hide Held;
    RestoreIsInsert(b, o);
    SumHeldInsert(sym, o.side, Own(b, o.side), o, a, x);
  }

  // ----- restoring a list

  /** Every listed order has a book, and no two orders of a book share an arrival number. */
  ghost predicate Joinable(books: map<string, Book>, os: seq<Order>) {
    && (forall n | n in books :: Ordered(books[n]))
    && (forall i | 0 <= i < |os| :: os[i].symbol in books && NewToBook(books[os[i].symbol], os[i]))
    && (forall i, j | 0 <= i < j < |os| && os[i].symbol == os[j].symbol :: os[i].sequence != os[j].sequence)
  }

  function RestoredFirst(books: map<string, Book>, o: Order): map<string, Book>
    requires o.symbol in books
  {
    books[o.symbol := Restore(books[o.symbol], o)]
  }

  lemma JoinableRest(books: map<string, Book>, os: seq<Order>)
    requires Joinable(books, os) && os != []
    ensures Joinable(RestoredFirst(books, os[0]), os[1..])
    ensures Ordered(books[os[0].symbol]) && NewToBook(books[os[0].symbol], os[0])
  {
    hide Ordered;
    hide Restore;
    var n := os[0].symbol;
    RestoreKeepsOrder(books[n], os[0]);
    var books' := RestoredFirst(books, os[0]);
    forall i | 0 <= i < |os[1..]|
      ensures os[1..][i].symbol in books' && NewToBook(books'[os[1..][i].symbol], os[1..][i])
    {
      assert os[1..][i] == os[i + 1];
    }
    forall i, j | 0 <= i < j < |os[1..]| && os[1..][i].symbol == os[1..][j].symbol
      ensures os[1..][i].sequence != os[1..][j].sequence
    {
      assert os[1..][i] == os[i + 1] && os[1..][j] == os[j + 1];
    }
  }

  lemma {:induction false} RestoreAllOrdered(books: map<string, Book>, os: seq<Order>)
    requires Joinable(books, os)
    ensures RestoreAll(books, os).Keys == books.Keys
    ensures forall n | n in books :: Ordered(RestoreAll(books, os)[n])
    decreases |os|
  {
    hide Ordered;
    hide Restore;
    if os != [] {
      JoinableRest(books, os);
      RestoreAllOrdered(RestoredFirst(books, os[0]), os[1..]);
    }
  }

  lemma {:induction false} RestoreAllMembers(books: map<string, Book>, os: seq<Order>, n: string, p: Order)
    requires Joinable(books, os) && n in books
    ensures n in RestoreAll(books, os)
    ensures p in RestoreAll(books, os)[n].bids <==>
            p in books[n].bids || (p in os && p.symbol == n && p.side == BuySide)
    ensures p in RestoreAll(books, os)[n].asks <==>
            p in books[n].asks || (p in os && p.symbol == n && p.side == SellSide)
    decreases |os|
  {
    hide Ordered;
    hide Restore;
    hide Joinable;
    if os != [] {
      assert os[0].symbol in books by { assert Joinable(books, os); JoinableHead(books, os); }
      JoinableRest(books, os);
      RestoreKeepsOrder(books[os[0].symbol], os[0]);
      RestoreAllMembers(RestoredFirst(books, os[0]), os[1..], n, p);
      assert p in os <==> p == os[0] || p in os[1..];
    }
  }

  lemma JoinableHead(books: map<string, Book>, os: seq<Order>)
    requires Joinable(books, os) && os != []
    ensures os[0].symbol in books
  {
  }

  /** After a restore the counter is the largest of where it stood and the restored arrival numbers. */
  lemma {:induction false} RestoreAllCounter(books: map<string, Book>, os: seq<Order>, n: string)
    requires n in books
    ensures n in RestoreAll(books, os) && RestoreAll(books, os)[n].seqNo >= books[n].seqNo
    ensures forall i | 0 <= i < |os| && os[i].symbol == n :: os[i].sequence <= RestoreAll(books, os)[n].seqNo
    ensures RestoreAll(books, os)[n].seqNo == books[n].seqNo
            || exists i | 0 <= i < |os| :: os[i].symbol == n && os[i].sequence == RestoreAll(books, os)[n].seqNo
    decreases |os|
  {
    hide StableSort;
    if os != [] {
      var books' := if os[0].symbol in books then RestoredFirst(books, os[0]) else books;
      RestoreAllCounter(books', os[1..], n);
      var last := RestoreAll(books, os)[n].seqNo;
      forall i | 0 <= i < |os| && os[i].symbol == n
        ensures os[i].sequence <= last
      {
        assert i > 0 ==> os[i] == os[1..][i - 1];
      }
      if i :| 0 <= i < |os[1..]| && os[1..][i].symbol == n && os[1..][i].sequence == last {
        assert os[i + 1].symbol == n && os[i + 1].sequence == last;
      } else {
        assert last == books'[n].seqNo;
        assert os[0].symbol == n && os[0].sequence > books[n].seqNo ==> os[0].symbol == n && os[0].sequence == last;
      }
    }
  }


  /** The restored books hold what they held before plus what the listed orders have reserved. */
  lemma {:induction false} RestoreAllHeld(symbols: Symbols, books: map<string, Book>, os: seq<Order>, a: string,
                                          x: string)
    requires books.Keys == symbols.Keys && Joinable(books, os) && AllLive(os)
    ensures RestoreAll(books, os).Keys == symbols.Keys
    ensures BooksHeld(symbols, RestoreAll(books, os), symbols.Keys, a, x) ==
            BooksHeld(symbols, books, symbols.Keys, a, x) + SumReserved(symbols, os, a, x)
    decreases |os|
  {
    hide Ordered;
    hide Restore;
    hide Joinable;
    hide BookHeld;
    hide Held;
    if os != [] {
      var n, books' := os[0].symbol, RestoredFirst(books, os[0]) by { JoinableHead(books, os); }
      JoinableHead(books, os);
      JoinableRest(books, os);
      assert forall o | o in os[1..] :: o in os;
      RestoreAllHeld(symbols, books', os[1..], a, x);
      RestoreHeld(symbols[n], books[n], os[0], a, x);
      BooksHeldUpdate(symbols, books, n, Restore(books[n], os[0]), a, x);
      HeldIsReserved(symbols, os[0], a, x);
    }
  }

  lemma HeldIsReserved(symbols: Symbols, o: Order, a: string, x: string)
    requires o.symbol in symbols && o.reserved == LockAmount(o)
    ensures Held(symbols[o.symbol], o, a, x) == if OnKey(symbols, o, a, x) then o.reserved else 0.0
  {
  }

  lemma {:induction false} EmptyHeld(symbols: Symbols, ns: set<string>, a: string, x: string)
    requires ns <= symbols.Keys
    ensures BooksHeld(symbols, EmptyBooks(symbols), ns, a, x) == 0.0
    decreases |ns|
  {
    if ns != {} {
      var n :| n in ns;
      BooksHeldPick(symbols, EmptyBooks(symbols), ns, n, a, x);
      EmptyHeld(symbols, ns - {n}, a, x);
    }
  }

  // ----- the same books come back

  /** Which orders are restored determines the books, not the order they are restored in. */
  lemma CanonicalBooks(symbols: Symbols, os: seq<Order>, os': seq<Order>)
    requires Joinable(EmptyBooks(symbols), os) && Joinable(EmptyBooks(symbols), os')
    requires forall o :: o in os <==> o in os'
    ensures RestoreAll(EmptyBooks(symbols), os) == RestoreAll(EmptyBooks(symbols), os')
  {
    hide Joinable;
    hide RestoreAll;
    hide Ordered;
    var empty := EmptyBooks(symbols);
    RestoreAllOrdered(empty, os);
    RestoreAllOrdered(empty, os');
    forall n | n in symbols
      ensures RestoreAll(empty, os)[n] == RestoreAll(empty, os')[n]
    {
      CanonicalCounter(symbols, os, os', n);
      var b, b' := RestoreAll(empty, os)[n], RestoreAll(empty, os')[n];
      forall p
        ensures p in b.bids <==> p in b'.bids
        ensures p in b.asks <==> p in b'.asks
      {
        RestoreAllMembers(empty, os, n, p);
        RestoreAllMembers(empty, os', n, p);
      }
      SidesSorted(b);
      SidesSorted(b');
      SortedByMembers(BuySide, b.bids, b'.bids);
      SortedByMembers(SellSide, b.asks, b'.asks);
    }
  }

  lemma CanonicalCounter(symbols: Symbols, os: seq<Order>, os': seq<Order>, n: string)
    requires n in symbols && forall o :: o in os <==> o in os'
    ensures n in RestoreAll(EmptyBooks(symbols), os) && n in RestoreAll(EmptyBooks(symbols), os')
    ensures RestoreAll(EmptyBooks(symbols), os)[n].seqNo == RestoreAll(EmptyBooks(symbols), os')[n].seqNo
  {
    hide RestoreAll;
    CounterWithin(symbols, os, os', n);
    CounterWithin(symbols, os', os, n);
  }

  lemma CounterWithin(symbols: Symbols, os: seq<Order>, os': seq<Order>, n: string)
    requires n in symbols && forall o | o in os :: o in os'
    ensures n in RestoreAll(EmptyBooks(symbols), os) && n in RestoreAll(EmptyBooks(symbols), os')
    ensures RestoreAll(EmptyBooks(symbols), os)[n].seqNo <= RestoreAll(EmptyBooks(symbols), os')[n].seqNo
  {
    hide RestoreAll;
    RestoreAllCounter(EmptyBooks(symbols), os, n);
    RestoreAllCounter(EmptyBooks(symbols), os', n);
    forall i | 0 <= i < |os| && os[i].symbol == n
      ensures os[i].sequence <= RestoreAll(EmptyBooks(symbols), os')[n].seqNo
    {
      assert os[i] in os';
      var j :| 0 <= j < |os'| && os'[j] == os[i];
    }
  }

  lemma ListedAreResting(s: State, os: seq<Order>)
    requires Good(s) && OpenOrders(s.db, os)
    ensures forall o | o in os :: o.symbol in s.books && InBook(s.books[o.symbol], o) && Resting(o, o.side, o.symbol)
    ensures forall n, o | n in s.books && InBook(s.books[n], o) :: o in os && o.symbol == n
  {
    hide Ordered;
    hide Uncrossed;
    hide LocksAgree;
    hide LedgerAgrees;
    hide CacheAgrees;
    hide Accounted;
    hide AccountsAgree;
    hide LockAmount;
    forall o | o in os
      ensures o.symbol in s.books && InBook(s.books[o.symbol], o) && Resting(o, o.side, o.symbol)
    {
      assert s.db.orders[o.id] == o;
    }
    forall n, o | n in s.books && InBook(s.books[n], o)
      ensures o in os && o.symbol == n
    {
      assert Resting(o, o.side, n);
      assert s.db.orders[o.id] == o;
    }
  }

  lemma ListedIsJoinable(s: State, os: seq<Order>)
    requires Good(s) && OpenOrders(s.db, os)
    ensures WellFormed(s) && Joinable(EmptyBooks(s.symbols), os) && AllLive(os)
    ensures forall o | o in os :: o.symbol in s.books && InBook(s.books[o.symbol], o) && Resting(o, o.side, o.symbol)
    ensures forall n, o | n in s.books && InBook(s.books[n], o) :: o in os && o.symbol == n
  {
    hide Good;
    hide BookOk;
    hide LockAmount;
    hide Ordered;
    GoodWellFormed(s);
    ListedAreResting(s, os);
    EmptyIsOrdered();
    forall i, j | 0 <= i < j < |os| && os[i].symbol == os[j].symbol
      ensures os[i].sequence != os[j].sequence
    {
      assert os[i] in os && os[j] in os && os[i] != os[j];
      GoodBook(s, os[i].symbol);
      SequencesDiffer(s.books[os[i].symbol], os[i], os[j]);
    }
    forall i | 0 <= i < |os|
      ensures os[i].symbol in EmptyBooks(s.symbols) && NewToBook(EmptyBooks(s.symbols)[os[i].symbol], os[i])
    {
      assert os[i] in os;
    }
  }

  lemma EmptyIsOrdered()
    ensures Ordered(EMPTY_BOOK)
  {
  }

  lemma SequencesDiffer(b: Book, o: Order, p: Order)
    requires Ordered(b) && InBook(b, o) && InBook(b, p) && o != p
    ensures o.sequence != p.sequence
  {
    hide Sorted;
    if o in b.bids {
      var i :| 0 <= i < |b.bids| && b.bids[i] == o;
      if p in b.bids {
        var j :| 0 <= j < |b.bids| && b.bids[j] == p;
      } else {
        var j :| 0 <= j < |b.asks| && b.asks[j] == p;
      }
    } else {
      var i :| 0 <= i < |b.asks| && b.asks[i] == o;
      if p in b.bids {
        var j :| 0 <= j < |b.bids| && b.bids[j] == p;
      } else {
        var j :| 0 <= j < |b.asks| && b.asks[j] == p;
      }
    }
  }

  /** Restoring the open orders, in whatever order they are listed, gives each book the same bids
      and asks; its counter may drop but still bounds every resting arrival number. */
  lemma BooksComeBack(s: State, os: seq<Order>, n: string)
    requires Good(s) && OpenOrders(s.db, os) && n in s.symbols
    ensures var books := RestoreAll(EmptyBooks(s.symbols), os);
            && n in books
            && books[n].bids == s.books[n].bids && books[n].asks == s.books[n].asks
            && 0 <= books[n].seqNo <= s.books[n].seqNo
            && Ordered(books[n])
  {
    hide Good;
    hide Joinable;
    hide RestoreAll;
    hide OpenOrders;
    hide Resting;
    hide Ordered;
    GoodBook(s, n);
    ListedIsJoinable(s, os);
    RestoreAllOrdered(EmptyBooks(s.symbols), os);
    var b, b' := s.books[n], RestoreAll(EmptyBooks(s.symbols), os)[n];
    assert Ordered(b');
    forall p
      ensures p in b'.bids <==> p in b.bids
      ensures p in b'.asks <==> p in b.asks
    {
      RestoreAllMembers(EmptyBooks(s.symbols), os, n, p);
      ListedSides(s, os, n, p);
    }
    SidesSorted(b);
    SidesSorted(b');
    SortedByMembers(BuySide, b'.bids, b.bids);
    SortedByMembers(SellSide, b'.asks, b.asks);
    forall i | 0 <= i < |os| && os[i].symbol == n
      ensures os[i].sequence <= b.seqNo
    {
      assert os[i] in os;
      SequenceBounded(b, os[i]);
    }
    RestoreAllCounter(EmptyBooks(s.symbols), os, n);
  }

  lemma GoodBook(s: State, n: string)
    requires Good(s) && n in s.symbols
    ensures WellFormed(s) && n in s.books && BookOk(s.books[n], n) && Ordered(s.books[n]) && s.books[n].seqNo >= 0
  {
  }

  lemma SidesSorted(b: Book)
    requires Ordered(b)
    ensures Sorted(BuySide, b.bids) && Sorted(SellSide, b.asks)
  {
  }

  lemma SequenceBounded(b: Book, o: Order)
    requires Ordered(b) && InBook(b, o)
    ensures o.sequence <= b.seqNo
  {
    hide Sorted;
  }

  lemma ListedSides(s: State, os: seq<Order>, n: string, p: Order)
    requires Good(s) && OpenOrders(s.db, os) && n in s.symbols
    ensures n in s.books
    ensures p in s.books[n].bids <==> p in os && p.symbol == n && p.side == BuySide
    ensures p in s.books[n].asks <==> p in os && p.symbol == n && p.side == SellSide
  {
    hide OpenOrders;
    hide Ordered;
    hide Live;
    hide LocksAgree;
    hide LedgerAgrees;
    hide CacheAgrees;
    hide Accounted;
    hide AccountsAgree;
    hide OrdersAgree;
    hide Uncrossed;
    GoodBook(s, n);
    ListedIsJoinable(s, os);
    if p in os {
      assert BookOk(s.books[p.symbol], p.symbol);
    }
  }

  // ----- the whole restart

  lemma LoadsEverything(table: Accounts)
    requires forall a | a in table :: table[a].balances != map[]
    ensures LoadAccounts(table) == table
  {
  }

  /** The reservations of the listed orders are what the books hold. */
  lemma ReservedIsHeld(s: State, os: seq<Order>, a: string, x: string)
    requires Good(s) && OpenOrders(s.db, os)
    ensures WellFormed(s) && SumReserved(s.symbols, os, a, x) == TotalHeld(s, a, x)
  {
    hide Good;
    hide Joinable;
    hide RestoreAll;
    hide OpenOrders;
    hide Resting;
    hide Ordered;
    hide BooksHeld;
    GoodWellFormed(s);
    ListedIsJoinable(s, os);
    var books := RestoreAll(EmptyBooks(s.symbols), os);
    RestoreAllHeld(s.symbols, EmptyBooks(s.symbols), os, a, x);
    EmptyHeld(s.symbols, s.symbols.Keys, a, x);
    forall n | n in s.symbols
      ensures BookHeld(s.symbols[n], books[n], a, x) == BookHeld(s.symbols[n], s.books[n], a, x)
    {
      BooksComeBack(s, os, n);
    }
    BooksHeldSame(s.symbols, books, s.books, s.symbols.Keys, a, x);
  }

  lemma GoodWellFormed(s: State)
    requires Good(s)
    ensures WellFormed(s) && NonNegative(s.wallet) && AccountsAgree(s) && LocksAgree(s)
  {
  }

  lemma {:induction false} BooksHeldSame(symbols: Symbols, books: map<string, Book>, books': map<string, Book>,
                                         ns: set<string>, a: string, x: string)
    requires ns <= symbols.Keys && ns <= books.Keys && ns <= books'.Keys
    requires forall n | n in ns :: BookHeld(symbols[n], books[n], a, x) == BookHeld(symbols[n], books'[n], a, x)
    ensures BooksHeld(symbols, books, ns, a, x) == BooksHeld(symbols, books', ns, a, x)
    decreases |ns|
  {
    hide BookHeld;
    if ns != {} {
      var n :| n in ns;
      BooksHeldPick(symbols, books, ns, n, a, x);
      BooksHeldPick(symbols, books', ns, n, a, x);
      BooksHeldSame(symbols, books, books', ns - {n}, a, x);
    }
  }

  /** Every open order's account has an entry to lock in. */
  lemma ListedArePresent(s: State, os: seq<Order>)
    requires Good(s) && OpenOrders(s.db, os)
    ensures Present(s.wallet, s.symbols, os)
  {
    hide Good;
    hide OpenOrders;
    hide Ordered;
    hide Bal;
    hide Uncrossed;
    hide LockAmount;
    GoodWellFormed(s);
    ListedIsJoinable(s, os);
    forall i | 0 <= i < |os| && os[i].symbol in s.symbols
      ensures os[i].account in s.wallet
              && LockAsset(s.symbols[os[i].symbol], os[i].side) in s.wallet[os[i].account].balances
    {
      var o := os[i];
      assert o in os;
      var a, x := o.account, LockAsset(s.symbols[o.symbol], o.side);
      ReservedWithinSum(s.symbols, os, i, a, x);
      LiveWants(o);
      ReservedIsHeld(s, os, a, x);
      LockedIsPresent(s.wallet, a, x);
    }
  }

  lemma {:induction false} ReservedWithinSum(symbols: Symbols, os: seq<Order>, i: nat, a: string, x: string)
    requires AllLive(os) && i < |os| && os[i].symbol in symbols
    requires a == os[i].account && x == LockAsset(symbols[os[i].symbol], os[i].side)
    ensures SumReserved(symbols, os, a, x) >= os[i].reserved
  {
    hide LockAmount;
    assert forall o | o in os[1..] :: o in os;
    LiveWants(os[0]);
    ReservedNonNegative(symbols, os[1..], a, x);
    if i > 0 {
      ReservedWithinSum(symbols, os[1..], i - 1, a, x);
    }
  }

  /** Rebuilding after a reload changes no account and no order. */
  lemma RestartRebuildsNothing(s: State, os: seq<Order>)
    requires Good(s) && OpenOrders(s.db, os)
    ensures LoadAccounts(s.db.accounts) == s.wallet
    ensures Rebuild(s.wallet, s.symbols, os) == Rebuilt(s.wallet, os)
  {
    hide Good;
    hide OpenOrders;
    hide Bal;
    hide TotalHeld;
    hide Rebuild;
    hide Present;
    GoodWellFormed(s);
    LoadsEverything(s.db.accounts);
    ListedIsJoinable(s, os);
    ListedArePresent(s, os);
    forall a, x
      ensures Bal(s.wallet, a, x).locked == SumReserved(s.symbols, os, a, x)
    {
      ReservedIsHeld(s, os, a, x);
    }
    RebuildIsNoOp(s.wallet, s.symbols, os);
  }

  /** The accounts a restart writes back are ones the wallet holds as the store does. */
  lemma ReconciledIsAhead(s: State, os: seq<Order>)
    requires Good(s)
    ensures Ahead(s.db.accounts, s.wallet, Reconciled(s.wallet, Rebuilt(s.wallet, os), s.symbols))
    ensures SameOutside(s.wallet, s.wallet, Reconciled(s.wallet, Rebuilt(s.wallet, os), s.symbols).Keys)
  {
    hide BooksOk;
    hide LocksAgree;
    hide LedgerAgrees;
    hide OrdersAgree;
    hide Accounted;
    hide CacheAgrees;
    hide NonNegative;
  }

  function Reloaded(s: State, os: seq<Order>, trades: seq<Trade>): State {
    s.(books := RestoreAll(EmptyBooks(s.symbols), os), market := Filed(trades, map[]))
  }

  lemma RestartSteps(s: State, os: seq<Order>, trades: seq<Trade>)
    requires Good(s) && OpenOrders(s.db, os)
    ensures var changed := Reconciled(s.wallet, Rebuilt(s.wallet, os), s.symbols);
            var s2 := SyncAll(Reloaded(s, os, trades), changed);
            && Ahead(s.db.accounts, s.wallet, changed)
            && Restart(s, os, trades) == (None, s2.(cache := Warmed(s2)))
  {
    hide Good;
    hide OpenOrders;
    hide Rebuild;
    hide RestoreAll;
    hide Filed;
    hide Reconciled;
    hide SyncAll;
    hide NoConflict;
    hide LoadAccounts;
    RestartRebuildsNothing(s, os);
    ReconciledIsAhead(s, os);
    var changed := Reconciled(s.wallet, Rebuilt(s.wallet, os), s.symbols);
    SyncAllAgrees(s, changed);
    GoodWellFormed(s);
    assert Reloaded(s, os, trades) ==
           s.(wallet := s.wallet, books := RestoreAll(EmptyBooks(s.symbols), os), market := Filed(trades, map[]));
  }

  /** A restart from a good state succeeds and is invisible: the same balances, the same orders
      with the same reservations, the same bids and asks; only some versions move on, and the
      counters may drop. */
  lemma RestartIsInvisible(s: State, os: seq<Order>, trades: seq<Trade>)
    requires Good(s) && OpenOrders(s.db, os)
    ensures var (err, s') := Restart(s, os, trades);
            && err.None?
            && s'.symbols == s.symbols && s'.books.Keys == s.books.Keys == s.symbols.Keys
            && (forall a, x :: Bal(s'.wallet, a, x) == Bal(s.wallet, a, x))
            && s'.db == s.db.(accounts := s'.wallet)
            && AccountsAgree(s') && s'.wallet.Keys == s.wallet.Keys
            && (forall n | n in s.symbols ::
                  && s'.books[n].bids == s.books[n].bids && s'.books[n].asks == s.books[n].asks
                  && 0 <= s'.books[n].seqNo <= s.books[n].seqNo && Ordered(s'.books[n]))
  {
    hide Good;
    hide OpenOrders;
    hide RestoreAll;
    hide Filed;
    hide Reconciled;
    hide Bal;
    hide Ordered;
    hide Restart;
    RestartSteps(s, os, trades);
    GoodWellFormed(s);
    var changed, s1 := Reconciled(s.wallet, Rebuilt(s.wallet, os), s.symbols), Reloaded(s, os, trades);
    SyncAllAgrees(s1, changed);
    RestoredKeys(s, os);
    forall n | n in s.symbols
      ensures s1.books[n].bids == s.books[n].bids && s1.books[n].asks == s.books[n].asks
      ensures 0 <= s1.books[n].seqNo <= s.books[n].seqNo && Ordered(s1.books[n])
    {
      BooksComeBack(s, os, n);
    }
  }

  /** A restart takes the counter back to the last arrival still resting; it survives exactly when
      that is the last arrival of all. */
  lemma CounterSurvivesIff(s: State, os: seq<Order>, trades: seq<Trade>, n: string)
    requires Good(s) && OpenOrders(s.db, os) && n in s.symbols
    ensures n in s.books && n in Restart(s, os, trades).1.books
    ensures var was, now := s.books[n].seqNo, Restart(s, os, trades).1.books[n].seqNo;
            && (now == was <==> was == 0 || exists o :: InBook(s.books[n], o) && o.sequence == was)
            && (now == 0 || exists o :: InBook(s.books[n], o) && o.sequence == now)
            && (forall o | InBook(s.books[n], o) :: o.sequence <= now)
  {
    hide Good;
    hide OpenOrders;
    hide RestoreAll;
    hide Filed;
    hide Reconciled;
    hide Ordered;
    hide Restart;
    RestartSteps(s, os, trades);
    RestoredKeys(s, os);
    RestoreAllCounter(EmptyBooks(s.symbols), os, n);
    RestingIsListed(s, os, n);
    GoodBook(s, n);
    BooksComeBack(s, os, n);
    var now := RestoreAll(EmptyBooks(s.symbols), os)[n].seqNo;
    if i :| 0 <= i < |os| && os[i].symbol == n && os[i].sequence == now {
      assert os[i] in os && InBook(s.books[n], os[i]);
    }
    forall o | InBook(s.books[n], o)
      ensures o.sequence <= now
    {
      var i :| 0 <= i < |os| && os[i] == o;
    }
  }

  lemma RestingIsListed(s: State, os: seq<Order>, n: string)
    requires Good(s) && OpenOrders(s.db, os) && n in s.symbols
    ensures n in s.books && forall o :: InBook(s.books[n], o) <==> o in os && o.symbol == n
  {
    hide Good;
    hide OpenOrders;
    GoodWellFormed(s);
    forall o
      ensures InBook(s.books[n], o) <==> o in os && o.symbol == n
    {
      ListedSides(s, os, n, o);
    }
  }

  lemma RestoredKeys(s: State, os: seq<Order>)
    requires Good(s) && OpenOrders(s.db, os)
    ensures RestoreAll(EmptyBooks(s.symbols), os).Keys == s.symbols.Keys
  {
    hide Good;
    hide OpenOrders;
    ListedIsJoinable(s, os);
    RestoreAllOrdered(EmptyBooks(s.symbols), os);
  }

  lemma WarmedBooks(s: State)
    requires s.books.Keys == s.symbols.Keys && s.cache.books.Keys <= s.symbols.Keys
    ensures CachedBooks(Warmed(s).books, s.books)
  {
  }

  lemma WarmedTrades(s: State)
    requires s.cache.trades.Keys <= s.symbols.Keys
    ensures CachedTrades(Warmed(s).trades, s.symbols, s.market)
  {
    hide MarketTrades;
  }

  lemma RestartCaches(s: State, os: seq<Order>, trades: seq<Trade>)
    requires Good(s) && OpenOrders(s.db, os)
    ensures CacheAgrees(Restart(s, os, trades).1)
  {
    hide Good;
    hide OpenOrders;
    hide RestoreAll;
    hide Filed;
    hide Restart;
    hide Reconciled;
    hide CachedBooks;
    hide CachedTrades;
    RestartSteps(s, os, trades);
    RestoredKeys(s, os);
    GoodCache(s);
    var changed, s1 := Reconciled(s.wallet, Rebuilt(s.wallet, os), s.symbols), Reloaded(s, os, trades);
    ReconciledIsAhead(s, os);
    SyncAllCaches(s1, s.wallet, changed);
    WarmedBooks(SyncAll(s1, changed));
    WarmedTrades(SyncAll(s1, changed));
  }

  lemma GoodCache(s: State)
    requires Good(s)
    ensures CacheAgrees(s) && s.books.Keys == s.symbols.Keys
    ensures s.cache.books.Keys <= s.symbols.Keys && s.cache.trades.Keys <= s.symbols.Keys
  {
  }

  /** Everything the invariant says is about what a restart brings back. */
  lemma SameViewIsGood(s: State, s': State)
    requires Good(s) && CacheAgrees(s') && AccountsAgree(s')
    requires s'.symbols == s.symbols && s'.books.Keys == s.books.Keys && s'.db == s.db.(accounts := s'.db.accounts)
    requires forall a, x :: Bal(s'.wallet, a, x) == Bal(s.wallet, a, x)
    requires forall n | n in s.books ::
               s'.books[n].bids == s.books[n].bids && s'.books[n].asks == s.books[n].asks
               && s'.books[n].seqNo >= 0 && Ordered(s'.books[n])
    ensures Good(s')
  {
    hide Bal;
    hide Ordered;
    hide CacheAgrees;
    hide AccountsAgree;
    hide Accounted;
    hide Uncrossed;
    hide Resting;
    hide BooksHeld;
    hide Replayed;
    hide Deposited;
    hide Total;
    assert BooksOk(s') by { SameBooksOk(s, s'); }
    assert OrdersAgree(s') by { SameOrdersAgree(s, s'); }
    forall a, x
      ensures TotalHeld(s', a, x) == TotalHeld(s, a, x)
    {
      BooksHeldSame(s.symbols, s'.books, s.books, s.symbols.Keys, a, x);
    }
    assert NonNegative(s'.wallet) by {
      forall a, x
        ensures Bal(s'.wallet, a, x).available >= 0.0 && Bal(s'.wallet, a, x).locked >= 0.0
      {
        assert Bal(s.wallet, a, x).available >= 0.0;
      }
    }
    assert Accounted(s') by { SameAccounted(s, s'); }
  }

  lemma SameBooksOk(s: State, s': State)
    requires BooksOk(s) && s'.books.Keys == s.books.Keys
    requires forall n | n in s.books ::
               s'.books[n].bids == s.books[n].bids && s'.books[n].asks == s.books[n].asks
               && s'.books[n].seqNo >= 0 && Ordered(s'.books[n])
    ensures BooksOk(s')
  {
    hide Ordered;
    hide Resting;
    forall n | n in s'.books
      ensures BookOk(s'.books[n], n)
    {
      assert BookOk(s.books[n], n);
    }
  }

  lemma SameOrdersAgree(s: State, s': State)
    requires OrdersAgree(s) && s'.books.Keys == s.books.Keys && s'.db.orders == s.db.orders
    requires forall n | n in s.books :: s'.books[n].bids == s.books[n].bids && s'.books[n].asks == s.books[n].asks
    ensures OrdersAgree(s')
  {
  }

  lemma SameAccounted(s: State, s': State)
    requires Accounted(s) && s'.symbols == s.symbols && s'.db.orders == s.db.orders && s'.db.trades == s.db.trades
    ensures Accounted(s')
  {
  }

  lemma RestartKeepsGood(s: State, os: seq<Order>, trades: seq<Trade>)
    requires Good(s) && OpenOrders(s.db, os)
    ensures Good(Restart(s, os, trades).1)
  {
    hide Good;
    hide OpenOrders;
    hide Restart;
    hide Bal;
    hide CacheAgrees;
    hide Ordered;
    RestartIsInvisible(s, os, trades);
    RestartCaches(s, os, trades);
    SameViewIsGood(s, Restart(s, os, trades).1);
  }

  // ----- versions and caches after a restart

  lemma ReconciledAre(s: State, os: seq<Order>, a: string)
    requires Good(s) && OpenOrders(s.db, os)
    ensures var changed := Reconciled(s.wallet, Rebuilt(s.wallet, os), s.symbols);
            a in changed <==> a in s.wallet && (os == [] || exists i | 0 <= i < |os| :: os[i].account == a)
  {
    hide Good;
    hide OpenOrders;
    hide Resting;
    hide Ordered;
    hide InBook;
    ListedAreResting(s, os);
    ListedArePresent(s, os);
    GoodWellFormed(s);
    AffectedNeedsOpen(s.wallet, s.symbols, os, a);
  }

  lemma AffectedNeedsOpen(w: Accounts, symbols: Symbols, os: seq<Order>, a: string)
    requires Present(w, symbols, os) && forall o | o in os :: o.symbol in symbols
    ensures a in Reconciled(w, Rebuilt(w, os), symbols) <==>
            a in w && (os == [] || exists i | 0 <= i < |os| :: os[i].account == a)
  {
    forall i | 0 <= i < |os|
      ensures os[i].symbol in symbols && os[i].account in w && AccountAffected(symbols, os, os[i].account)
    {
      assert os[i] in os;
    }
    assert AccountAffected(symbols, os, a) <==> exists i | 0 <= i < |os| :: os[i].account == a;
    var touched := map b | b in w && AccountAffected(symbols, os, b) :: w[b];
    assert Reconciled(w, Rebuilt(w, os), symbols) == if touched == map[] then w else touched;
    if os != [] {
      assert os[0].account in touched;
    }
  }

  /** A restart moves on by one version exactly the accounts with an open order, or all accounts when no order
      is open; otherwise every account is as it was. */
  lemma RestartVersions(s: State, os: seq<Order>, trades: seq<Trade>, a: string)
    requires Good(s) && OpenOrders(s.db, os)
    ensures var s' := Restart(s, os, trades).1;
            && s'.wallet.Keys == s.wallet.Keys
            && (a in s.wallet ==>
                  var moves := os == [] || exists i | 0 <= i < |os| :: os[i].account == a;
                  s'.wallet[a] == if moves then s.wallet[a].(version := s.wallet[a].version + 1) else s.wallet[a])
  {
    hide Good;
    hide OpenOrders;
    hide Restart;
    hide RestoreAll;
    hide Filed;
    hide Reconciled;
    hide SyncAll;
    hide NoConflict;
    hide Ahead;
    hide Bal;
    hide Warmed;
    var changed, s1 := Reconciled(s.wallet, Rebuilt(s.wallet, os), s.symbols), Reloaded(s, os, trades);
    RestartSteps(s, os, trades);
    SyncAllAgrees(s1, changed);
    ReconciledAre(s, os, a);
  }

  lemma WarmedAll(s: State, n: string)
    requires n in s.symbols && n in s.books
    ensures var c := Warmed(s);
            && n in c.books && c.books[n] == Snapshot(s.books[n].bids, s.books[n].asks)
            && n in c.trades && c.trades[n] == (if n in s.market then s.market[n] else [])
  {
  }

  lemma SyncAllCached(s: State, changed: Accounts, a: string)
    ensures a in changed ==> a in SyncAll(s, changed).cache.accounts
    ensures SyncAll(s, changed).books == s.books && SyncAll(s, changed).market == s.market
            && SyncAll(s, changed).symbols == s.symbols
  {
    hide PersistAll;
    hide PersistAccount;
  }

  /** A restart caches every market's book and trade list as they stand, and every account it wrote back. */
  lemma RestartWarms(s: State, os: seq<Order>, trades: seq<Trade>, n: string, a: string)
    requires Good(s) && OpenOrders(s.db, os) && n in s.symbols
    ensures var s' := Restart(s, os, trades).1;
            && n in s'.books && n in s'.cache.books && n in s'.cache.trades
            && s'.cache.books[n] == Snapshot(s'.books[n].bids, s'.books[n].asks)
            && s'.cache.trades[n] == (if n in s'.market then s'.market[n] else [])
            && (a in s.wallet && (os == [] || exists i | 0 <= i < |os| :: os[i].account == a) ==>
                  a in s'.cache.accounts)
  {
    hide Good;
    hide OpenOrders;
    hide Restart;
    hide RestoreAll;
    hide Filed;
    hide Reconciled;
    hide SyncAll;
    hide NoConflict;
    hide Ahead;
    var changed, s1 := Reconciled(s.wallet, Rebuilt(s.wallet, os), s.symbols), Reloaded(s, os, trades);
    RestartSteps(s, os, trades);
    RestoredKeys(s, os);
    ReconciledAre(s, os, a);
    SyncAllCached(s1, changed, a);
    WarmedAll(SyncAll(s1, changed), n);
  }
}
