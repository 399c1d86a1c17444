/** Rebuilding reservations after a restart: free every lock the open orders stand on, then
    lock again order by order. From any stored balances this is an allocator that funds each
    key's orders in turn; from balances that agree with the orders it changes nothing. */
module Recovery {
  import opened Domain
  import opened WalletModel

  type Symbols = map<string, Symbol>

  datatype Rebuilt = Rebuilt(accounts: Accounts, orders: seq<Order>)

  /** The order holds part of this account's balance in this asset. */
  predicate OnKey(symbols: Symbols, o: Order, a: string, x: string) {
    o.symbol in symbols && o.account == a && LockAsset(symbols[o.symbol], o.side) == x
  }

  predicate Affected(symbols: Symbols, os: seq<Order>, a: string, x: string) {
    exists i | 0 <= i < |os| :: OnKey(symbols, os[i], a, x)
  }

  predicate AccountAffected(symbols: Symbols, os: seq<Order>, a: string) {
    exists i | 0 <= i < |os| :: os[i].symbol in symbols && os[i].account == a
  }

  lemma AffectedAccounts(symbols: Symbols, os: seq<Order>, a: string)
    ensures AccountAffected(symbols, os, a) <==> exists x :: Affected(symbols, os, a, x)
  {
    if AccountAffected(symbols, os, a) {
      var i :| 0 <= i < |os| && os[i].symbol in symbols && os[i].account == a;
      assert OnKey(symbols, os[i], a, LockAsset(symbols[os[i].symbol], os[i].side));
      assert Affected(symbols, os, a, LockAsset(symbols[os[i].symbol], os[i].side));
    }
  }

  function FreeOne(w: Accounts, symbols: Symbols, o: Order): Accounts {
    if o.symbol !in symbols then w
    else
      var w0 := Ensure(w, o.account);
      var asset := LockAsset(symbols[o.symbol], o.side);
      var locked := Bal(w0, o.account, asset).locked;
      Shift(w0, o.account, asset, locked, -locked)
  }

  function FreeAll(w: Accounts, symbols: Symbols, os: seq<Order>): Accounts
    decreases |os|
  {
    if os == [] then w else FreeAll(FreeOne(w, symbols, os[0]), symbols, os[1..])
  }

  /** What an order asks for: its recorded reservation, or what it still needs when none is recorded. */
  function Want(o: Order): real {
    if o.reserved <= 0.0 then LockAmount(o) else o.reserved
  }

  function Grant(w: Accounts, symbols: Symbols, o: Order): real
    requires o.symbol in symbols
  {
    var available := Bal(w, o.account, LockAsset(symbols[o.symbol], o.side)).available;
    if Want(o) > available then available else Want(o)
  }

  function LockOne(w: Accounts, symbols: Symbols, o: Order): (Accounts, Order) {
    if o.symbol !in symbols then (w, o)
    else
      var w0 := Ensure(w, o.account);
      var amount := Grant(w0, symbols, o);
      (Shift(w0, o.account, LockAsset(symbols[o.symbol], o.side), -amount, amount), o.(reserved := amount))
  }

  function LockAll(w: Accounts, symbols: Symbols, os: seq<Order>): (r: Rebuilt)
    ensures |r.orders| == |os|
    decreases |os|
  {
    if os == [] then Rebuilt(w, [])
    else
      var (w', o') := LockOne(w, symbols, os[0]);
      var r := LockAll(w', symbols, os[1..]);
      Rebuilt(r.accounts, [o'] + r.orders)
  }

  function Rebuild(w: Accounts, symbols: Symbols, os: seq<Order>): Rebuilt {
    LockAll(FreeAll(w, symbols, os), symbols, os)
  }

  /** What the listed orders have reserved of one account's balance in one asset. */
  function SumReserved(symbols: Symbols, os: seq<Order>, a: string, x: string): real {
    if os == [] then 0.0
    else (if OnKey(symbols, os[0], a, x) then os[0].reserved else 0.0) + SumReserved(symbols, os[1..], a, x)
  }

  ghost predicate Recoverable(os: seq<Order>) {
    forall o | o in os :: o.price > 0.0 && o.remaining > 0.0
  }

  ghost predicate NonNegative(w: Accounts) {
    forall a, x :: Bal(w, a, x).available >= 0.0 && Bal(w, a, x).locked >= 0.0
  }

  // ----- first loop

  lemma FreeOneEffect(w: Accounts, symbols: Symbols, o: Order, a: string, x: string)
    ensures Bal(FreeOne(w, symbols, o), a, x) ==
            if OnKey(symbols, o, a, x) then Balance(Total(Bal(w, a, x)), 0.0) else Bal(w, a, x)
  {
    hide Bal;
    hide Shift;
    if o.symbol in symbols {
      var w0, asset := Ensure(w, o.account), LockAsset(symbols[o.symbol], o.side);
      var locked := Bal(w0, o.account, asset).locked;
      BalEnsure(w, o.account, a, x);
      BalShift(w0, o.account, asset, locked, -locked, a, x);
    }
  }

  lemma AffectedCons(symbols: Symbols, os: seq<Order>, a: string, x: string)
    requires os != []
    ensures Affected(symbols, os, a, x) <==> OnKey(symbols, os[0], a, x) || Affected(symbols, os[1..], a, x)
  {
    if Affected(symbols, os, a, x) {
      var i :| 0 <= i < |os| && OnKey(symbols, os[i], a, x);
      assert i > 0 ==> os[i] == os[1..][i - 1];
    }
    if Affected(symbols, os[1..], a, x) {
      var i :| 0 <= i < |os[1..]| && OnKey(symbols, os[1..][i], a, x);
      assert os[i + 1] == os[1..][i];
    }
  }

  lemma {:induction false} FreeAllEffect(w: Accounts, symbols: Symbols, os: seq<Order>, a: string, x: string)
    ensures Bal(FreeAll(w, symbols, os), a, x) ==
            if Affected(symbols, os, a, x) then Balance(Total(Bal(w, a, x)), 0.0) else Bal(w, a, x)
    decreases |os|
  {
    hide Bal;
    hide OnKey;
    hide FreeOne;
    hide Affected;
    if os != [] {
      FreeOneEffect(w, symbols, os[0], a, x);
      FreeAllEffect(FreeOne(w, symbols, os[0]), symbols, os[1..], a, x);
      AffectedCons(symbols, os, a, x);
    } else {
      assert !Affected(symbols, os, a, x) by { NoneAffected(symbols, a, x); }
    }
  }

  lemma NoneAffected(symbols: Symbols, a: string, x: string)
    ensures !Affected(symbols, [], a, x)
  {
  }

  // ----- second loop

  lemma LockOneEffect(w: Accounts, symbols: Symbols, o: Order, a: string, x: string)
    ensures var (w', o') := LockOne(w, symbols, o);
            var granted := if OnKey(symbols, o, a, x) then o'.reserved else 0.0;
            && Bal(w', a, x).available == Bal(w, a, x).available - granted
            && Bal(w', a, x).locked == Bal(w, a, x).locked + granted
            && (OnKey(symbols, o', a, x) <==> OnKey(symbols, o, a, x))
            && (OnKey(symbols, o, a, x) ==>
                  granted == if Want(o) > Bal(w, a, x).available then Bal(w, a, x).available else Want(o))
  {
    hide Bal;
    hide Shift;
    hide Want;
    if o.symbol in symbols {
      var w0, asset := Ensure(w, o.account), LockAsset(symbols[o.symbol], o.side);
      var amount := Grant(w0, symbols, o);
      BalEnsure(w, o.account, a, x);
      BalShift(w0, o.account, asset, -amount, amount, a, x);
    }
  }

  lemma WantPositive(o: Order)
    requires o.price > 0.0 && o.remaining > 0.0
    ensures Want(o) > 0.0
  {
  }

  /** Locking moves exactly what it grants, never more than there is. */
  lemma {:induction false} LockAllEffect(w: Accounts, symbols: Symbols, os: seq<Order>, a: string, x: string)
    requires Recoverable(os) && Bal(w, a, x).available >= 0.0
    ensures var r := LockAll(w, symbols, os);
            var granted := SumReserved(symbols, r.orders, a, x);
            && Bal(r.accounts, a, x).available == Bal(w, a, x).available - granted >= 0.0
            && Bal(r.accounts, a, x).locked == Bal(w, a, x).locked + granted
            && granted >= 0.0
    decreases |os|
  {
    hide Bal;
    hide OnKey;
    hide LockOne;
    hide Want;
    if os != [] {
      var (w', o') := LockOne(w, symbols, os[0]);
      LockOneEffect(w, symbols, os[0], a, x);
      WantPositive(os[0]);
      assert forall o | o in os[1..] :: o in os;
      LockAllEffect(w', symbols, os[1..], a, x);
      assert LockAll(w, symbols, os).orders[1..] == LockAll(w', symbols, os[1..]).orders;
    }
  }

  ghost predicate SameExceptReserved(o: Order, o': Order) {
    o' == o.(reserved := o'.reserved)
  }

  lemma {:induction false} LockAllKeepsOrders(w: Accounts, symbols: Symbols, os: seq<Order>, i: nat)
    requires i < |os|
    ensures SameExceptReserved(os[i], LockAll(w, symbols, os).orders[i])
    decreases |os|
  {
    var (w', o') := LockOne(w, symbols, os[0]);
    if i > 0 {
      LockAllKeepsOrders(w', symbols, os[1..], i - 1);
    }
  }

  /** An order is granted what it wants as long as there is something left on its key, and the
      rest after that; nothing when nothing is left. */
  lemma {:induction false} LockAllGrants(w: Accounts, symbols: Symbols, os: seq<Order>, i: nat, a: string, x: string)
    requires Recoverable(os) && i < |os| && OnKey(symbols, os[i], a, x) && Bal(w, a, x).available >= 0.0
    ensures var r := LockAll(w, symbols, os);
            var left := Bal(w, a, x).available - SumReserved(symbols, r.orders[..i], a, x);
            && left >= 0.0
            && r.orders[i].reserved == if Want(os[i]) > left then left else Want(os[i])
    decreases |os|
  {
    hide Bal;
    hide OnKey;
    hide LockOne;
    hide Want;
    var (w', o') := LockOne(w, symbols, os[0]);
    var r := LockAll(w, symbols, os);
    LockOneEffect(w, symbols, os[0], a, x);
    WantPositive(os[0]);
    if i == 0 {
      assert r.orders[..0] == [];
    } else {
      assert forall o | o in os[1..] :: o in os;
      LockAllGrants(w', symbols, os[1..], i - 1, a, x);
      var r' := LockAll(w', symbols, os[1..]);
      assert r.orders[..i][1..] == r'.orders[..i - 1];
    }
  }

  lemma {:induction false} SumReservedSplit(symbols: Symbols, os: seq<Order>, i: nat, a: string, x: string)
    requires i < |os| && OnKey(symbols, os[i], a, x)
    ensures SumReserved(symbols, os[..i + 1], a, x) == SumReserved(symbols, os[..i], a, x) + os[i].reserved
  {
    hide OnKey;
    if i > 0 {
      SumReservedSplit(symbols, os[1..], i - 1, a, x);
      assert os[..i + 1][1..] == os[1..][..i] && os[..i][1..] == os[1..][..i - 1];
    } else {
      assert os[..1][1..] == [] && os[..0] == [];
    }
  }

  lemma {:induction false} SumReservedMonotone(symbols: Symbols, os: seq<Order>, i: nat, j: nat, a: string, x: string)
    requires i <= j <= |os|
    requires forall k | 0 <= k < |os| :: OnKey(symbols, os[k], a, x) ==> os[k].reserved >= 0.0
    ensures SumReserved(symbols, os[..i], a, x) <= SumReserved(symbols, os[..j], a, x)
    decreases |os|
  {
    hide OnKey;
    if i == 0 {
      assert os[..0] == [];
      if j > 0 {
        SumReservedMonotone(symbols, os[1..], 0, j - 1, a, x);
        assert os[..j][1..] == os[1..][..j - 1] && os[1..][..0] == [];
      }
    } else {
      SumReservedMonotone(symbols, os[1..], i - 1, j - 1, a, x);
      assert os[..j][1..] == os[1..][..j - 1] && os[..i][1..] == os[1..][..i - 1];
    }
  }

  // ----- the allocator

  /** From any non-negative balances: totals are kept, nothing goes negative, an affected key's
      lock equals what its orders were granted, other keys keep their balances. */
  lemma RebuildConserves(w: Accounts, symbols: Symbols, os: seq<Order>, a: string, x: string)
    requires Recoverable(os) && NonNegative(w)
    ensures var r := Rebuild(w, symbols, os);
            && Total(Bal(r.accounts, a, x)) == Total(Bal(w, a, x))
            && Bal(r.accounts, a, x).available >= 0.0 && Bal(r.accounts, a, x).locked >= 0.0
            && (Affected(symbols, os, a, x) ==> Bal(r.accounts, a, x).locked == SumReserved(symbols, r.orders, a, x))
            && (!Affected(symbols, os, a, x) ==> Bal(r.accounts, a, x) == Bal(w, a, x))
  {
    hide Bal;
    hide Affected;
    var freed := FreeAll(w, symbols, os);
    FreeAllEffect(w, symbols, os, a, x);
    assert Bal(w, a, x).available >= 0.0 && Bal(w, a, x).locked >= 0.0;
    LockAllEffect(freed, symbols, os, a, x);
    if !Affected(symbols, os, a, x) {
      NothingGranted(symbols, os, LockAll(freed, symbols, os).orders, a, x) by {
        forall i | 0 <= i < |os|
          ensures SameExceptReserved(os[i], LockAll(freed, symbols, os).orders[i])
        {
          LockAllKeepsOrders(freed, symbols, os, i);
        }
      }
    }
  }

  lemma {:induction false} NothingGranted(symbols: Symbols, os: seq<Order>, os': seq<Order>, a: string, x: string)
    requires |os| == |os'| && (forall i | 0 <= i < |os| :: SameExceptReserved(os[i], os'[i]))
    requires !Affected(symbols, os, a, x)
    ensures SumReserved(symbols, os', a, x) == 0.0
  {
    if os != [] {
      AffectedCons(symbols, os, a, x);
      NothingGranted(symbols, os[1..], os'[1..], a, x);
    }
  }

  /** Each order on a key gets its recorded reservation, or the cost of its remainder when none is
      recorded, but no more than the key's total leaves after the orders before it. */
  lemma RebuildGrants(w: Accounts, symbols: Symbols, os: seq<Order>, i: nat, a: string, x: string)
    requires Recoverable(os) && NonNegative(w) && i < |os| && OnKey(symbols, os[i], a, x)
    ensures var o, r := os[i], Rebuild(w, symbols, os);
            var left := Total(Bal(w, a, x)) - SumReserved(symbols, r.orders[..i], a, x);
            var want := if o.reserved > 0.0 then o.reserved
                        else if o.side == BuySide then o.price * o.remaining
                        else o.remaining;
            left >= 0.0 && r.orders[i] == o.(reserved := if want > left then left else want)
  {
    hide Bal;
    hide OnKey;
    hide Want;
    var freed := FreeAll(w, symbols, os);
    FreeAllEffect(w, symbols, os, a, x);
    assert Bal(w, a, x).available >= 0.0 && Bal(w, a, x).locked >= 0.0;
    LockAllGrants(freed, symbols, os, i, a, x);
    LockAllKeepsOrders(freed, symbols, os, i);
    WantSpelledOut(os[i]);
  }

  lemma WantSpelledOut(o: Order)
    ensures Want(o) == if o.reserved > 0.0 then o.reserved
                       else if o.side == BuySide then o.price * o.remaining
                       else o.remaining
  {
  }

  /** With nothing recorded, an order never holds more than its remainder costs. */
  lemma RebuildWithinRemainder(w: Accounts, symbols: Symbols, os: seq<Order>, i: nat)
    requires Recoverable(os) && NonNegative(w) && i < |os| && os[i].symbol in symbols && os[i].reserved <= 0.0
    ensures var o, granted := os[i], Rebuild(w, symbols, os).orders[i].reserved;
            0.0 <= granted <= if o.side == BuySide then o.price * o.remaining else o.remaining
  {
    hide Rebuild;
    hide Bal;
    WantPositive(os[i]);
    RebuildGrants(w, symbols, os, i, os[i].account, LockAsset(symbols[os[i].symbol], os[i].side));
  }

  /** Orders of other markets are passed over. */
  lemma {:induction false} RebuildSkipsUnknown(w: Accounts, symbols: Symbols, os: seq<Order>, i: nat)
    requires i < |os| && os[i].symbol !in symbols
    ensures Rebuild(w, symbols, os).orders[i] == os[i]
  {
    hide FreeAll;
    LockAllSkips(FreeAll(w, symbols, os), symbols, os, i);
  }

  lemma {:induction false} LockAllSkips(w: Accounts, symbols: Symbols, os: seq<Order>, i: nat)
    requires i < |os| && os[i].symbol !in symbols
    ensures LockAll(w, symbols, os).orders[i] == os[i]
    decreases |os|
  {
    if i > 0 {
      LockAllSkips(LockOne(w, symbols, os[0]).0, symbols, os[1..], i - 1);
    }
  }

  /** A prefix of each key's orders is funded in full, at most one in part, the rest not at all. */
  lemma RebuildFundsPrefix(w: Accounts, symbols: Symbols, os: seq<Order>, i: nat, j: nat, a: string, x: string)
    requires Recoverable(os) && NonNegative(w) && i < j < |os|
    requires OnKey(symbols, os[i], a, x) && OnKey(symbols, os[j], a, x)
    ensures var r := Rebuild(w, symbols, os);
            && 0.0 <= r.orders[i].reserved <= Want(os[i])
            && (r.orders[i].reserved < Want(os[i]) ==> r.orders[j].reserved == 0.0)
  {
    hide Bal;
    hide OnKey;
    hide Want;
    var r := Rebuild(w, symbols, os);
    RebuildGrants(w, symbols, os, i, a, x);
    RebuildGrants(w, symbols, os, j, a, x);
    WantSpelledOut(os[i]);
    WantSpelledOut(os[j]);
    WantPositive(os[i]);
    WantPositive(os[j]);
    GrantsNonNegative(w, symbols, os, a, x);
    OnKeyStays(symbols, os[i], r.orders[i], a, x);
    SumReservedSplit(symbols, r.orders, i, a, x);
    SumReservedMonotone(symbols, r.orders, i + 1, j, a, x);
  }

  lemma OnKeyStays(symbols: Symbols, o: Order, o': Order, a: string, x: string)
    requires SameExceptReserved(o, o')
    ensures OnKey(symbols, o', a, x) <==> OnKey(symbols, o, a, x)
  {
  }

  lemma GrantsNonNegative(w: Accounts, symbols: Symbols, os: seq<Order>, a: string, x: string)
    requires Recoverable(os) && NonNegative(w)
    ensures forall k | 0 <= k < |os| ::
              OnKey(symbols, Rebuild(w, symbols, os).orders[k], a, x) ==>
                Rebuild(w, symbols, os).orders[k].reserved >= 0.0
  {
    hide Bal;
    hide Want;
    hide OnKey;
    var r := Rebuild(w, symbols, os);
    forall k | 0 <= k < |os| && OnKey(symbols, r.orders[k], a, x)
      ensures r.orders[k].reserved >= 0.0
    {
      LockAllKeepsOrders(FreeAll(w, symbols, os), symbols, os, k);
      OnKeyStays(symbols, os[k], r.orders[k], a, x);
      RebuildGrants(w, symbols, os, k, a, x);
      WantSpelledOut(os[k]);
      WantPositive(os[k]);
    }
  }

  // ----- only the totals matter

  ghost predicate SameAvailable(w: Accounts, v: Accounts, symbols: Symbols, os: seq<Order>) {
    forall o | o in os && o.symbol in symbols ::
      var asset := LockAsset(symbols[o.symbol], o.side);
      Bal(w, o.account, asset).available == Bal(v, o.account, asset).available
  }

  lemma {:induction false} LockAllReadsAvailable(w: Accounts, v: Accounts, symbols: Symbols, os: seq<Order>)
    requires SameAvailable(w, v, symbols, os)
    ensures LockAll(w, symbols, os).orders == LockAll(v, symbols, os).orders
    decreases |os|
  {
    hide Bal;
    hide LockOne;
    hide Want;
    if os != [] {
      var (w', o1) := LockOne(w, symbols, os[0]);
      var (v', o2) := LockOne(v, symbols, os[0]);
      assert o1 == o2 by {
        LockOneReads(w, v, symbols, os[0]);
      }
      forall o | o in os[1..] && o.symbol in symbols
        ensures var asset := LockAsset(symbols[o.symbol], o.side);
                Bal(w', o.account, asset).available == Bal(v', o.account, asset).available
      {
        assert o in os;
        LockOneEffect(w, symbols, os[0], o.account, LockAsset(symbols[o.symbol], o.side));
        LockOneEffect(v, symbols, os[0], o.account, LockAsset(symbols[o.symbol], o.side));
      }
      LockAllReadsAvailable(w', v', symbols, os[1..]);
    }
  }

  lemma LockOneReads(w: Accounts, v: Accounts, symbols: Symbols, o: Order)
    requires o.symbol in symbols ==>
               Bal(w, o.account, LockAsset(symbols[o.symbol], o.side)).available ==
               Bal(v, o.account, LockAsset(symbols[o.symbol], o.side)).available
    ensures LockOne(w, symbols, o).1 == LockOne(v, symbols, o).1
  {
    hide Want;
    if o.symbol in symbols {
      BalEnsure(w, o.account, o.account, LockAsset(symbols[o.symbol], o.side));
      BalEnsure(v, o.account, o.account, LockAsset(symbols[o.symbol], o.side));
    }
  }

  /** How the stored total was split between available and locked makes no difference. */
  lemma RebuildReadsTotals(w: Accounts, v: Accounts, symbols: Symbols, os: seq<Order>)
    requires Recoverable(os) && NonNegative(w) && NonNegative(v)
    requires forall a, x :: Affected(symbols, os, a, x) ==> Total(Bal(w, a, x)) == Total(Bal(v, a, x))
    ensures Rebuild(w, symbols, os).orders == Rebuild(v, symbols, os).orders
    ensures forall a, x :: Affected(symbols, os, a, x) ==>
                             Bal(Rebuild(w, symbols, os).accounts, a, x) == Bal(Rebuild(v, symbols, os).accounts, a, x)
  {
    hide Bal;
    hide LockAll;
    var w1, v1 := FreeAll(w, symbols, os), FreeAll(v, symbols, os);
    forall o | o in os && o.symbol in symbols
      ensures var asset := LockAsset(symbols[o.symbol], o.side);
              Bal(w1, o.account, asset).available == Bal(v1, o.account, asset).available
    {
      var asset := LockAsset(symbols[o.symbol], o.side);
      var i :| 0 <= i < |os| && os[i] == o;
      assert OnKey(symbols, os[i], o.account, asset);
      FreeAllEffect(w, symbols, os, o.account, asset);
      FreeAllEffect(v, symbols, os, o.account, asset);
    }
    LockAllReadsAvailable(w1, v1, symbols, os);
    forall a, x | Affected(symbols, os, a, x)
      ensures Bal(Rebuild(w, symbols, os).accounts, a, x) == Bal(Rebuild(v, symbols, os).accounts, a, x)
    {
      RebuildConserves(w, symbols, os, a, x);
      RebuildConserves(v, symbols, os, a, x);
    }
  }

  // ----- the accounts as a whole

  /** The same accounts, versions and balance entries, whatever the amounts. */
  ghost predicate SameShape(w: Accounts, v: Accounts) {
    && w.Keys == v.Keys
    && forall a | a in w ::
         w[a].id == v[a].id && w[a].version == v[a].version && w[a].balances.Keys == v[a].balances.Keys
  }

  lemma SameAccounts(w: Accounts, v: Accounts)
    requires SameShape(w, v) && forall a, x :: Bal(w, a, x) == Bal(v, a, x)
    ensures w == v
  {
    forall a | a in w
      ensures w[a] == v[a]
    {
      forall x | x in w[a].balances
        ensures w[a].balances[x] == v[a].balances[x]
      {
        assert Bal(w, a, x) == Bal(v, a, x);
      }
      assert w[a].balances == v[a].balances;
    }
  }

  /** Every order's account exists and has an entry for the asset it locks. */
  ghost predicate Present(w: Accounts, symbols: Symbols, os: seq<Order>) {
    forall i | 0 <= i < |os| && os[i].symbol in symbols ::
      os[i].account in w && LockAsset(symbols[os[i].symbol], os[i].side) in w[os[i].account].balances
  }

  lemma PresentInShape(w: Accounts, v: Accounts, symbols: Symbols, os: seq<Order>)
    requires Present(w, symbols, os) && SameShape(w, v)
    ensures Present(v, symbols, os)
  {
  }

  lemma ShiftShape(w: Accounts, a: string, x: string, available: real, locked: real)
    requires a in w && x in w[a].balances
    ensures SameShape(w, Shift(w, a, x, available, locked))
  {
  }

  lemma {:induction false} FreeAllShape(w: Accounts, symbols: Symbols, os: seq<Order>)
    requires Present(w, symbols, os)
    ensures SameShape(w, FreeAll(w, symbols, os))
    decreases |os|
  {
    hide Bal;
    hide Shift;
    hide SameShape;
    if os != [] {
      var w' := FreeOne(w, symbols, os[0]);
      if os[0].symbol in symbols {
        var locked := Bal(w, os[0].account, LockAsset(symbols[os[0].symbol], os[0].side)).locked;
        ShiftShape(w, os[0].account, LockAsset(symbols[os[0].symbol], os[0].side), locked, -locked);
      } else {
        ShapeReflexive(w);
      }
      assert forall i | 0 <= i < |os[1..]| :: os[1..][i] == os[i + 1];
      assert Present(w, symbols, os[1..]);
      PresentInShape(w, w', symbols, os[1..]);
      FreeAllShape(w', symbols, os[1..]);
      ShapeTransitive(w, w', FreeAll(w, symbols, os));
    } else {
      ShapeReflexive(w);
    }
  }

  lemma {:induction false} LockAllShape(w: Accounts, symbols: Symbols, os: seq<Order>)
    requires Present(w, symbols, os)
    ensures SameShape(w, LockAll(w, symbols, os).accounts)
    decreases |os|
  {
    hide Bal;
    hide Shift;
    hide SameShape;
    hide Want;
    if os != [] {
      var w' := LockOne(w, symbols, os[0]).0;
      if os[0].symbol in symbols {
        var amount := Grant(w, symbols, os[0]);
        ShiftShape(w, os[0].account, LockAsset(symbols[os[0].symbol], os[0].side), -amount, amount);
      } else {
        ShapeReflexive(w);
      }
      assert forall i | 0 <= i < |os[1..]| :: os[1..][i] == os[i + 1];
      assert Present(w, symbols, os[1..]);
      PresentInShape(w, w', symbols, os[1..]);
      LockAllShape(w', symbols, os[1..]);
      ShapeTransitive(w, w', LockAll(w, symbols, os).accounts);
    } else {
      ShapeReflexive(w);
    }
  }

  lemma ShapeReflexive(w: Accounts)
    ensures SameShape(w, w)
  {
  }

  lemma ShapeTransitive(u: Accounts, v: Accounts, w: Accounts)
    requires SameShape(u, v) && SameShape(v, w)
    ensures SameShape(u, w) && SameShape(w, u)
  {
  }

  // ----- idempotence

  /** Granting again what was granted grants the same. */
  lemma {:induction false} LockAllAgain(w: Accounts, symbols: Symbols, os: seq<Order>)
    requires Recoverable(os) && forall a, x :: Bal(w, a, x).available >= 0.0
    ensures LockAll(w, symbols, LockAll(w, symbols, os).orders) == LockAll(w, symbols, os)
    decreases |os|
  {
    hide Bal;
    hide LockOne;
    if os != [] {
      var (w', o') := LockOne(w, symbols, os[0]);
      var r := LockAll(w, symbols, os);
      assert r.orders[1..] == LockAll(w', symbols, os[1..]).orders;
      LockOneAgain(w, symbols, os[0]);
      forall a, x
        ensures Bal(w', a, x).available >= 0.0
      {
        LockOneEffect(w, symbols, os[0], a, x);
        WantPositive(os[0]);
      }
      assert forall o | o in os[1..] :: o in os;
      LockAllAgain(w', symbols, os[1..]);
    }
  }

  lemma LockOneAgain(w: Accounts, symbols: Symbols, o: Order)
    requires o.price > 0.0 && o.remaining > 0.0 && forall a, x :: Bal(w, a, x).available >= 0.0
    ensures LockOne(w, symbols, LockOne(w, symbols, o).1) == LockOne(w, symbols, o)
  {
    hide Shift;
    hide Bal;
    if o.symbol in symbols {
      var asset := LockAsset(symbols[o.symbol], o.side);
      BalEnsure(w, o.account, o.account, asset);
      WantPositive(o);
      assert Bal(w, o.account, asset).available >= 0.0;
      assert LockAmount(o) > 0.0 by { WantPositive(o.(reserved := 0.0)); }
    }
  }

  /** Rebuilding twice is rebuilding once. */
  lemma RebuildIdempotent(w: Accounts, symbols: Symbols, os: seq<Order>)
    requires Recoverable(os) && NonNegative(w)
    ensures var r := Rebuild(w, symbols, os);
            Rebuild(r.accounts, symbols, r.orders) == r
  {
    hide Bal;
    hide FreeAll;
    hide LockAll;
    hide Present;
    hide Affected;
    var freed, r := FreeAll(w, symbols, os), Rebuild(w, symbols, os);
    FreeAllMakesPresent(w, symbols, os);
    LockAllShape(freed, symbols, os);
    forall i | 0 <= i < |os|
      ensures SameExceptReserved(os[i], r.orders[i])
    {
      LockAllKeepsOrders(freed, symbols, os, i);
    }
    PresentSameOrders(freed, r.accounts, symbols, os, r.orders);
    FreeAllShape(r.accounts, symbols, r.orders);
    var freed' := FreeAll(r.accounts, symbols, r.orders);
    ShapeTransitive(freed, r.accounts, freed');
    forall a, x
      ensures Bal(freed, a, x) == Bal(freed', a, x) && Bal(freed, a, x).available >= 0.0
    {
      assert Bal(w, a, x).available >= 0.0 && Bal(w, a, x).locked >= 0.0;
      FreeAllEffect(w, symbols, os, a, x);
      FreeAllEffect(r.accounts, symbols, r.orders, a, x);
      RebuildConserves(w, symbols, os, a, x);
      AffectedSameOrders(symbols, os, r.orders, a, x);
    }
    SameAccounts(freed, freed');
    LockAllAgain(freed, symbols, os);
  }

  lemma PresentSameOrders(w: Accounts, v: Accounts, symbols: Symbols, os: seq<Order>, os': seq<Order>)
    requires Present(w, symbols, os) && SameShape(w, v)
    requires |os| == |os'| && forall i | 0 <= i < |os| :: SameExceptReserved(os[i], os'[i])
    ensures Present(v, symbols, os')
  {
    forall i | 0 <= i < |os'| && os'[i].symbol in symbols
      ensures os'[i].account in v && LockAsset(symbols[os'[i].symbol], os'[i].side) in v[os'[i].account].balances
    {
      assert SameExceptReserved(os[i], os'[i]);
    }
  }

  lemma AffectedSameOrders(symbols: Symbols, os: seq<Order>, os': seq<Order>, a: string, x: string)
    requires |os| == |os'| && forall i | 0 <= i < |os| :: SameExceptReserved(os[i], os'[i])
    ensures Affected(symbols, os, a, x) <==> Affected(symbols, os', a, x)
  {
    hide OnKey;
    if Affected(symbols, os, a, x) {
      var i :| 0 <= i < |os| && OnKey(symbols, os[i], a, x);
      OnKeyStays(symbols, os[i], os'[i], a, x);
    }
    if Affected(symbols, os', a, x) {
      var i :| 0 <= i < |os'| && OnKey(symbols, os'[i], a, x);
      OnKeyStays(symbols, os[i], os'[i], a, x);
    }
  }

  lemma {:induction false} FreeAllMakesPresent(w: Accounts, symbols: Symbols, os: seq<Order>)
    ensures Present(FreeAll(w, symbols, os), symbols, os)
    decreases |os|
  {
    hide Bal;
    hide Shift;
    if os != [] {
      var w', done := FreeOne(w, symbols, os[0]), FreeAll(w, symbols, os);
      FreeAllMakesPresent(w', symbols, os[1..]);
      FreeAllGrows(w', symbols, os[1..]);
      if os[0].symbol in symbols {
        var w0, asset := Ensure(w, os[0].account), LockAsset(symbols[os[0].symbol], os[0].side);
        var locked := Bal(w0, os[0].account, asset).locked;
        ShiftKeeps(w0, os[0].account, asset, locked, -locked);
      }
      forall i | 0 <= i < |os| && os[i].symbol in symbols
        ensures os[i].account in done && LockAsset(symbols[os[i].symbol], os[i].side) in done[os[i].account].balances
      {
        if i > 0 {
          assert os[i] == os[1..][i - 1];
        }
      }
    }
  }

  lemma {:induction false} FreeAllGrows(w: Accounts, symbols: Symbols, os: seq<Order>)
    ensures Grows(w, FreeAll(w, symbols, os))
    decreases |os|
  {
    hide Bal;
    hide Shift;
    if os != [] {
      var w' := FreeOne(w, symbols, os[0]);
      if os[0].symbol in symbols {
        var w0, asset := Ensure(w, os[0].account), LockAsset(symbols[os[0].symbol], os[0].side);
        var locked := Bal(w0, os[0].account, asset).locked;
        ShiftKeeps(w0, os[0].account, asset, locked, -locked);
      }
      FreeAllGrows(w', symbols, os[1..]);
    }
  }

  // ----- in a state that agrees with its orders nothing changes

  ghost predicate AllLive(os: seq<Order>) {
    forall o | o in os :: o.price > 0.0 && o.remaining > 0.0 && o.reserved == LockAmount(o)
  }

  /** With enough on every key, every order is granted its reservation as recorded. */
  lemma {:induction false} LockAllInFull(w: Accounts, symbols: Symbols, os: seq<Order>)
    requires AllLive(os)
    requires forall a, x :: Bal(w, a, x).available >= SumReserved(symbols, os, a, x)
    ensures LockAll(w, symbols, os).orders == os
    decreases |os|
  {
    hide Bal;
    hide LockOne;
    hide OnKey;
    hide LockAmount;
    if os != [] {
      var (w', o') := LockOne(w, symbols, os[0]);
      LiveWants(os[0]);
      assert forall o | o in os[1..] :: o in os;
      if os[0].symbol in symbols {
        var a, x := os[0].account, LockAsset(symbols[os[0].symbol], os[0].side);
        assert OnKey(symbols, os[0], a, x) by { OwnKey(symbols, os[0]); }
        LockOneEffect(w, symbols, os[0], a, x);
        assert Bal(w, a, x).available >= SumReserved(symbols, os, a, x);
        ReservedNonNegative(symbols, os[1..], a, x);
      }
      assert o' == os[0] by { LockOneKeeps(w, symbols, os[0]); }
      forall a, x
        ensures Bal(w', a, x).available >= SumReserved(symbols, os[1..], a, x)
      {
        LockOneEffect(w, symbols, os[0], a, x);
        assert Bal(w, a, x).available >= SumReserved(symbols, os, a, x);
      }
      LockAllInFull(w', symbols, os[1..]);
    }
  }

  lemma OwnKey(symbols: Symbols, o: Order)
    requires o.symbol in symbols
    ensures OnKey(symbols, o, o.account, LockAsset(symbols[o.symbol], o.side))
  {
  }

  lemma LockOneKeeps(w: Accounts, symbols: Symbols, o: Order)
    ensures SameExceptReserved(o, LockOne(w, symbols, o).1)
    ensures o.symbol !in symbols ==> LockOne(w, symbols, o).1 == o
  {
  }

  lemma LiveWants(o: Order)
    requires o.price > 0.0 && o.remaining > 0.0 && o.reserved == LockAmount(o)
    ensures Want(o) == o.reserved > 0.0
  {
    WantPositive(o);
  }

  lemma {:induction false} ReservedNonNegative(symbols: Symbols, os: seq<Order>, a: string, x: string)
    requires AllLive(os)
    ensures SumReserved(symbols, os, a, x) >= 0.0
  {
    hide LockAmount;
    if os != [] {
      LiveWants(os[0]);
      ReservedNonNegative(symbols, os[1..], a, x);
    }
  }

  /** When every lock equals what the open orders hold, rebuilding changes neither accounts nor
      orders, and no clamp or fallback is taken. */
  lemma RebuildIsNoOp(w: Accounts, symbols: Symbols, os: seq<Order>)
    requires AllLive(os) && NonNegative(w) && Present(w, symbols, os)
    requires forall a, x :: Bal(w, a, x).locked == SumReserved(symbols, os, a, x)
    ensures Rebuild(w, symbols, os) == Rebuilt(w, os)
    ensures forall o | o in os :: o.reserved > 0.0
  {
    hide Bal;
    hide Affected;
    hide LockAmount;
    hide Present;
    var freed := FreeAll(w, symbols, os);
    assert forall a, x :: Bal(freed, a, x).available >= SumReserved(symbols, os, a, x) by {
      forall a, x
        ensures Bal(freed, a, x).available >= SumReserved(symbols, os, a, x)
      {
        FreedCovers(w, symbols, os, a, x);
      }
    }
    LockAllInFull(freed, symbols, os);
    FreeAllShape(w, symbols, os);
    PresentInShape(w, freed, symbols, os);
    LockAllShape(freed, symbols, os);
    var r := Rebuild(w, symbols, os);
    ShapeTransitive(w, freed, r.accounts);
    forall a, x
      ensures Bal(r.accounts, a, x) == Bal(w, a, x)
    {
      RebuildConserves(w, symbols, os, a, x);
      assert Bal(w, a, x).locked == SumReserved(symbols, os, a, x);
    }
    SameAccounts(r.accounts, w);
    forall o | o in os
      ensures o.reserved > 0.0
    {
      LiveWants(o);
    }
  }

  lemma FreedCovers(w: Accounts, symbols: Symbols, os: seq<Order>, a: string, x: string)
    requires NonNegative(w) && Bal(w, a, x).locked == SumReserved(symbols, os, a, x)
    ensures Bal(FreeAll(w, symbols, os), a, x).available >= SumReserved(symbols, os, a, x)
  {
    hide Bal;
    hide Affected;
    FreeAllEffect(w, symbols, os, a, x);
    assert Bal(w, a, x).available >= 0.0;
    if !Affected(symbols, os, a, x) {
      NothingGranted(symbols, os, os, a, x);
    }
  }
}
