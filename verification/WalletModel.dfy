/** What each wallet operation does to the accounts, as functions of values. */
module WalletModel {
  import opened Domain

  datatype Outcome = Outcome(err: Option<Error>, accounts: Accounts, order: Order)

  function NewAccount(id: string): Account {
    Account(id, 0, map[])
  }

  /** Look an account up, creating an empty one when it is missing. */
  function Ensure(w: Accounts, id: string): Accounts {
    if id in w then w else w[id := NewAccount(id)]
  }

  function Put(w: Accounts, id: string, asset: string, b: Balance): Accounts
    requires id in w
  {
    w[id := w[id].(balances := w[id].balances[asset := b])]
  }

  /** Add to (or, when negative, take from) both parts of one balance. */
  function Shift(w: Accounts, id: string, asset: string, available: real, locked: real): Accounts
    requires id in w
  {
    var b := Bal(w, id, asset);
    Put(w, id, asset, Balance(b.available + available, b.locked + locked))
  }

  function GetAccount(w: Accounts, id: string): Account {
    if id in w then w[id] else NewAccount(id)
  }

  /** Lock what the order may cost. */
  function Reserve(w: Accounts, sym: Symbol, o: Order): Outcome {
    var w0 := Ensure(w, o.account);
    var asset := LockAsset(sym, o.side);
    var required := LockFor(o, o.quantity);
    if Bal(w0, o.account, asset).available < required then Outcome(Some(InsufficientBalance(asset)), w0, o)
    else Outcome(None, Shift(w0, o.account, asset, -required, required), o.(reserved := required))
  }

  /** Settle one order's side of a trade: a buyer's surplus over the trade price goes back to available. */
  function Settle(w: Accounts, sym: Symbol, o: Order, price: real, quantity: real): (Option<Error>, Accounts) {
    var w0 := Ensure(w, o.account);
    match o.side
    case BuySide =>
      var reservedCost := Notional(o.price, quantity);
      var refund := reservedCost - Notional(price, quantity);
      if Bal(w0, o.account, sym.quote).locked < reservedCost then (Some(LockedUnderflow(sym.quote)), w0)
      else (None, Shift(Shift(w0, o.account, sym.quote, refund, -reservedCost), o.account, sym.base, quantity, 0.0))
    case SellSide =>
      if Bal(w0, o.account, sym.base).locked < quantity then (Some(LockedUnderflow(sym.base)), w0)
      else
        var delivered := Shift(w0, o.account, sym.base, 0.0, -quantity);
        (None, Shift(delivered, o.account, sym.quote, Notional(price, quantity), 0.0))
  }

  /** Give back whatever a finished order still has reserved, but no more than is locked. */
  function ReleaseRemaining(w: Accounts, sym: Symbol, o: Order): (Accounts, Order) {
    if o.remaining > 0.0 then (w, o)
    else
      var w0 := Ensure(w, o.account);
      var asset := LockAsset(sym, o.side);
      var locked := Bal(w0, o.account, asset).locked;
      var amount := if locked < o.reserved then locked else o.reserved;
      (Shift(w0, o.account, asset, amount, -amount), o.(reserved := 0.0))
  }

  function AdjustRemaining(o: Order, consumed: real): Order {
    o.(reserved := if o.reserved - consumed < 0.0 then 0.0 else o.reserved - consumed)
  }

  // ----- what the operations do to every balance

  lemma BalShift(w: Accounts, id: string, asset: string, available: real, locked: real, a: string, x: string)
    requires id in w
    ensures Bal(Shift(w, id, asset, available, locked), a, x) ==
            if a == id && x == asset then Balance(Bal(w, a, x).available + available, Bal(w, a, x).locked + locked)
            else Bal(w, a, x)
  {
  }

  lemma BalEnsure(w: Accounts, id: string, a: string, x: string)
    ensures Bal(Ensure(w, id), a, x) == Bal(w, a, x)
  {
  }

  /** The gain of an account through its own side of a trade, leaving the lock aside. */
  function Gain(sym: Symbol, o: Order, price: real, quantity: real, a: string, x: string): real {
    if o.account != a then 0.0
    else if o.side == BuySide then
      (if x == sym.base then quantity else 0.0) - (if x == sym.quote then Notional(price, quantity) else 0.0)
    else
      (if x == sym.quote then Notional(price, quantity) else 0.0) - (if x == sym.base then quantity else 0.0)
  }

  /** What leaves the lock when `quantity` units of an order trade. */
  function Unlocked(sym: Symbol, o: Order, quantity: real, a: string, x: string): real {
    if o.account == a && LockAsset(sym, o.side) == x then LockFor(o, quantity) else 0.0
  }

  /** Settling fails exactly when the lock does not cover the traded quantity; it names the lock's asset,
      and then no balance changes. */
  lemma SettleFailsOnUnderflow(w: Accounts, sym: Symbol, o: Order, price: real, quantity: real)
    ensures var err := Settle(w, sym, o, price, quantity).0;
            && (err.None? <==> Bal(w, o.account, LockAsset(sym, o.side)).locked >= LockFor(o, quantity))
            && (err.Some? ==> err.value == LockedUnderflow(LockAsset(sym, o.side)))
            && (err.Some? ==> forall a, x :: Bal(Settle(w, sym, o, price, quantity).1, a, x) == Bal(w, a, x))
  {
    hide Notional;
    hide Bal;
    hide Shift;
    BalEnsure(w, o.account, o.account, LockAsset(sym, o.side));
    forall a, x
      ensures Bal(Ensure(w, o.account), a, x) == Bal(w, a, x)
    {
      BalEnsure(w, o.account, a, x);
    }
  }

  /** Settling changes every balance by the order's gain and by what leaves its lock. */
  lemma SettleEffect(w: Accounts, sym: Symbol, o: Order, price: real, quantity: real, a: string, x: string)
    requires Settle(w, sym, o, price, quantity).0.None?
    ensures var w' := Settle(w, sym, o, price, quantity).1;
            && Bal(w', a, x).locked == Bal(w, a, x).locked - Unlocked(sym, o, quantity, a, x)
            && Total(Bal(w', a, x)) == Total(Bal(w, a, x)) + Gain(sym, o, price, quantity, a, x)
  {
    hide Notional;
    hide Bal;
    hide Shift;
    BalEnsure(w, o.account, a, x);
    var w0 := Ensure(w, o.account);
    match o.side {
      case BuySide =>
        var reservedCost := Notional(o.price, quantity);
        var refund := reservedCost - Notional(price, quantity);
        BalShift(w0, o.account, sym.quote, refund, -reservedCost, a, x);
        var w1 := Shift(w0, o.account, sym.quote, refund, -reservedCost);
        ShiftKeeps(w0, o.account, sym.quote, refund, -reservedCost);
        BalShift(w1, o.account, sym.base, quantity, 0.0, a, x);
      case SellSide =>
        BalShift(w0, o.account, sym.base, 0.0, -quantity, a, x);
        var w1 := Shift(w0, o.account, sym.base, 0.0, -quantity);
        ShiftKeeps(w0, o.account, sym.base, 0.0, -quantity);
        BalShift(w1, o.account, sym.quote, Notional(price, quantity), 0.0, a, x);
    }
  }

  lemma ReserveFailsWithoutCover(w: Accounts, sym: Symbol, o: Order)
    ensures var r := Reserve(w, sym, o);
            && (r.err.None? <==> Bal(w, o.account, LockAsset(sym, o.side)).available >= LockFor(o, o.quantity))
            && (r.err.Some? ==> r.err.value == InsufficientBalance(LockAsset(sym, o.side)) && r.order == o)
            && (r.err.None? ==> r.order == o.(reserved := LockFor(o, o.quantity)))
  {
    hide LockFor;
    BalEnsure(w, o.account, o.account, LockAsset(sym, o.side));
  }

  lemma ReserveEffect(w: Accounts, sym: Symbol, o: Order, a: string, x: string)
    ensures var r := Reserve(w, sym, o);
            var moved := if r.err.None? then Unlocked(sym, o, o.quantity, a, x) else 0.0;
            && Bal(r.accounts, a, x).locked == Bal(w, a, x).locked + moved
            && Bal(r.accounts, a, x).available == Bal(w, a, x).available - moved
  {
    hide LockFor;
    hide Bal;
    hide Shift;
    BalEnsure(w, o.account, a, x);
    BalShift(Ensure(w, o.account), o.account, LockAsset(sym, o.side),
             -LockFor(o, o.quantity), LockFor(o, o.quantity), a, x);
  }

  /** Releasing an order that has nothing left to trade moves its reservation, or the lock when that is
      less, from locked to available, and the order keeps no reservation. */
  lemma ReleaseEffect(w: Accounts, sym: Symbol, o: Order, a: string, x: string)
    ensures var (w', o') := ReleaseRemaining(w, sym, o);
            var lock := Bal(w, o.account, LockAsset(sym, o.side)).locked;
            var moved := if o.remaining <= 0.0 && o.account == a && LockAsset(sym, o.side) == x then
                           if lock < o.reserved then lock else o.reserved
                         else 0.0;
            && Bal(w', a, x).available == Bal(w, a, x).available + moved
            && Bal(w', a, x).locked == Bal(w, a, x).locked - moved
            && o' == if o.remaining <= 0.0 then o.(reserved := 0.0) else o
  {
    hide Bal;
    hide Shift;
    if !(o.remaining > 0.0) {
      var w0, asset := Ensure(w, o.account), LockAsset(sym, o.side);
      var locked := Bal(w0, o.account, asset).locked;
      var amount := if locked < o.reserved then locked else o.reserved;
      BalEnsure(w, o.account, a, x);
      BalEnsure(w, o.account, o.account, asset);
      BalShift(w0, o.account, asset, amount, -amount, a, x);
    }
  }

  /** What a fill consumes leaves the reservation, which never falls below zero. */
  lemma AdjustEffect(o: Order, consumed: real)
    ensures var o' := AdjustRemaining(o, consumed);
            && o'.reserved >= 0.0 && o' == o.(reserved := o'.reserved)
            && (o.reserved >= consumed ==> o'.reserved + consumed == o.reserved)
            && (o.reserved < consumed ==> o'.reserved == 0.0)
  {
  }

  /** Nothing left in reserve, nothing moves. */
  lemma ReleaseOfNothing(w: Accounts, sym: Symbol, o: Order)
    requires o.reserved == 0.0 && o.account in w && LockAsset(sym, o.side) in w[o.account].balances
    requires Bal(w, o.account, LockAsset(sym, o.side)).locked >= 0.0
    ensures ReleaseRemaining(w, sym, o) == (w, o)
  {
    if !(o.remaining > 0.0) {
      var asset := LockAsset(sym, o.side);
      assert w[o.account].balances[asset := Bal(w, o.account, asset)] == w[o.account].balances;
      assert Shift(w, o.account, asset, 0.0, 0.0) == w;
    }
  }

  // ----- identities, versions and entries

  /** The same accounts at the same versions, with possibly more balance entries. */
  ghost predicate Grows(w: Accounts, w': Accounts) {
    forall a | a in w ::
      a in w' && w'[a].id == w[a].id && w'[a].version == w[a].version && w[a].balances.Keys <= w'[a].balances.Keys
  }

  /** Everything outside the given accounts is untouched. */
  ghost predicate SameOutside(w: Accounts, w': Accounts, ids: set<string>) {
    && w'.Keys <= w.Keys + ids
    && forall a | a in w && a !in ids :: a in w' && w'[a] == w[a]
  }

  lemma ShiftKeeps(w: Accounts, id: string, asset: string, available: real, locked: real)
    requires id in w
    ensures var w' := Shift(w, id, asset, available, locked);
            Grows(w, w') && w'.Keys == w.Keys && SameOutside(w, w', {id}) && asset in w'[id].balances
  {
  }

  lemma SettleFrame(w: Accounts, sym: Symbol, o: Order, price: real, quantity: real)
    ensures var (err, w') := Settle(w, sym, o, price, quantity);
            && Grows(w, w') && SameOutside(w, w', {o.account}) && o.account in w'
            && (err.None? ==> {sym.base, sym.quote} <= w'[o.account].balances.Keys)
  {
    hide Notional;
    hide Bal;
  }
}
