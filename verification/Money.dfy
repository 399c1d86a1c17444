/** The money moved by a submission, followed one maker at a time: nothing fails, every lock
    keeps matching the orders it stands for, and every balance moves by the trades alone. */
module Money {
  import opened Domain
  import opened Matching
  import opened WalletModel
  import opened Settlement

  /** An order whose reservation is exactly what it still holds. */
  ghost predicate Live(o: Order) {
    o.price > 0.0 && 0.0 < o.remaining <= o.quantity && o.reserved == LockAmount(o)
  }

  ghost predicate Facing(maker: Order, taker: Order) {
    maker.side != taker.side
  }

  /** An order after `quantity` of it has traded and been settled. */
  function Fulfilled(o: Order, quantity: real): Order {
    var r := Reduce(o, quantity);
    WithStatus(r.(reserved := LockAmount(r)))
  }

  lemma LockSplits(o: Order, quantity: real)
    ensures LockAmount(Reduce(o, quantity)) == LockAmount(o) - LockFor(o, quantity)
    ensures quantity >= 0.0 && o.price > 0.0 ==> LockFor(o, quantity) >= 0.0
    ensures o.remaining >= quantity && o.price > 0.0 ==> LockAmount(Reduce(o, quantity)) >= 0.0
    ensures o.remaining == quantity ==> LockAmount(Reduce(o, quantity)) == 0.0
  {
    if o.side == BuySide {
      NotionalSplits(o.price, o.remaining, quantity);
      if quantity >= 0.0 { NotionalMonotone(o.price, o.price, quantity); }
      if o.remaining >= quantity { NotionalMonotone(o.price, o.price, o.remaining - quantity); }
    }
  }

  lemma HeldSplits(sym: Symbol, o: Order, quantity: real, a: string, x: string)
    ensures Held(sym, Fulfilled(o, quantity), a, x) == Held(sym, o, a, x) - Unlocked(sym, o, quantity, a, x)
  {
    LockSplits(o, quantity);
  }

  lemma HeldNonNegative(sym: Symbol, o: Order, a: string, x: string)
    requires o.price > 0.0 && o.remaining >= 0.0
    ensures Held(sym, o, a, x) >= 0.0
    ensures forall q | 0.0 <= q <= o.remaining :: 0.0 <= Unlocked(sym, o, q, a, x) <= Held(sym, o, a, x)
  {
    hide Notional;
    NotionalMonotone(o.price, o.price, o.remaining);
    forall q | 0.0 <= q <= o.remaining
      ensures 0.0 <= Unlocked(sym, o, q, a, x) <= Held(sym, o, a, x)
    {
      LockSplits(o, q);
    }
  }

  /** The locked balances cover what both parties hold. */
  ghost predicate Covers(w: Accounts, sym: Symbol, maker: Order, taker: Order) {
    forall a, x :: Bal(w, a, x).locked >= Held(sym, maker, a, x) + Held(sym, taker, a, x)
  }

  function StepQuantity(maker: Order, taker: Order): real {
    Min(taker.remaining, maker.remaining)
  }

  function StepTrade(maker: Order, taker: Order): Trade {
    TradeOf(taker, maker, StepQuantity(maker, taker))
  }

  function Step(w: Accounts, sym: Symbol, maker: Order, taker: Order): Applied {
    var q := StepQuantity(maker, taker);
    ApplyTrade(w, sym, Reduce(maker, q), Reduce(taker, q), StepTrade(maker, taker))
  }

  ghost predicate CanTrade(w: Accounts, sym: Symbol, maker: Order, taker: Order) {
    Live(maker) && Live(taker) && Facing(maker, taker) && Crosses(taker, maker) && Covers(w, sym, maker, taker)
  }

  lemma FirstSettles(w: Accounts, sym: Symbol, maker: Order, taker: Order)
    requires CanTrade(w, sym, maker, taker)
    ensures var q := StepQuantity(maker, taker);
            && Settle(w, sym, maker, maker.price, q).0.None?
            && Settle(Settle(w, sym, maker, maker.price, q).1, sym, taker, maker.price, q).0.None?
  {
    hide Notional;
    hide Settle;
    hide Bal;
    var q := StepQuantity(maker, taker);
    var p := maker.price;
    var ma, mx := maker.account, LockAsset(sym, maker.side);
    var ta, tx := taker.account, LockAsset(sym, taker.side);
    HeldNonNegative(sym, maker, ma, mx);
    HeldNonNegative(sym, taker, ma, mx);
    HeldNonNegative(sym, maker, ta, tx);
    HeldNonNegative(sym, taker, ta, tx);
    assert Bal(w, ma, mx).locked >= Held(sym, maker, ma, mx) >= Unlocked(sym, maker, q, ma, mx);
    SettleFailsOnUnderflow(w, sym, maker, p, q);
    var w1 := Settle(w, sym, maker, p, q).1;
    SettleEffect(w, sym, maker, p, q, ta, tx);
    assert Bal(w, ta, tx).locked >= Held(sym, maker, ta, tx) + Held(sym, taker, ta, tx);
    assert Held(sym, taker, ta, tx) >= Unlocked(sym, taker, q, ta, tx);
    SettleFailsOnUnderflow(w1, sym, taker, p, q);
  }

  /** The accounts after both parties of a trade have settled. */
  function Both(w: Accounts, sym: Symbol, maker: Order, taker: Order): Accounts {
    var q := StepQuantity(maker, taker);
    Settle(Settle(w, sym, maker, maker.price, q).1, sym, taker, maker.price, q).1
  }

  lemma BothEffect(w: Accounts, sym: Symbol, maker: Order, taker: Order, a: string, x: string)
    requires CanTrade(w, sym, maker, taker)
    ensures var q, w' := StepQuantity(maker, taker), Both(w, sym, maker, taker);
            && Bal(w', a, x).locked ==
               Bal(w, a, x).locked - Unlocked(sym, maker, q, a, x) - Unlocked(sym, taker, q, a, x)
            && Total(Bal(w', a, x)) == Total(Bal(w, a, x)) + Flow(sym, StepTrade(maker, taker), taker.side, a, x)
            && Bal(w', a, x).available >= Bal(w, a, x).available
  {
    hide Notional;
    hide Settle;
    hide Bal;
    var q, p := StepQuantity(maker, taker), maker.price;
    FirstSettles(w, sym, maker, taker);
    SettleEffect(w, sym, maker, p, q, a, x);
    SettleEffect(Settle(w, sym, maker, p, q).1, sym, taker, p, q, a, x);
    NotionalMonotone(p, maker.price, q);
    NotionalMonotone(p, taker.price, q);
  }

  /** One maker's trade: nothing fails, both parties end up fulfilled for the traded quantity. */
  lemma StepSucceeds(w: Accounts, sym: Symbol, maker: Order, taker: Order)
    requires CanTrade(w, sym, maker, taker)
    ensures var q := StepQuantity(maker, taker);
            Step(w, sym, maker, taker) == Applied(None, Both(w, sym, maker, taker), Fulfilled(maker, q),
                                                  Fulfilled(taker, q))
  {
    hide Notional;
    hide Settle;
    hide Bal;
    hide ReleaseRemaining;
    var q, p := StepQuantity(maker, taker), maker.price;
    FirstSettles(w, sym, maker, taker);
    LockSplits(maker, q);
    LockSplits(taker, q);
    var m, t := Reduce(maker, q), Reduce(taker, q);
    SettleReads(w, sym, maker, m, p, q);
    var w1 := Settle(w, sym, maker, p, q).1;
    SettleReads(w1, sym, taker, t, p, q);
    assert WithStatus(AdjustRemaining(m, LockFor(m, q))) == Fulfilled(maker, q);
    assert WithStatus(AdjustRemaining(t, LockFor(t, q))) == Fulfilled(taker, q);
    if m.remaining == 0.0 {
      var ma, mx := maker.account, LockAsset(sym, maker.side);
      BothEffect(w, sym, maker, taker, ma, mx);
      HeldNonNegative(sym, maker, ma, mx);
      HeldNonNegative(sym, taker, ma, mx);
      assert Bal(w, ma, mx).locked >= Held(sym, maker, ma, mx) + Held(sym, taker, ma, mx);
      SettleFrame(w, sym, maker, p, q);
      SettleFrame(w1, sym, taker, p, q);
      ReleaseOfNothing(Both(w, sym, maker, taker), sym, Fulfilled(maker, q));
    }
  }

  lemma SettleReads(w: Accounts, sym: Symbol, o: Order, o': Order, p: real, q: real)
    requires o' == o.(remaining := o'.remaining)
    ensures Settle(w, sym, o', p, q) == Settle(w, sym, o, p, q)
  {
  }

  // ----- a whole submission

  /** The state between two makers: everything live, and the locked balances cover the taker
      and the whole side. */
  ghost predicate Sound(w: Accounts, sym: Symbol, taker: Order, side: seq<Order>) {
    && (taker.remaining == 0.0 || Live(taker))
    && taker.price > 0.0 && taker.remaining >= 0.0 && taker.reserved == LockAmount(taker)
    && (forall o | o in side :: Live(o) && Facing(o, taker))
    && (forall a, x :: Bal(w, a, x).locked >= SumHeld(sym, side, a, x) + Held(sym, taker, a, x))
  }

  lemma CoversFirst(w: Accounts, sym: Symbol, taker: Order, side: seq<Order>)
    requires Sound(w, sym, taker, side) && side != []
    ensures Covers(w, sym, side[0], taker)
  {
    hide Held;
    hide Bal;
    assert forall o | o in side[1..] :: o in side;
    forall a, x
      ensures Bal(w, a, x).locked >= Held(sym, side[0], a, x) + Held(sym, taker, a, x)
    {
      assert Bal(w, a, x).locked >= SumHeld(sym, side, a, x) + Held(sym, taker, a, x);
      SumHeldNonNegative(sym, side[1..], a, x);
    }
  }

  /** After one maker's trade the state is sound for what is left. */
  lemma StepKeepsSound(w: Accounts, sym: Symbol, taker: Order, side: seq<Order>)
    requires Sound(w, sym, taker, side)
    requires side != [] && taker.remaining > 0.0 && Crosses(taker, side[0])
    ensures CanTrade(w, sym, side[0], taker)
    ensures Sound(Both(w, sym, side[0], taker), sym, Fulfilled(taker, StepQuantity(side[0], taker)), side[1..])
  {
    hide Held;
    hide Bal;
    hide Both;
    hide Crosses;
    CoversFirst(w, sym, taker, side);
    var maker, q := side[0], StepQuantity(side[0], taker);
    var w', t := Both(w, sym, maker, taker), Fulfilled(taker, q);
    assert forall o | o in side[1..] :: o in side;
    forall a, x
      ensures Bal(w', a, x).locked >= SumHeld(sym, side[1..], a, x) + Held(sym, t, a, x)
    {
      assert Bal(w, a, x).locked >= SumHeld(sym, side, a, x) + Held(sym, taker, a, x);
      BothEffect(w, sym, maker, taker, a, x);
      HeldSplits(sym, taker, q, a, x);
      HeldNonNegative(sym, maker, a, x);
    }
  }

  /** No settlement fails, each maker met is fulfilled for its trade's quantity, and the taker for
      the total. */
  ghost predicate RunShape(taker: Order, side: seq<Order>, r: Run) {
    && r.err.None?
    && |r.makers| == |r.trades| <= |side|
    && (forall i | 0 <= i < |r.makers| :: r.makers[i] == Fulfilled(side[i], r.trades[i].quantity))
    && (taker.status == StatusOf(taker) ==> r.taker == Fulfilled(taker, SumQuantity(r.trades)))
  }

  lemma {:induction false} RunSucceeds(w: Accounts, sym: Symbol, taker: Order, side: seq<Order>)
    requires Sound(w, sym, taker, side)
    ensures RunShape(taker, side, OnePhase(w, sym, taker, side))
    decreases |side|
  {
    hide Sound;
    hide Both;
    hide LockFor;
    if side != [] && taker.remaining > 0.0 && Crosses(taker, side[0]) {
      StepKeepsSound(w, sym, taker, side);
      StepSucceeds(w, sym, side[0], taker);
      var q := StepQuantity(side[0], taker);
      var t, w' := Fulfilled(taker, q), Both(w, sym, side[0], taker);
      if Fulfilled(side[0], q).remaining == 0.0 {
        RunSucceeds(w', sym, t, side[1..]);
        ShapeCons(taker, side, q, StepTrade(side[0], taker), OnePhase(w', sym, t, side[1..]));
      } else {
        assert SumQuantity([StepTrade(side[0], taker)]) == q;
      }
    } else {
      FulfilledNot(w, sym, taker, side);
    }
  }

  lemma ShapeCons(taker: Order, side: seq<Order>, q: real, tr: Trade, r: Run)
    requires side != [] && tr.quantity == q && RunShape(Fulfilled(taker, q), side[1..], r)
    ensures RunShape(taker, side, r.(makers := [Fulfilled(side[0], q)] + r.makers, trades := [tr] + r.trades))
  {
    hide LockFor;
    var makers, trades := [Fulfilled(side[0], q)] + r.makers, [tr] + r.trades;
    forall i | 0 <= i < |makers|
      ensures makers[i] == Fulfilled(side[i], trades[i].quantity)
    {
      if i > 0 {
        assert makers[i] == r.makers[i - 1] && side[i] == side[1..][i - 1] && trades[i] == r.trades[i - 1];
      }
    }
    assert trades[1..] == r.trades;
    FulfilledTwice(taker, q, SumQuantity(r.trades));
  }

  lemma FulfilledTwice(o: Order, q: real, q': real)
    ensures Fulfilled(Fulfilled(o, q), q') == Fulfilled(o, q + q')
  {
  }

  lemma FulfilledNot(w: Accounts, sym: Symbol, taker: Order, side: seq<Order>)
    requires Sound(w, sym, taker, side)
    ensures taker.status == StatusOf(taker) ==> taker == Fulfilled(taker, 0.0)
  {
  }

  /** Every balance moves by the trades alone, locks follow the orders, and nobody's available
      balance shrinks while fills are settled. */
  lemma {:induction false} RunMoney(w: Accounts, sym: Symbol, taker: Order, side: seq<Order>, a: string, x: string)
    requires Sound(w, sym, taker, side)
    ensures var r := OnePhase(w, sym, taker, side);
            && Bal(r.accounts, a, x).locked - SumHeld(sym, r.rest, a, x) - Held(sym, r.taker, a, x) ==
               Bal(w, a, x).locked - SumHeld(sym, side, a, x) - Held(sym, taker, a, x)
            && Total(Bal(r.accounts, a, x)) == Total(Bal(w, a, x)) + SumFlow(sym, r.trades, taker.side, a, x)
            && Bal(r.accounts, a, x).available >= Bal(w, a, x).available
    decreases |side|
  {
    hide Sound;
    hide Both;
    hide Bal;
    hide Held;
    hide Flow;
    hide Unlocked;
    if side != [] && taker.remaining > 0.0 && Crosses(taker, side[0]) {
      StepKeepsSound(w, sym, taker, side);
      StepSucceeds(w, sym, side[0], taker);
      BothEffect(w, sym, side[0], taker, a, x);
      var q := StepQuantity(side[0], taker);
      HeldSplits(sym, taker, q, a, x);
      HeldSplits(sym, side[0], q, a, x);
      var t, w' := Fulfilled(taker, q), Both(w, sym, side[0], taker);
      if Fulfilled(side[0], q).remaining == 0.0 {
        RunMoney(w', sym, t, side[1..], a, x);
        NothingHeld(sym, Fulfilled(side[0], q), a, x);
      } else {
        var r := OnePhase(w, sym, taker, side);
        assert r.rest[1..] == side[1..];
        assert SumFlow(sym, r.trades, taker.side, a, x) ==
               Flow(sym, r.trades[0], taker.side, a, x) + SumFlow(sym, r.trades[1..], taker.side, a, x);
        assert r.trades[1..] == [];
      }
    }
  }

  lemma NothingHeld(sym: Symbol, o: Order, a: string, x: string)
    requires o.remaining == 0.0
    ensures Held(sym, o, a, x) == 0.0
  {
  }
}
