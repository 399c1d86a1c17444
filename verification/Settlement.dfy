/** Settling the fills of a submission. The exchange matches a whole order first and moves the
    money afterwards; here that is shown to reach what matching and settling one maker at a
    time reaches, and the money is followed through the simpler form. */
module Settlement {
  import opened Domain
  import opened Matching
  import opened WalletModel

  datatype Applied = Applied(err: Option<Error>, accounts: Accounts, maker: Order, taker: Order)

  function WithStatus(o: Order): Order {
    o.(status := StatusOf(o))
  }

  /** Both parties' sides of one fill, their reservations and statuses, and the release of an
      exhausted maker. */
  function ApplyTrade(w: Accounts, sym: Symbol, maker: Order, taker: Order, tr: Trade): Applied {
    var (err1, w1) := Settle(w, sym, maker, tr.price, tr.quantity);
    if err1.Some? then Applied(err1, w1, maker, taker)
    else
      var (err2, w2) := Settle(w1, sym, taker, tr.price, tr.quantity);
      if err2.Some? then Applied(err2, w2, maker, taker)
      else
        var maker' := WithStatus(AdjustRemaining(maker, LockFor(maker, tr.quantity)));
        var taker' := WithStatus(AdjustRemaining(taker, LockFor(taker, tr.quantity)));
        if maker'.remaining == 0.0 then
          var (w3, maker'') := ReleaseRemaining(w2, sym, maker');
          Applied(None, w3, maker'', taker')
        else Applied(None, w2, maker', taker')
  }

  // ----- two phases: the order is matched, then its fills are settled

  datatype Settled = Settled(err: Option<Error>, accounts: Accounts, taker: Order, makers: seq<Order>)

  function SettleFills(w: Accounts, sym: Symbol, taker: Order, fills: seq<Fill>): Settled
    decreases |fills|
  {
    if fills == [] then Settled(None, w, taker, [])
    else
      var a := ApplyTrade(w, sym, fills[0].maker, taker, fills[0].trade);
      if a.err.Some? then Settled(a.err, a.accounts, taker, [])
      else
        var r := SettleFills(a.accounts, sym, a.taker, fills[1..]);
        Settled(r.err, r.accounts, r.taker, [a.maker] + r.makers)
  }

  // ----- one phase: each maker is matched and settled before the next is looked at

  datatype Run = Run(err: Option<Error>, accounts: Accounts, taker: Order, makers: seq<Order>,
                     trades: seq<Trade>, rest: seq<Order>)

  function OnePhase(w: Accounts, sym: Symbol, taker: Order, side: seq<Order>): Run
    decreases |side|
  {
    if side == [] || !(taker.remaining > 0.0) || !Crosses(taker, side[0]) then
      Run(None, w, taker, [], [], side)
    else
      var qty := Min(taker.remaining, side[0].remaining);
      var tr := TradeOf(taker, side[0], qty);
      var a := ApplyTrade(w, sym, Reduce(side[0], qty), Reduce(taker, qty), tr);
      if a.err.Some? then Run(a.err, a.accounts, taker, [], [], side)
      else if a.maker.remaining == 0.0 then
        var r := OnePhase(a.accounts, sym, a.taker, side[1..]);
        r.(makers := [a.maker] + r.makers, trades := [tr] + r.trades)
      else Run(None, a.accounts, a.taker, [a.maker], [tr], [a.maker] + side[1..])
  }

  /** The taker's progress decides its status and nothing else. */
  lemma ApplyIgnoresProgress(w: Accounts, sym: Symbol, maker: Order, taker: Order, taker': Order, tr: Trade)
    requires taker' == taker.(remaining := taker'.remaining, status := taker'.status)
    ensures var a, a' := ApplyTrade(w, sym, maker, taker, tr), ApplyTrade(w, sym, maker, taker', tr);
            && a'.err == a.err && a'.accounts == a.accounts && a'.maker == a.maker
            && (a.err.None? ==> a'.taker == WithStatus(a.taker.(remaining := taker'.remaining)))
  {
    hide Shift;
    hide Bal;
    hide Notional;
    var (err1, w1) := Settle(w, sym, maker, tr.price, tr.quantity);
    assert Settle(w1, sym, taker, tr.price, tr.quantity) == Settle(w1, sym, taker', tr.price, tr.quantity);
  }

  /** A fill fails exactly when the maker's lock, or after the maker's settlement the taker's, does not cover
      the traded quantity. A maker that cannot settle moves nothing; a taker that cannot leaves the maker's
      settlement standing. Neither record changes. */
  lemma FailedTradeEffect(w: Accounts, sym: Symbol, maker: Order, taker: Order, tr: Trade, a: string, x: string)
    requires ApplyTrade(w, sym, maker, taker, tr).err.Some?
    ensures var r := ApplyTrade(w, sym, maker, taker, tr);
            var short := Bal(w, maker.account, LockAsset(sym, maker.side)).locked < LockFor(maker, tr.quantity);
            && r.maker == maker && r.taker == taker
            && r.err.value == LockedUnderflow(LockAsset(sym, if short then maker.side else taker.side))
            && (short ==> Bal(r.accounts, a, x) == Bal(w, a, x))
            && (!short ==>
                  && Bal(r.accounts, a, x).locked == Bal(w, a, x).locked - Unlocked(sym, maker, tr.quantity, a, x)
                  && Total(Bal(r.accounts, a, x)) ==
                     Total(Bal(w, a, x)) + Gain(sym, maker, tr.price, tr.quantity, a, x))
  {
    hide Settle;
    hide Bal;
    hide LockFor;
    hide Gain;
    SettleFailsOnUnderflow(w, sym, maker, tr.price, tr.quantity);
    var (err1, w1) := Settle(w, sym, maker, tr.price, tr.quantity);
    if err1.None? {
      SettleEffect(w, sym, maker, tr.price, tr.quantity, a, x);
      SettleFailsOnUnderflow(w1, sym, taker, tr.price, tr.quantity);
    }
  }

  lemma ApplyKeepsRemaining(w: Accounts, sym: Symbol, maker: Order, taker: Order, tr: Trade)
    ensures var a := ApplyTrade(w, sym, maker, taker, tr);
            && a.maker == maker.(reserved := a.maker.reserved, status := a.maker.status)
            && a.taker == taker.(reserved := a.taker.reserved, status := a.taker.status)
            && (a.err.None? ==> a.taker.status == StatusOf(a.taker))
  {
    hide Settle;
    hide Shift;
  }

  function Last(makers: seq<Order>): Order
    requires makers != []
  {
    makers[|makers| - 1]
  }

  /** The rest of the side with the settled record of a maker that stayed on it. */
  function Refreshed(rest: seq<Order>, makers: seq<Order>): seq<Order> {
    if makers != [] && rest != [] && Last(makers).remaining != 0.0 then [Last(makers)] + rest[1..] else rest
  }

  lemma MatchIgnoresReserve(t: Order, t': Order, side: seq<Order>)
    requires t' == t.(reserved := t'.reserved, status := t'.status)
    ensures var m, m' := Match(t, side), Match(t', side);
            && m'.fills == m.fills && m'.rest == m.rest
            && m'.taker == m.taker.(reserved := t'.reserved, status := t'.status)
    decreases |side|
  {
    if side != [] && t.remaining > 0.0 && Crosses(t, side[0]) {
      var qty := Min(t.remaining, side[0].remaining);
      if Reduce(side[0], qty).remaining == 0.0 {
        MatchIgnoresReserve(Reduce(t, qty), Reduce(t', qty), side[1..]);
      }
    }
  }

  lemma MatchKeepsTaker(t: Order, side: seq<Order>)
    ensures Match(t, side).taker == t.(remaining := Match(t, side).taker.remaining)
    decreases |side|
  {
    if side != [] && t.remaining > 0.0 && Crosses(t, side[0]) {
      var qty := Min(t.remaining, side[0].remaining);
      if Reduce(side[0], qty).remaining == 0.0 {
        MatchKeepsTaker(Reduce(t, qty), side[1..]);
      }
    }
  }

  /** Matching the whole order first and settling its fills afterwards reaches the accounts,
      orders and side that settling each maker at once reaches, and fails when that fails:
      a maker occurs in at most one fill, so nothing settled later touches it again. */
  lemma {:induction false} TwoPhaseIsOnePhase(w: Accounts, sym: Symbol, taker: Order, side: seq<Order>)
    requires taker.status == StatusOf(taker)
    ensures var m := Match(taker, side);
            var two := SettleFills(w, sym, WithStatus(m.taker), m.fills);
            var one := OnePhase(w, sym, taker, side);
            && two.err == one.err && two.accounts == one.accounts
            && (one.err.None? ==>
                  && two.taker == one.taker && two.makers == one.makers
                  && one.trades == Trades(m.fills)
                  && one.rest == Refreshed(m.rest, one.makers))
    decreases |side|
  {
    hide ApplyTrade;
    hide StatusOf;
    if side != [] && taker.remaining > 0.0 && Crosses(taker, side[0]) {
      var m := Match(taker, side);
      var qty := Min(taker.remaining, side[0].remaining);
      var maker, t, tr := Reduce(side[0], qty), Reduce(taker, qty), TradeOf(taker, side[0], qty);
      var a := ApplyTrade(w, sym, maker, t, tr);
      MatchKeepsTaker(taker, side);
      ApplyKeepsRemaining(w, sym, maker, t, tr);
      ApplyIgnoresProgress(w, sym, maker, t, WithStatus(m.taker), tr);
      if a.err.None? {
        if maker.remaining == 0.0 {
          var m' := Match(t, side[1..]);
          assert m == Matched(m'.taker, [Fill(maker, tr)] + m'.fills, m'.rest);
          MatchIgnoresReserve(t, a.taker, side[1..]);
          TwoPhaseIsOnePhase(a.accounts, sym, a.taker, side[1..]);
          OneMoreMaker(m'.rest, a.maker, OnePhase(a.accounts, sym, a.taker, side[1..]).makers);
        } else {
          assert m == Matched(t, [Fill(maker, tr)], [maker] + side[1..]);
          assert Trades(m.fills) == [tr] + Trades([]);
          assert SettleFills(a.accounts, sym, a.taker, []).makers == [];
        }
      }
    }
  }

  lemma OneMoreMaker(rest: seq<Order>, maker: Order, makers: seq<Order>)
    requires maker.remaining == 0.0
    ensures Refreshed(rest, [maker] + makers) == Refreshed(rest, makers)
  {
  }
}
