/** Price-time matching of one taker against the opposite side of a book, and why the
    greedy choice is the best one. */
module Matching {
  import opened Domain

  /** One fill: the maker as it stands after the fill, and the trade. */
  datatype Fill = Fill(maker: Order, trade: Trade)

  datatype Matched = Matched(taker: Order, fills: seq<Fill>, rest: seq<Order>)

  function Min(a: real, b: real): real {
    if a < b then a else b
  }

  /** A maker is eligible when its price is within the taker's limit. */
  predicate Crosses(taker: Order, maker: Order) {
    if taker.side == BuySide then !(maker.price > taker.price) else !(maker.price < taker.price)
  }

  function TradeOf(taker: Order, maker: Order, quantity: real): Trade {
    Trade(taker.symbol, maker.price, quantity, maker.id, taker.id, maker.account, taker.account)
  }

  function Reduce(o: Order, quantity: real): Order {
    o.(remaining := o.remaining - quantity)
  }

  /** What matchBuy and matchSell compute. A maker that keeps something has used up the taker. */
  function Match(taker: Order, makers: seq<Order>): Matched
    decreases |makers|
  {
    if makers == [] || !(taker.remaining > 0.0) || !Crosses(taker, makers[0]) then
      Matched(taker, [], makers)
    else
      var qty := Min(taker.remaining, makers[0].remaining);
      var maker := Reduce(makers[0], qty);
      var taker' := Reduce(taker, qty);
      var fill := Fill(maker, TradeOf(taker, makers[0], qty));
      if maker.remaining == 0.0 then
        var r := Match(taker', makers[1..]);
        Matched(r.taker, [fill] + r.fills, r.rest)
      else
        Matched(taker', [fill], [maker] + makers[1..])
  }

  function Trades(fills: seq<Fill>): (trades: seq<Trade>)
    ensures |trades| == |fills|
    ensures forall i | 0 <= i < |fills| :: trades[i] == fills[i].trade
  {
    if fills == [] then [] else [fills[0].trade] + Trades(fills[1..])
  }

  function Makers(fills: seq<Fill>): (makers: seq<Order>)
    ensures |makers| == |fills|
    ensures forall i | 0 <= i < |fills| :: makers[i] == fills[i].maker
  {
    if fills == [] then [] else [fills[0].maker] + Makers(fills[1..])
  }

  ghost predicate PositiveRemaining(os: seq<Order>) {
    forall i | 0 <= i < |os| :: os[i].remaining > 0.0
  }

  /** The quantity taken from each maker, zero beyond the last fill. */
  function Taken(makers: seq<Order>, fills: seq<Fill>): (g: seq<real>)
    requires |fills| <= |makers|
    ensures |g| == |makers|
  {
    seq(|makers|, i requires 0 <= i < |makers| => if i < |fills| then fills[i].trade.quantity else 0.0)
  }

  /** Fills consume a prefix of the makers; only the last may leave something behind. */
  ghost predicate FillsArePrefix(taker: Order, makers: seq<Order>, fills: seq<Fill>) {
    && |fills| <= |makers|
    && (forall i | 0 <= i < |fills| ::
          && Crosses(taker, makers[i])
          && 0.0 < fills[i].trade.quantity <= makers[i].remaining
          && fills[i] == Fill(Reduce(makers[i], fills[i].trade.quantity),
                              TradeOf(taker, makers[i], fills[i].trade.quantity)))
    && (forall i | 0 <= i < |fills| - 1 :: fills[i].trade.quantity == makers[i].remaining)
  }

  ghost predicate LastMakerRemains(fills: seq<Fill>) {
    |fills| > 0 && fills[|fills| - 1].maker.remaining > 0.0
  }

  ghost predicate MatchShape(taker: Order, makers: seq<Order>, m: Matched) {
    var n := |m.fills|;
    && FillsArePrefix(taker, makers, m.fills)
    && m.rest == (if LastMakerRemains(m.fills) then [m.fills[n - 1].maker] + makers[n..] else makers[n..])
    && m.taker == Reduce(taker, SumQuantity(Trades(m.fills)))
    && m.taker.remaining >= 0.0
    && (LastMakerRemains(m.fills) ==> m.taker.remaining == 0.0)
    && (m.rest == [] || m.taker.remaining == 0.0 || !Crosses(taker, m.rest[0]))
  }

  /** The fills consume a prefix of the makers, every fill but the last exhausts its maker,
      and matching stops only when the taker is done, the side is empty, or the best
      remaining maker is outside the limit. */
  lemma {:induction false} MatchHasShape(taker: Order, makers: seq<Order>)
    requires PositiveRemaining(makers) && taker.remaining >= 0.0
    ensures MatchShape(taker, makers, Match(taker, makers))
    decreases |makers|
  {
    var m := Match(taker, makers);
    if makers == [] || !(taker.remaining > 0.0) || !Crosses(taker, makers[0]) {
      assert Trades(m.fills) == [];
    } else if taker.remaining < makers[0].remaining {
      assert Trades(m.fills)[1..] == [];
    } else {
      MatchHasShape(Reduce(taker, makers[0].remaining), makers[1..]);
      ShapeCons(taker, makers);
    }
  }

  lemma ShapeCons(taker: Order, makers: seq<Order>)
    requires makers != [] && taker.remaining >= makers[0].remaining > 0.0 && Crosses(taker, makers[0])
    requires MatchShape(Reduce(taker, makers[0].remaining), makers[1..],
                        Match(Reduce(taker, makers[0].remaining), makers[1..]))
    ensures MatchShape(taker, makers, Match(taker, makers))
  {
    var qty := makers[0].remaining;
    var taker' := Reduce(taker, qty);
    var fill := Fill(Reduce(makers[0], qty), TradeOf(taker, makers[0], qty));
    var r, m := Match(taker', makers[1..]), Match(taker, makers);
    assert m == Matched(r.taker, [fill] + r.fills, r.rest);
    ConsFill(taker, taker', makers, fill, r.fills);
    assert Trades(m.fills)[1..] == Trades(r.fills);
    assert makers[1..][|r.fills|..] == makers[|m.fills|..];
    if r.fills == [] {
      assert m.fills[|m.fills| - 1] == fill;
    } else {
      assert m.fills[|m.fills| - 1] == r.fills[|r.fills| - 1];
    }
  }

  lemma ConsFill(taker: Order, taker': Order, makers: seq<Order>, fill: Fill, fills: seq<Fill>)
    requires makers != [] && makers[0].remaining > 0.0 && Crosses(taker, makers[0])
    requires fill == Fill(Reduce(makers[0], makers[0].remaining), TradeOf(taker, makers[0], makers[0].remaining))
    requires taker' == taker.(remaining := taker'.remaining)
    requires FillsArePrefix(taker', makers[1..], fills)
    ensures FillsArePrefix(taker, makers, [fill] + fills)
  {
    var all := [fill] + fills;
    forall i | 0 <= i < |all|
      ensures Crosses(taker, makers[i]) && 0.0 < all[i].trade.quantity <= makers[i].remaining
      ensures all[i] == Fill(Reduce(makers[i], all[i].trade.quantity), TradeOf(taker, makers[i], all[i].trade.quantity))
      ensures i < |all| - 1 ==> all[i].trade.quantity == makers[i].remaining
    {
      if i > 0 {
        assert all[i] == fills[i - 1] && makers[i] == makers[1..][i - 1];
      }
    }
  }

  // ----- the matching loop, one maker at a time

  /** Where the side begins after n fills: a last maker that keeps something is still on it. */
  function FirstLeft(shown: seq<Order>, n: nat): (k: nat)
    requires n <= |shown|
    ensures k <= n
  {
    if n > 0 && shown[n - 1].remaining != 0.0 then n - 1 else n
  }

  /** The loop invariant of matchBuy and matchSell: `shown` is the whole side as the records
      show it now; what is done, followed by what matching the present taker against the rest
      of the side would still do, is the specified result. */
  ghost predicate UnderWay(m: Matched, before: seq<Order>, taker: Order, shown: seq<Order>, done: seq<Fill>) {
    && |done| <= |before| == |shown|
    && shown == Makers(done) + before[|done|..]
    && var now := Match(taker, shown[FirstLeft(shown, |done|)..]);
    && m == Matched(now.taker, done + now.fills, now.rest)
    && (FirstLeft(shown, |done|) < |done| ==> taker.remaining == 0.0)
  }

  lemma UnderWayStep(m: Matched, before: seq<Order>, taker: Order, shown: seq<Order>, done: seq<Fill>)
    requires UnderWay(m, before, taker, shown, done)
    requires |done| < |before| && taker.remaining > 0.0 && Crosses(taker, shown[|done|])
    ensures var n := |done|;
            var qty := Min(taker.remaining, shown[n].remaining);
            var maker := Reduce(shown[n], qty);
            && UnderWay(m, before, Reduce(taker, qty), shown[n := maker], done
                        + [Fill(maker, TradeOf(taker, shown[n], qty))])
            && FirstLeft(shown[n := maker], n + 1) == (if maker.remaining == 0.0 then n + 1 else n)
            && (maker.remaining != 0.0 ==> Reduce(taker, qty).remaining == 0.0)
  {
    var n := |done|;
    var qty := Min(taker.remaining, shown[n].remaining);
    var maker, taker' := Reduce(shown[n], qty), Reduce(taker, qty);
    var fill := Fill(maker, TradeOf(taker, shown[n], qty));
    var shown', done' := shown[n := maker], done + [fill];
    assert shown' == Makers(done') + before[|done'|..];
    var side := shown[n..];
    assert side[0] == shown[n] && side[1..] == shown[n + 1..] == shown'[n + 1..];
    var now := Match(taker, side);
    if maker.remaining == 0.0 {
      var next := Match(taker', side[1..]);
      assert done + now.fills == done' + next.fills;
    } else {
      assert shown'[n..] == [maker] + side[1..];
      assert Match(taker', shown'[n..]) == Matched(taker', [], shown'[n..]);
      assert done + now.fills == done' + [];
    }
  }

  lemma UnderWayBegins(before: seq<Order>, taker: Order)
    ensures UnderWay(Match(taker, before), before, taker, before, [])
  {
    var m := Match(taker, before);
    assert before[0..] == before;
    assert [] + m.fills == m.fills;
  }

  lemma UnderWayHead(m: Matched, before: seq<Order>, taker: Order, shown: seq<Order>, done: seq<Fill>)
    requires UnderWay(m, before, taker, shown, done)
    ensures |done| <= |before| == |shown|
    ensures taker.remaining > 0.0 ==> FirstLeft(shown, |done|) == |done|
  {
  }

  lemma UnderWayEnds(m: Matched, before: seq<Order>, taker: Order, shown: seq<Order>, done: seq<Fill>)
    requires UnderWay(m, before, taker, shown, done)
    requires FirstLeft(shown, |done|) == |shown| || !(taker.remaining > 0.0)
             || !Crosses(taker, shown[FirstLeft(shown, |done|)])
    ensures m == Matched(taker, done, shown[FirstLeft(shown, |done|)..])
    ensures |done| <= |before| && shown == Makers(done) + before[|done|..]
  {
    assert done + [] == done;
  }

  // ----- the filled quantity

  /** All that is on offer within the taker's limit. */
  function Eligible(taker: Order, makers: seq<Order>): real {
    if makers == [] then 0.0
    else (if Crosses(taker, makers[0]) then makers[0].remaining else 0.0) + Eligible(taker, makers[1..])
  }

  /** Best price first: no later maker has a better price than an earlier one. */
  ghost predicate BestPriceFirst(taker: Order, makers: seq<Order>) {
    forall i, j | 0 <= i < j < |makers| ::
      if taker.side == BuySide then makers[i].price <= makers[j].price else makers[i].price >= makers[j].price
  }

  lemma {:induction false} NothingEligible(taker: Order, makers: seq<Order>)
    requires forall i | 0 <= i < |makers| :: !Crosses(taker, makers[i])
    ensures Eligible(taker, makers) == 0.0
  {
    if makers != [] {
      NothingEligible(taker, makers[1..]);
    }
  }

  lemma {:induction false} EligibleNonNegative(taker: Order, makers: seq<Order>)
    requires PositiveRemaining(makers)
    ensures Eligible(taker, makers) >= 0.0
  {
    if makers != [] {
      EligibleNonNegative(taker, makers[1..]);
    }
  }

  lemma {:induction false} EligibleIgnoresRemaining(taker: Order, taker': Order, makers: seq<Order>)
    requires taker' == taker.(remaining := taker'.remaining)
    ensures Eligible(taker', makers) == Eligible(taker, makers)
  {
    if makers != [] {
      EligibleIgnoresRemaining(taker, taker', makers[1..]);
    }
  }

  /** The filled quantity is the lesser of what the taker wants and what is on offer within its limit. */
  lemma {:induction false} FilledQuantity(taker: Order, makers: seq<Order>)
    requires PositiveRemaining(makers) && BestPriceFirst(taker, makers) && taker.remaining >= 0.0
    ensures SumQuantity(Trades(Match(taker, makers).fills)) == Min(taker.remaining, Eligible(taker, makers))
    decreases |makers|
  {
    var m := Match(taker, makers);
    EligibleNonNegative(taker, makers);
    if makers == [] || !(taker.remaining > 0.0) {
      assert Trades(m.fills) == [];
    } else if !Crosses(taker, makers[0]) {
      assert Trades(m.fills) == [];
      NothingEligible(taker, makers);
    } else {
      var qty := Min(taker.remaining, makers[0].remaining);
      var taker' := Reduce(taker, qty);
      EligibleNonNegative(taker, makers[1..]);
      if Reduce(makers[0], qty).remaining == 0.0 {
        FilledQuantity(taker', makers[1..]);
        EligibleIgnoresRemaining(taker, taker', makers[1..]);
        assert Trades(m.fills)[1..] == Trades(Match(taker', makers[1..]).fills);
      } else {
        assert Trades(m.fills)[1..] == [];
      }
    }
  }

  // ----- optimality

  function SumOf(x: seq<real>): real {
    if x == [] then 0.0 else x[0] + SumOf(x[1..])
  }

  function Cost(makers: seq<Order>, x: seq<real>): real
    requires |x| == |makers|
  {
    if makers == [] then 0.0 else Notional(makers[0].price, x[0]) + Cost(makers[1..], x[1..])
  }

  /** Any other way to take quantities from the makers within the taker's limit. */
  ghost predicate Allocation(taker: Order, makers: seq<Order>, x: seq<real>) {
    && |x| == |makers|
    && forall i | 0 <= i < |x| ::
         0.0 <= x[i] <= makers[i].remaining && (x[i] > 0.0 ==> Crosses(taker, makers[i]))
  }

  /** Taking x instead of g from a maker costs a buyer at least (and brings a seller at most)
      what the difference is worth at the threshold price. */
  ghost predicate NoBetter(side: Side, price: real, threshold: real, x: real, g: real) {
    if side == BuySide then Notional(price, x) - Notional(price, g) >= Notional(threshold, x - g)
    else Notional(price, x) - Notional(price, g) <= Notional(threshold, x - g)
  }

  lemma {:induction false} NoBetterInTotal(side: Side, makers: seq<Order>, x: seq<real>, g: seq<real>, threshold: real)
    requires |x| == |g| == |makers|
    requires forall i | 0 <= i < |makers| :: NoBetter(side, makers[i].price, threshold, x[i], g[i])
    ensures if side == BuySide then Cost(makers, x) - Cost(makers, g) >= Notional(threshold, SumOf(x) - SumOf(g))
            else Cost(makers, x) - Cost(makers, g) <= Notional(threshold, SumOf(x) - SumOf(g))
  {
    hide Notional;
    if makers == [] {
      NotionalSplits(threshold, 0.0, 0.0);
    } else {
      NoBetterInTotal(side, makers[1..], x[1..], g[1..], threshold);
      assert NoBetter(side, makers[0].price, threshold, x[0], g[0]);
      NotionalSplits(threshold, x[0] - g[0], SumOf(x[1..]) - SumOf(g[1..]));
      assert SumOf(x) - SumOf(g) == (x[0] - g[0]) + (SumOf(x[1..]) - SumOf(g[1..]));
    }
  }

  lemma {:induction false} TakenSums(makers: seq<Order>, fills: seq<Fill>)
    requires |fills| <= |makers|
    requires forall i | 0 <= i < |fills| :: fills[i].trade.price == makers[i].price
    ensures SumOf(Taken(makers, fills)) == SumQuantity(Trades(fills))
    ensures Cost(makers, Taken(makers, fills)) == SumNotional(Trades(fills))
    decreases |makers|
  {
    var g := Taken(makers, fills);
    if makers == [] {
      assert fills == [];
    } else if fills == [] {
      assert g[1..] == Taken(makers[1..], []);
      TakenSums(makers[1..], []);
    } else {
      assert g[1..] == Taken(makers[1..], fills[1..]);
      assert Trades(fills)[1..] == Trades(fills[1..]);
      TakenSums(makers[1..], fills[1..]);
    }
  }

  /** Before the last fill greedy takes all there is at a better price, after it greedy takes
      nothing at a worse one. */
  lemma GreedyAtMaker(taker: Order, makers: seq<Order>, fills: seq<Fill>, x: seq<real>, i: nat)
    requires FillsArePrefix(taker, makers, fills) && |fills| > 0
    requires BestPriceFirst(taker, makers) && Allocation(taker, makers, x)
    requires i < |makers|
    ensures NoBetter(taker.side, makers[i].price, makers[|fills| - 1].price, x[i], Taken(makers, fills)[i])
  {
    hide Notional;
    var last := |fills| - 1;
    var price, threshold, g := makers[i].price, makers[last].price, Taken(makers, fills)[i];
    NotionalSplits(price, x[i], g);
    NotionalSplits(threshold, x[i], g);
    NotionalSplits(price, g, x[i]);
    NotionalSplits(threshold, g, x[i]);
    if i < last {
      if taker.side == BuySide { NotionalMonotone(price, threshold, g - x[i]); }
      else { NotionalMonotone(threshold, price, g - x[i]); }
    } else if i > last {
      if taker.side == BuySide { NotionalMonotone(threshold, price, x[i] - g); }
      else { NotionalMonotone(price, threshold, x[i] - g); }
    }
  }

  /** Among all ways to take the same quantity from eligible makers, the fills cost a buyer
      the least and bring a seller the most; and no allocation that respects the taker's
      quantity takes more. */
  lemma GreedyIsOptimal(taker: Order, makers: seq<Order>, x: seq<real>)
    requires PositiveRemaining(makers) && BestPriceFirst(taker, makers) && taker.remaining >= 0.0
    requires Allocation(taker, makers, x)
    ensures SumOf(x) <= taker.remaining ==> SumOf(x) <= SumQuantity(Trades(Match(taker, makers).fills))
    ensures SumOf(x) == SumQuantity(Trades(Match(taker, makers).fills)) ==>
              if taker.side == BuySide then SumNotional(Trades(Match(taker, makers).fills)) <= Cost(makers, x)
              else SumNotional(Trades(Match(taker, makers).fills)) >= Cost(makers, x)
  {
    hide Notional;
    var fills := Match(taker, makers).fills;
    MatchHasShape(taker, makers);
    FilledQuantity(taker, makers);
    AllocationWithinEligible(taker, makers, x);
    if SumOf(x) == SumQuantity(Trades(fills)) {
      TakenSums(makers, fills);
      if fills == [] {
        assert Trades(fills) == [];
        ZeroAllocation(makers, x);
      } else {
        var threshold := makers[|fills| - 1].price;
        forall i | 0 <= i < |makers|
          ensures NoBetter(taker.side, makers[i].price, threshold, x[i], Taken(makers, fills)[i])
        {
          GreedyAtMaker(taker, makers, fills, x, i);
        }
        NoBetterInTotal(taker.side, makers, x, Taken(makers, fills), threshold);
        NotionalSplits(threshold, 0.0, 0.0);
      }
    }
  }

  lemma {:induction false} AllocationWithinEligible(taker: Order, makers: seq<Order>, x: seq<real>)
    requires Allocation(taker, makers, x)
    ensures 0.0 <= SumOf(x) <= Eligible(taker, makers)
    decreases |makers|
  {
    if makers != [] {
      assert Allocation(taker, makers[1..], x[1..]);
      AllocationWithinEligible(taker, makers[1..], x[1..]);
    }
  }

  lemma {:induction false} ZeroAllocation(makers: seq<Order>, x: seq<real>)
    requires |x| == |makers| && (forall i | 0 <= i < |x| :: x[i] >= 0.0) && SumOf(x) == 0.0
    ensures Cost(makers, x) == 0.0
    decreases |makers|
  {
    if makers != [] {
      SumOfNonNegative(x[1..]);
      assert x[0] == 0.0;
      ZeroAllocation(makers[1..], x[1..]);
    }
  }

  lemma {:induction false} SumOfNonNegative(x: seq<real>)
    requires forall i | 0 <= i < |x| :: x[i] >= 0.0
    ensures SumOf(x) >= 0.0
  {
    if x != [] {
      SumOfNonNegative(x[1..]);
    }
  }
}
