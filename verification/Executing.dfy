/** One order executed against one book: what the two-phase code leaves in accounts, orders and
    book, seen through the one-phase run. */
module Executing {
  import opened Domain
  import opened Matching
  import opened Priority
  import opened BookModel
  import opened WalletModel
  import opened Settlement
  import opened Recovery
  import opened Money
  import opened Machine
  import opened Invariant

  /** A validated and reserved order in front of its book. */
  ghost predicate Ready(w: Accounts, sym: Symbol, b: Book, o: Order) {
    && BookOk(b, sym.name)
    && o.price > 0.0 && o.quantity > 0.0 && o.reserved == LockFor(o, o.quantity)
    && o.symbol == sym.name && o.status == Open
    && NonNegative(w)
    && forall a, x :: Bal(w, a, x).locked >= BookHeld(sym, b, a, x) + Held(sym, Stamped(b, o), a, x)
  }

  function TheRun(w: Accounts, sym: Symbol, b: Book, o: Order): Run {
    OnePhase(w, sym, Stamped(b, o), Opposite(b, o.side))
  }

  lemma StampedIsLive(b: Book, o: Order)
    requires o.price > 0.0 && o.quantity > 0.0 && o.reserved == LockFor(o, o.quantity) && o.status == Open
    ensures Live(Stamped(b, o)) && Stamped(b, o).status == StatusOf(Stamped(b, o))
  {
  }

  lemma ReadyIsSound(w: Accounts, sym: Symbol, b: Book, o: Order)
    requires Ready(w, sym, b, o)
    ensures Sound(w, sym, Stamped(b, o), Opposite(b, o.side))
    ensures Live(Stamped(b, o)) && Stamped(b, o).status == StatusOf(Stamped(b, o))
  {
    hide Ordered;
    hide Held;
    hide Bal;
    StampedIsLive(b, o);
    assert Stamped(b, o).reserved == LockAmount(Stamped(b, o));
    forall a, x
      ensures Bal(w, a, x).locked >= SumHeld(sym, Opposite(b, o.side), a, x) + Held(sym, Stamped(b, o), a, x)
    {
      BookHeldNonNegative(sym, b, sym.name, a, x);
      assert Bal(w, a, x).locked >= BookHeld(sym, b, a, x) + Held(sym, Stamped(b, o), a, x);
    }
    forall p | p in Opposite(b, o.side)
      ensures Live(p) && Facing(p, Stamped(b, o))
    {
      assert Resting(p, OtherSide(o.side), sym.name);
    }
  }

  // ----- which accounts and entries exist

  /** What is locked somewhere has an entry to be locked in. */
  lemma LockedIsPresent(w: Accounts, a: string, x: string)
    requires Bal(w, a, x).locked > 0.0
    ensures a in w && x in w[a].balances
  {
  }

  lemma ReleaseFrame(w: Accounts, sym: Symbol, o: Order)
    ensures var w' := ReleaseRemaining(w, sym, o).0;
            Grows(w, w') && SameOutside(w, w', {o.account})
  {
    hide Bal;
    hide Shift;
    if !(o.remaining > 0.0) {
      var w0, asset := Ensure(w, o.account), LockAsset(sym, o.side);
      var locked := Bal(w0, o.account, asset).locked;
      var amount := if locked < o.reserved then locked else o.reserved;
      ShiftKeeps(w0, o.account, asset, amount, -amount);
    }
  }

  lemma FrameTransitive(u: Accounts, v: Accounts, w: Accounts, s: set<string>, t: set<string>)
    requires Grows(u, v) && Grows(v, w) && SameOutside(u, v, s) && SameOutside(v, w, t)
    ensures Grows(u, w) && SameOutside(u, w, s + t)
  {
  }

  lemma ApplyFrame(w: Accounts, sym: Symbol, maker: Order, taker: Order, tr: Trade)
    ensures var w' := ApplyTrade(w, sym, maker, taker, tr).accounts;
            Grows(w, w') && SameOutside(w, w', {maker.account, taker.account})
  {
    hide Settle;
    hide ReleaseRemaining;
    hide Grows;
    hide SameOutside;
    var both := {maker.account, taker.account};
    var (err1, w1) := Settle(w, sym, maker, tr.price, tr.quantity);
    SettleFrame(w, sym, maker, tr.price, tr.quantity);
    FrameWiden(w, w1, {maker.account}, both);
    if err1.None? {
      var (err2, w2) := Settle(w1, sym, taker, tr.price, tr.quantity);
      SettleFrame(w1, sym, taker, tr.price, tr.quantity);
      FrameTransitive(w, w1, w2, {maker.account}, {taker.account});
      assert {maker.account} + {taker.account} == both;
      if err2.None? {
        var maker' := WithStatus(AdjustRemaining(maker, LockFor(maker, tr.quantity)));
        ReleaseFrame(w2, sym, maker');
        FrameTransitive(w, w2, ReleaseRemaining(w2, sym, maker').0, both, {maker.account});
        assert both + {maker.account} == both;
      }
    }
  }

  lemma FrameWiden(w: Accounts, w': Accounts, s: set<string>, t: set<string>)
    requires SameOutside(w, w', s) && s <= t
    ensures SameOutside(w, w', t)
  {
  }

  lemma {:induction false} RunGrows(w: Accounts, sym: Symbol, taker: Order, side: seq<Order>)
    ensures Grows(w, OnePhase(w, sym, taker, side).accounts)
    decreases |side|
  {
    hide ApplyTrade;
    if side != [] && taker.remaining > 0.0 && Crosses(taker, side[0]) {
      var qty := Min(taker.remaining, side[0].remaining);
      var m, t, tr := Reduce(side[0], qty), Reduce(taker, qty), TradeOf(taker, side[0], qty);
      ApplyFrame(w, sym, m, t, tr);
      var a := ApplyTrade(w, sym, m, t, tr);
      if a.err.None? && a.maker.remaining == 0.0 {
        RunGrows(a.accounts, sym, a.taker, side[1..]);
      }
    }
  }

  // ----- the two-phase code as a one-phase run

  /** The final release of a filled taker moves nothing. */
  lemma TakerReleasesNothing(w: Accounts, sym: Symbol, b: Book, o: Order)
    requires Ready(w, sym, b, o)
    ensures var one := TheRun(w, sym, b, o);
            one.taker.remaining == 0.0 ==> ReleaseRemaining(one.accounts, sym, one.taker) == (one.accounts, one.taker)
  {
    hide OnePhase;
    hide Bal;
    hide ReleaseRemaining;
    hide Sound;
    var t0, side, one := Stamped(b, o), Opposite(b, o.side), TheRun(w, sym, b, o);
    ReadyIsSound(w, sym, b, o);
    RunSucceeds(w, sym, t0, side);
    if one.taker.remaining == 0.0 {
      var a, x := o.account, LockAsset(sym, o.side);
      assert one.taker == Fulfilled(t0, SumQuantity(one.trades));
      LockSplits(t0, SumQuantity(one.trades));
      BookHeldNonNegative(sym, b, sym.name, a, x);
      assert Bal(w, a, x).locked >= BookHeld(sym, b, a, x) + Held(sym, t0, a, x);
      WantPositive(t0.(reserved := 0.0));
      LockedIsPresent(w, a, x);
      RunGrows(w, sym, t0, side);
      LockStaysNonNegative(w, sym, b, o, a, x);
      ReleaseOfNothing(one.accounts, sym, one.taker);
    }
  }

  lemma LockStaysNonNegative(w: Accounts, sym: Symbol, b: Book, o: Order, a: string, x: string)
    requires Ready(w, sym, b, o)
    ensures Bal(TheRun(w, sym, b, o).accounts, a, x).locked >= 0.0
    ensures Bal(TheRun(w, sym, b, o).accounts, a, x).available >= 0.0
  {
    hide OnePhase;
    hide Bal;
    hide Sound;
    var t0, side, one := Stamped(b, o), Opposite(b, o.side), TheRun(w, sym, b, o);
    ReadyIsSound(w, sym, b, o);
    RunMoney(w, sym, t0, side, a, x);
    RunSucceeds(w, sym, t0, side);
    assert Bal(w, a, x).locked >= BookHeld(sym, b, a, x) + Held(sym, t0, a, x);
    assert Bal(w, a, x).available >= 0.0;
    BookHeldNonNegative(sym, b, sym.name, a, x);
    RestIsLive(w, sym, b, o);
    SumHeldNonNegative(sym, one.rest, a, x);
    HeldNonNegative(sym, one.taker, a, x);
  }

  ghost predicate RestShape(side: seq<Order>, makers: seq<Order>, rest: seq<Order>) {
    var n := |makers|;
    && n <= |side|
    && rest == (if n > 0 && makers[n - 1].remaining != 0.0 then [makers[n - 1]] + side[n..] else side[n..])
  }

  lemma RestShapeCons(side: seq<Order>, maker: Order, makers: seq<Order>, rest: seq<Order>)
    requires side != [] && maker.remaining == 0.0 && RestShape(side[1..], makers, rest)
    ensures RestShape(side, [maker] + makers, rest)
  {
    assert side[1..][|makers|..] == side[|makers| + 1..];
  }

  /** What is left of the opposite side after a run. */
  lemma {:induction false} RunRest(w: Accounts, sym: Symbol, taker: Order, side: seq<Order>)
    requires Sound(w, sym, taker, side)
    ensures var r := OnePhase(w, sym, taker, side);
            && RestShape(side, r.makers, r.rest) && r.taker.remaining >= 0.0
            && (r.rest == [] || r.taker.remaining == 0.0 || !Crosses(taker, r.rest[0]))
    decreases |side|
  {
    hide Sound;
    hide Both;
    hide LockFor;
    hide StatusOf;
    if side != [] && taker.remaining > 0.0 && Crosses(taker, side[0]) {
      StepKeepsSound(w, sym, taker, side);
      StepSucceeds(w, sym, side[0], taker);
      var q := StepQuantity(side[0], taker);
      var t, w' := Fulfilled(taker, q), Both(w, sym, side[0], taker);
      if Fulfilled(side[0], q).remaining == 0.0 {
        RunRest(w', sym, t, side[1..]);
        var r := OnePhase(w', sym, t, side[1..]);
        RestShapeCons(side, Fulfilled(side[0], q), r.makers, r.rest);
      }
    } else {
      assert taker.remaining >= 0.0 by { SoundRemaining(w, sym, taker, side); }
    }
  }

  lemma SoundRemaining(w: Accounts, sym: Symbol, taker: Order, side: seq<Order>)
    requires Sound(w, sym, taker, side)
    ensures taker.remaining >= 0.0
  {
  }

  /** Whoever is left on the opposite side is live with an honest status, and in its old place. */
  lemma RestIsLive(w: Accounts, sym: Symbol, b: Book, o: Order)
    requires Ready(w, sym, b, o)
    ensures var r := TheRun(w, sym, b, o);
            && (forall p | p in r.rest :: Resting(p, OtherSide(o.side), sym.name))
            && r.taker.remaining >= 0.0 && r.taker.price > 0.0
  {
    hide OnePhase;
    hide Sound;
    hide Ordered;
    hide Uncrossed;
    var t0, side, r := Stamped(b, o), Opposite(b, o.side), TheRun(w, sym, b, o);
    ReadyIsSound(w, sym, b, o);
    RunSucceeds(w, sym, t0, side);
    RunRest(w, sym, t0, side);
    assert r.taker == Fulfilled(t0, SumQuantity(r.trades));
    forall p | p in r.rest
      ensures Resting(p, OtherSide(o.side), sym.name)
    {
      var n := |r.makers|;
      if p in side[n..] {
        assert p in side;
      } else {
        assert p == Fulfilled(side[n - 1], r.trades[n - 1].quantity);
        assert side[n - 1] in side;
        StillResting(w, sym, b, o, n - 1);
      }
    }
  }

  /** A maker that keeps something keeps at most what it had. */
  lemma StillResting(w: Accounts, sym: Symbol, b: Book, o: Order, i: nat)
    requires Ready(w, sym, b, o) && i < |TheRun(w, sym, b, o).makers|
    ensures var r := TheRun(w, sym, b, o);
            && |r.makers| == |r.trades| <= |Opposite(b, o.side)|
            && r.makers[i] == Fulfilled(Opposite(b, o.side)[i], r.trades[i].quantity)
            && 0.0 < r.trades[i].quantity <= Opposite(b, o.side)[i].remaining
  {
    hide OnePhase;
    hide Sound;
    hide Match;
    var t0, side := Stamped(b, o), Opposite(b, o.side);
    ReadyIsSound(w, sym, b, o);
    RunSucceeds(w, sym, t0, side);
    TwoPhaseIsOnePhase(w, sym, t0, side);
    assert PositiveRemaining(side) by {
      SideIsPositive(w, sym, t0, side);
    }
    MatchHasShape(t0, side);
  }

  lemma SideIsPositive(w: Accounts, sym: Symbol, taker: Order, side: seq<Order>)
    requires Sound(w, sym, taker, side)
    ensures PositiveRemaining(side) && taker.remaining >= 0.0
  {
    forall i | 0 <= i < |side|
      ensures side[i].remaining > 0.0
    {
      assert side[i] in side;
    }
  }

  /** The two-phase execution of a ready order is the one-phase run: nothing fails, and the
      accounts, records and sides agree. */
  lemma ExecuteIsRun(w: Accounts, sym: Symbol, b: Book, o: Order)
    requires Ready(w, sym, b, o)
    ensures var e, one := Execute(w, sym, b, o), TheRun(w, sym, b, o);
            && e.err.None?
            && e.accounts == one.accounts && e.taker == one.taker && e.makers == one.makers && e.trades == one.trades
            && e.book == SettledBook(b, one.taker, one.makers, Match(Stamped(b, o), Opposite(b, o.side)).rest)
            && Opposite(e.book, o.side) == one.rest
            && one.taker.side == o.side
  {
    hide OnePhase;
    hide SettleFills;
    hide Snapshots;
    hide ReleaseRemaining;
    hide Match;
    hide Sound;
    hide Refreshed;
    hide Insert;
    var t0, side, one := Stamped(b, o), Opposite(b, o.side), TheRun(w, sym, b, o);
    ReadyIsSound(w, sym, b, o);
    RunSucceeds(w, sym, t0, side);
    TwoPhaseIsOnePhase(w, sym, t0, side);
    TakerReleasesNothing(w, sym, b, o);
  }

  // ----- money

  lemma SumHeldInsert(sym: Symbol, side: Side, s: seq<Order>, o: Order, a: string, x: string)
    ensures SumHeld(sym, Insert(side, s, o), a, x) == SumHeld(sym, s, a, x) + Held(sym, o, a, x)
  {
    hide Held;
    hide InsertAt;
    var k := InsertAt(side, s, o);
    assert s == s[..k] + s[k..];
    SumHeldConcat(sym, s[..k], s[k..], a, x);
    SumHeldConcat(sym, s[..k] + [o], s[k..], a, x);
    SumHeldConcat(sym, s[..k], [o], a, x);
    assert SumHeld(sym, [o], a, x) == Held(sym, o, a, x);
  }

  /** An execution moves the order's own hold into the book and every balance by the trades. */
  lemma ExecuteMoney(w: Accounts, sym: Symbol, b: Book, o: Order, a: string, x: string)
    requires Ready(w, sym, b, o)
    ensures var e := Execute(w, sym, b, o);
            && Bal(e.accounts, a, x).locked - BookHeld(sym, e.book, a, x) ==
               Bal(w, a, x).locked - BookHeld(sym, b, a, x) - Held(sym, Stamped(b, o), a, x)
            && Total(Bal(e.accounts, a, x)) == Total(Bal(w, a, x)) + SumFlow(sym, e.trades, o.side, a, x)
            && Bal(e.accounts, a, x).available >= Bal(w, a, x).available
            && Bal(e.accounts, a, x).locked >= 0.0
  {
    hide OnePhase;
    hide Execute;
    hide Bal;
    hide Sound;
    hide Held;
    hide Insert;
    hide Match;
    var t0, side, one := Stamped(b, o), Opposite(b, o.side), TheRun(w, sym, b, o);
    ReadyIsSound(w, sym, b, o);
    ExecuteIsRun(w, sym, b, o);
    RunMoney(w, sym, t0, side, a, x);
    LockStaysNonNegative(w, sym, b, o, a, x);
    RestIsLive(w, sym, b, o);
    if one.taker.remaining > 0.0 {
      SumHeldInsert(sym, o.side, Own(b, o.side), one.taker, a, x);
    } else {
      NothingHeld(sym, one.taker, a, x);
    }
  }

  // ----- the book

  lemma TakerAfter(w: Accounts, sym: Symbol, b: Book, o: Order)
    requires Ready(w, sym, b, o)
    ensures var one := TheRun(w, sym, b, o);
            && one.taker == Fulfilled(Stamped(b, o), SumQuantity(one.trades))
            && 0.0 <= one.taker.remaining <= o.quantity
            && (one.taker.remaining > 0.0 ==> Resting(one.taker, o.side, sym.name))
  {
    hide OnePhase;
    hide Sound;
    hide Match;
    hide RestShape;
    hide FillsArePrefix;
    hide BookOk;
    hide Bal;
    hide Resting;
    var t0, side := Stamped(b, o), Opposite(b, o.side);
    ReadyIsSound(w, sym, b, o);
    RunSucceeds(w, sym, t0, side);
    RunRest(w, sym, t0, side);
    TwoPhaseIsOnePhase(w, sym, t0, side);
    SideIsPositive(w, sym, t0, side);
    MatchHasShape(t0, side);
    PrefixIsPositive(t0, side, Match(t0, side).fills);
    FulfilledRests(t0, SumQuantity(TheRun(w, sym, b, o).trades), sym.name);
  }

  lemma FulfilledRests(t: Order, q: real, n: string)
    requires Live(t) && q >= 0.0 && t.symbol == n
    ensures Fulfilled(t, q).remaining > 0.0 ==> Resting(Fulfilled(t, q), t.side, n)
  {
  }

  lemma PrefixIsPositive(t: Order, side: seq<Order>, fills: seq<Fill>)
    requires FillsArePrefix(t, side, fills)
    ensures SumQuantity(Trades(fills)) >= 0.0
  {
    hide SumQuantity;
    TradesArePositive(fills);
  }

  lemma {:induction false} TradesArePositive(fills: seq<Fill>)
    requires forall i | 0 <= i < |fills| :: fills[i].trade.quantity > 0.0
    ensures SumQuantity(Trades(fills)) >= 0.0
  {
    if fills != [] {
      TradesArePositive(fills[1..]);
      assert Trades(fills)[1..] == Trades(fills[1..]);
    }
  }

  lemma RestKeys(w: Accounts, sym: Symbol, b: Book, o: Order) returns (k: nat)
    requires Ready(w, sym, b, o)
    ensures k <= |Opposite(b, o.side)| && SameKeys(TheRun(w, sym, b, o).rest, Opposite(b, o.side)[k..])
  {
    hide OnePhase;
    hide Sound;
    hide Ready;
    hide RestShape;
    hide RunShape;
    hide SameKeys;
    var t0, side, r := Stamped(b, o), Opposite(b, o.side), TheRun(w, sym, b, o);
    ReadyIsSound(w, sym, b, o);
    RunSucceeds(w, sym, t0, side);
    RunRest(w, sym, t0, side);
    k := ShapeKeys(t0, side, r);
  }

  lemma FulfilledKeys(o: Order, quantity: real)
    ensures Fulfilled(o, quantity).price == o.price && Fulfilled(o, quantity).sequence == o.sequence
  {
  }

  lemma ShapeKeys(taker: Order, side: seq<Order>, r: Run) returns (k: nat)
    requires RunShape(taker, side, r) && RestShape(side, r.makers, r.rest)
    ensures k <= |side| && SameKeys(r.rest, side[k..])
  {
    hide Fulfilled;
    hide SumQuantity;
    hide StatusOf;
    var n := |r.makers|;
    k := if n > 0 && r.makers[n - 1].remaining != 0.0 then n - 1 else n;
    if k < n {
      FulfilledKeys(side[n - 1], r.trades[n - 1].quantity);
      assert r.rest == [r.makers[n - 1]] + side[n..];
      assert side[k..] == [side[k]] + side[n..];
    }
  }

  lemma ExecuteOrdered(w: Accounts, sym: Symbol, b: Book, o: Order)
    requires Ready(w, sym, b, o)
    ensures Ordered(Execute(w, sym, b, o).book)
  {
    hide Execute;
    hide TheRun;
    hide OrderedSides;
    hide SameKeys;
    hide Insert;
    hide Match;
    hide Held;
    hide Bal;
    hide Ordered;
    hide Uncrossed;
    var own, opposite, one := Own(b, o.side), Opposite(b, o.side), TheRun(w, sym, b, o);
    ExecuteIsRun(w, sym, b, o);
    OrderedBySides(b, o.side);
    var k := RestKeys(w, sym, b, o);
    SuffixInOrder(own, opposite, o.side, b.seqNo, k);
    TakerAfter(w, sym, b, o);
    SettledInOrder(own, opposite[k..], one.rest, o.side, b.seqNo, one.taker);
    OrderedBySides(Execute(w, sym, b, o).book, o.side);
  }

  lemma SettledInOrder(own: seq<Order>, opposite: seq<Order>, rest: seq<Order>, side: Side, seqNo: int, taker: Order)
    requires OrderedSides(own, opposite, side, seqNo) && SameKeys(rest, opposite)
    requires taker.side == side && taker.sequence == seqNo + 1
    ensures OrderedSides(if taker.remaining > 0.0 then Insert(side, own, taker) else own, rest, side, seqNo + 1)
  {
    hide Sorted;
    hide Insert;
    RestInOrder(own, opposite, rest, side, seqNo);
    RestBelow(rest, opposite, own, side, seqNo);
    if taker.remaining > 0.0 {
      DistinctWithNew(own, taker);
      AppendAndSortInserts(side, own, taker);
      NewInOrder(own, rest, side, seqNo, taker);
    }
  }

  lemma RestBelow(rest: seq<Order>, opposite: seq<Order>, own: seq<Order>, side: Side, seqNo: int)
    requires SameKeys(rest, opposite) && OrderedSides(own, opposite, side, seqNo)
    ensures forall i | 0 <= i < |rest| :: rest[i].sequence <= seqNo
    ensures forall i | 0 <= i < |own| :: own[i].sequence < seqNo + 1
  {
  }

  /** A price on one side against a price on the other, in book terms. */
  ghost predicate Apart(side: Side, own: real, opposite: real) {
    if side == BuySide then own < opposite else own > opposite
  }

  ghost predicate SidesApart(side: Side, own: seq<Order>, opposite: seq<Order>) {
    forall i, j | 0 <= i < |own| && 0 <= j < |opposite| :: Apart(side, own[i].price, opposite[j].price)
  }

  lemma UncrossedBySides(b: Book, side: Side)
    ensures Uncrossed(b) <==> SidesApart(side, Own(b, side), Opposite(b, side))
  {
    if side == SellSide {
      if Uncrossed(b) {
        forall i, j | 0 <= i < |b.asks| && 0 <= j < |b.bids|
          ensures Apart(side, b.asks[i].price, b.bids[j].price)
        {
          assert b.bids[j].price < b.asks[i].price;
        }
      }
      if SidesApart(side, b.asks, b.bids) {
        forall i, j | 0 <= i < |b.bids| && 0 <= j < |b.asks|
          ensures b.bids[i].price < b.asks[j].price
        {
          assert Apart(side, b.asks[j].price, b.bids[i].price);
        }
      }
    }
  }

  lemma RestApart(taker: Order, rest: seq<Order>, j: nat)
    requires Sorted(OtherSide(taker.side), rest) && j < |rest| && !Crosses(taker, rest[0])
    ensures Apart(taker.side, taker.price, rest[j].price)
  {
    if j > 0 {
      assert Before(OtherSide(taker.side), rest[0], rest[j]);
    }
  }

  lemma SuffixApart(side: Side, own: seq<Order>, opposite: seq<Order>, rest: seq<Order>, k: nat)
    requires SidesApart(side, own, opposite) && k <= |opposite| && SameKeys(rest, opposite[k..])
    ensures SidesApart(side, own, rest)
  {
    hide Apart;
    forall i, j | 0 <= i < |own| && 0 <= j < |rest|
      ensures Apart(side, own[i].price, rest[j].price)
    {
      assert rest[j].price == opposite[k..][j].price == opposite[k + j].price;
    }
  }

  lemma InsertApart(taker: Order, own: seq<Order>, rest: seq<Order>)
    requires SidesApart(taker.side, own, rest) && Sorted(OtherSide(taker.side), rest)
    requires rest == [] || !Crosses(taker, rest[0])
    ensures SidesApart(taker.side, Insert(taker.side, own, taker), rest)
  {
    hide Apart;
    hide Sorted;
    hide InsertAt;
    var at, own' := InsertAt(taker.side, own, taker), Insert(taker.side, own, taker);
    forall i, j | 0 <= i < |own'| && 0 <= j < |rest|
      ensures Apart(taker.side, own'[i].price, rest[j].price)
    {
      if i == at {
        RestApart(taker, rest, j);
      } else {
        assert own'[i] == own[if i < at then i else i - 1];
      }
    }
  }

  lemma ExecuteUncrossed(w: Accounts, sym: Symbol, b: Book, o: Order)
    requires Ready(w, sym, b, o)
    ensures Uncrossed(Execute(w, sym, b, o).book)
  {
    hide Execute;
    hide OnePhase;
    hide Sorted;
    hide Match;
    hide Held;
    hide Bal;
    hide SidesApart;
    hide Sound;
    hide Insert;
    hide LockFor;
    var own, opposite, one := Own(b, o.side), Opposite(b, o.side), TheRun(w, sym, b, o);
    var e := Execute(w, sym, b, o);
    ExecuteIsRun(w, sym, b, o);
    ExecuteOrdered(w, sym, b, o);
    OrderedBySides(e.book, o.side);
    UncrossedBySides(b, o.side);
    var k := RestKeys(w, sym, b, o);
    SuffixApart(o.side, own, opposite, one.rest, k);
    TakerAfter(w, sym, b, o);
    ReadyIsSound(w, sym, b, o);
    RunRest(w, sym, Stamped(b, o), opposite);
    if one.taker.remaining > 0.0 {
      CrossesByLimit(Stamped(b, o), one.taker, one.rest);
      InsertApart(one.taker, own, one.rest);
    }
    UncrossedBySides(e.book, o.side);
  }

  lemma CrossesByLimit(t: Order, t': Order, rest: seq<Order>)
    requires t.side == t'.side && t.price == t'.price
    requires rest == [] || !Crosses(t, rest[0])
    ensures rest == [] || !Crosses(t', rest[0])
  {
  }

  /** The book stays in order, uncrossed and made of live orders. */
  lemma ExecuteBookOk(w: Accounts, sym: Symbol, b: Book, o: Order)
    requires Ready(w, sym, b, o)
    ensures BookOk(Execute(w, sym, b, o).book, sym.name)
  {
    hide Execute;
    hide OnePhase;
    hide Ordered;
    hide Uncrossed;
    hide Match;
    hide Held;
    hide Bal;
    hide Live;
    ExecuteOrdered(w, sym, b, o);
    ExecuteUncrossed(w, sym, b, o);
    ExecuteIsRun(w, sym, b, o);
    TakerAfter(w, sym, b, o);
    RestIsLive(w, sym, b, o);
    var e := Execute(w, sym, b, o);
    forall p | p in Own(e.book, o.side)
      ensures Resting(p, o.side, sym.name)
    {
      assert p in Own(b, o.side) || p == e.taker;
    }
  }

  /** An execution's trades and counter are the submission's, whatever becomes of the settlements. */
  lemma ExecuteSubmits(w: Accounts, sym: Symbol, b: Book, o: Order)
    ensures var e := Execute(w, sym, b, o);
            && e.book.seqNo == b.seqNo + 1 && e.trades == Trades(Match(Stamped(b, o), Opposite(b, o.side)).fills)
  {
    hide Match;
    hide SettleFills;
    hide Snapshots;
    hide ReleaseRemaining;
    hide Refreshed;
    hide Insert;
  }
}
