/** The live order book: order records shared by reference between the book, the fills of a
    submission and the caller that settles them. */
module OrderBooks {
  import opened Domain
  import opened Matching
  import opened Priority
  import opened BookModel

  class LiveOrder {
    const id: string
    const account: string
    const symbol: string
    const side: Side
    const price: real
    const quantity: real
    var remaining: real
    var reserved: real
    var sequence: int
    var status: Status

    constructor (o: Order)
      ensures View() == o
    {
      id, account, symbol, side, price, quantity := o.id, o.account, o.symbol, o.side, o.price, o.quantity;
      remaining, reserved, sequence, status := o.remaining, o.reserved, o.sequence, o.status;
    }

    function View(): Order
      reads `remaining, `reserved, `sequence, `status
    {
      Order(id, account, symbol, side, price, quantity, remaining, reserved, sequence, status)
    }
  }

  datatype LiveFill = LiveFill(maker: LiveOrder, trade: Trade)

  function Views(os: seq<LiveOrder>): (r: seq<Order>)
    reads os`remaining, os`reserved, os`sequence, os`status
    ensures |r| == |os|
    ensures forall i | 0 <= i < |os| :: r[i] == os[i].View()
  {
    if os == [] then [] else [os[0].View()] + Views(os[1..])
  }

  ghost predicate NoDuplicates(os: seq<LiveOrder>) {
    forall i, j | 0 <= i < j < |os| :: os[i] != os[j]
  }

  ghost predicate DistinctLive(os: seq<LiveOrder>)
    reads os
  {
    forall i, j | 0 <= i < j < |os| :: os[i].sequence != os[j].sequence
  }

  /** Records with distinct arrival numbers are told apart by what they show. */
  lemma RefsFromViews(r: seq<LiveOrder>, expected: seq<LiveOrder>)
    requires forall o | o in r :: o in expected
    requires DistinctLive(expected)
    requires Views(r) == Views(expected)
    ensures r == expected
  {
    forall i | 0 <= i < |r|
      ensures r[i] == expected[i]
    {
      assert Views(r)[i] == Views(expected)[i];
      RefFromView(r[i], expected, i);
    }
  }

  lemma RefFromView(o: LiveOrder, expected: seq<LiveOrder>, i: nat)
    requires o in expected && i < |expected| && o.View() == expected[i].View()
    requires DistinctLive(expected)
    ensures o == expected[i]
  {
    var j :| 0 <= j < |expected| && expected[j] == o;
  }

  lemma ViewsConcat(s: seq<LiveOrder>, t: seq<LiveOrder>)
    ensures Views(s + t) == Views(s) + Views(t)
  {
    hide Views;
  }

  lemma ViewsSplit(s: seq<LiveOrder>, k: nat)
    requires k <= |s|
    ensures Views(s[..k]) == Views(s)[..k] && Views(s[k..]) == Views(s)[k..]
  {
    hide Views;
  }

  class OrderBook {
    const symbol: string
    var bids: seq<LiveOrder>
    var asks: seq<LiveOrder>
    var seqNo: int

    constructor (symbol: string)
      ensures this.symbol == symbol && bids == [] && asks == [] && seqNo == 0
    {
      this.symbol := symbol;
      bids, asks, seqNo := [], [], 0;
    }

    function Value(): Book
      reads this, bids, asks
    {
      Book(Views(bids), Views(asks), seqNo)
    }

    ghost predicate Valid()
      reads this, bids, asks
    {
      Ordered(Value())
    }

    function OwnRefs(side: Side): seq<LiveOrder>
      reads this
    {
      if side == BuySide then bids else asks
    }

    function OppositeRefs(side: Side): seq<LiveOrder>
      reads this
    {
      if side == BuySide then asks else bids
    }

    /** What a run over one side leaves behind: fills[i] points at the i-th maker, the makers'
        records show the specified fills and are otherwise as before, and a maker stays on
        the side exactly when it keeps something. */
    static ghost predicate SideMatched(order: LiveOrder, makers: seq<LiveOrder>, before: seq<Order>,
                                       after: seq<LiveOrder>, fills: seq<LiveFill>, m: Matched)
      reads order`remaining, order`reserved, order`sequence, order`status
      reads makers`remaining, makers`reserved, makers`sequence, makers`status
    {
      && |m.fills| <= |makers| == |before|
      && order.View() == m.taker
      && PointInto(fills, makers, m.fills)
      && Views(makers) == Makers(m.fills) + before[|m.fills|..]
      && after == makers[FirstLeft(Views(makers), |m.fills|)..]
      && Views(after) == m.rest
    }

    static ghost predicate PointInto(fills: seq<LiveFill>, makers: seq<LiveOrder>, done: seq<Fill>) {
      && |fills| == |done| <= |makers|
      && forall i | 0 <= i < |fills| :: fills[i] == LiveFill(makers[i], done[i].trade)
    }

    /** The state of the matching loop: `done` has been filled, and `current` is left of the side. */
    static ghost predicate InLoop(order: LiveOrder, makers: seq<LiveOrder>, before: seq<Order>, m: Matched,
                                  current: seq<LiveOrder>, fills: seq<LiveFill>, done: seq<Fill>)
      reads order`remaining, order`reserved, order`sequence, order`status
      reads makers`remaining, makers`reserved, makers`sequence, makers`status
    {
      && UnderWay(m, before, order.View(), Views(makers), done)
      && PointInto(fills, makers, done)
      && current == makers[FirstLeft(Views(makers), |done|)..]
    }

    static lemma LoopBegins(order: LiveOrder, makers: seq<LiveOrder>)
      ensures InLoop(order, makers, Views(makers), Match(order.View(), Views(makers)), makers, [], [])
    {
      UnderWayBegins(Views(makers), order.View());
    }

    static lemma LoopEnds(order: LiveOrder, makers: seq<LiveOrder>, before: seq<Order>, m: Matched,
                          current: seq<LiveOrder>, fills: seq<LiveFill>, done: seq<Fill>)
      requires InLoop(order, makers, before, m, current, fills, done)
      requires current == [] || !(order.remaining > 0.0) || !Crosses(order.View(), current[0].View())
      ensures SideMatched(order, makers, before, current, fills, m)
    {
      hide Match;
      hide Views;
      hide Makers;
      UnderWayEnds(m, before, order.View(), Views(makers), done);
      ViewsSplit(makers, FirstLeft(Views(makers), |done|));
    }

    static lemma PointIntoNext(fills: seq<LiveFill>, makers: seq<LiveOrder>, done: seq<Fill>, fill: LiveFill,
                               maker: Order)
      requires PointInto(fills, makers, done) && |done| < |makers| && fill.maker == makers[|done|]
      ensures PointInto(fills + [fill], makers, done + [Fill(maker, fill.trade)])
    {
    }

    /** One trade between the taker and the best maker, the first of its side. */
    static method FillBest(order: LiveOrder, side: seq<LiveOrder>, fills: seq<LiveFill>, ghost makers: seq<LiveOrder>,
                           ghost before: seq<Order>, ghost m: Matched, ghost done: seq<Fill>)
      returns (left: seq<LiveOrder>, fills': seq<LiveFill>, ghost done': seq<Fill>)
      requires NoDuplicates(makers) && order !in makers
      requires InLoop(order, makers, before, m, side, fills, done)
      requires side != [] && order.remaining > 0.0 && Crosses(order.View(), side[0].View())
      modifies order`remaining, makers`remaining
      ensures InLoop(order, makers, before, m, left, fills', done')
      ensures |left| < |side| || (left == side && order.remaining == 0.0)
    {
      hide UnderWay;
      hide Match;
      hide FirstLeft;
      hide Views;
      hide PointInto;
      ghost var n, taker, shown := |done|, order.View(), Views(makers);
      UnderWayHead(m, before, taker, shown, done);
      UnderWayStep(m, before, taker, shown, done);
      var best := side[0];
      var tradeQty := Min(order.remaining, best.remaining);
      best.remaining := best.remaining - tradeQty;
      order.remaining := order.remaining - tradeQty;
      var fill := LiveFill(best, Trade(order.symbol, best.price, tradeQty, best.id, order.id, best.account,
                                       order.account));
      fills' := fills + [fill];
      left := if best.remaining == 0.0 then side[1..] else side;
      done' := done + [Fill(best.View(), fill.trade)];
      assert Views(makers) == shown[n := best.View()];
      PointIntoNext(fills, makers, done, fill, best.View());
    }

    method MatchBuy(order: LiveOrder) returns (fills: seq<LiveFill>)
      requires NoDuplicates(asks) && order !in asks && order.side == BuySide
      modifies this`asks, order`remaining, asks`remaining
      ensures SideMatched(order, old(asks), old(Views(asks)), asks, fills, old(Match(order.View(), Views(asks))))
    {
      hide InLoop;
      hide SideMatched;
      hide Match;
      hide Views;
      ghost var makers, before, m, done := asks, Views(asks), Match(order.View(), Views(asks)), [];
      fills := [];
      LoopBegins(order, makers);
      while |asks| > 0 && order.remaining > 0.0
        invariant InLoop(order, makers, before, m, asks, fills, done)
        decreases |asks|, order.remaining > 0.0
      {
        if asks[0].price > order.price {
          break;
        }
        asks, fills, done := FillBest(order, asks, fills, makers, before, m, done);
      }
      LoopEnds(order, makers, before, m, asks, fills, done);
    }

    method MatchSell(order: LiveOrder) returns (fills: seq<LiveFill>)
      requires NoDuplicates(bids) && order !in bids && order.side == SellSide
      modifies this`bids, order`remaining, bids`remaining
      ensures SideMatched(order, old(bids), old(Views(bids)), bids, fills, old(Match(order.View(), Views(bids))))
    {
      hide InLoop;
      hide SideMatched;
      hide Match;
      hide Views;
      ghost var makers, before, m, done := bids, Views(bids), Match(order.View(), Views(bids)), [];
      fills := [];
      LoopBegins(order, makers);
      while |bids| > 0 && order.remaining > 0.0
        invariant InLoop(order, makers, before, m, bids, fills, done)
        decreases |bids|, order.remaining > 0.0
      {
        if bids[0].price < order.price {
          break;
        }
        bids, fills, done := FillBest(order, bids, fills, makers, before, m, done);
      }
      LoopEnds(order, makers, before, m, bids, fills, done);
    }

    /** A stable insertion sort of one side. */
    static method SortSide(side: Side, os: seq<LiveOrder>) returns (sorted: seq<LiveOrder>)
      ensures Views(sorted) == StableSort(side, Views(os))
      ensures forall o :: o in sorted <==> o in os
    {
      hide StableSort;
      hide Views;
      SortOfNone(side, os);
      sorted := [];
      for i := 0 to |os|
        invariant Views(sorted) == StableSort(side, Views(os[..i]))
        invariant forall o :: o in sorted <==> o in os[..i]
      {
        var k := FindPlace(side, sorted, os[i]);
        SortedOneMore(side, os, i, sorted, k);
        MembersOfInsert(sorted, os[i], k);
        SnocMembers(os, i);
        sorted := sorted[..k] + [os[i]] + sorted[k..];
      }
      assert os[..|os|] == os;
    }

    static lemma SnocMembers(os: seq<LiveOrder>, i: nat)
      requires i < |os|
      ensures forall x :: x in os[..i + 1] <==> x in os[..i] || x == os[i]
    {
      assert os[..i + 1] == os[..i] + [os[i]];
    }

    static lemma SortOfNone(side: Side, os: seq<LiveOrder>)
      ensures Views([]) == StableSort(side, Views(os[..0]))
    {
    }

    static method FindPlace(side: Side, sorted: seq<LiveOrder>, o: LiveOrder) returns (k: nat)
      ensures k == InsertAt(side, Views(sorted), o.View()) <= |sorted|
    {
      hide Views;
      hide Before;
      k := |sorted|;
      assert Views(sorted)[..|sorted|] == Views(sorted);
      while k > 0 && Before(side, o.View(), sorted[k - 1].View())
        invariant k <= |sorted|
        invariant InsertAt(side, Views(sorted), o.View()) == InsertAt(side, Views(sorted)[..k], o.View())
      {
        k := k - 1;
        assert Views(sorted)[..k + 1][..k] == Views(sorted)[..k];
      }
    }

    static lemma SortedOneMore(side: Side, os: seq<LiveOrder>, i: nat, was: seq<LiveOrder>, k: nat)
      requires i < |os| && k <= |was|
      requires Views(was) == StableSort(side, Views(os[..i]))
      requires k == InsertAt(side, Views(was), os[i].View())
      ensures Views(was[..k] + [os[i]] + was[k..]) == StableSort(side, Views(os[..i + 1]))
    {
      hide InsertAt;
      hide StableSort;
      hide Views;
      assert os[..i + 1] == os[..i] + [os[i]];
      ViewsConcat(os[..i], [os[i]]);
      ViewsInsert(was, os[i], k);
      assert Views([os[i]]) == [os[i].View()];
      SortOfAppend(side, Views(os[..i]), os[i].View());
    }

    static lemma MembersOfInsert(s: seq<LiveOrder>, o: LiveOrder, k: nat)
      requires k <= |s|
      ensures forall x :: x in s[..k] + [o] + s[k..] <==> x in s || x == o
    {
      assert s == s[..k] + s[k..];
    }

    static lemma ViewsInsert(s: seq<LiveOrder>, o: LiveOrder, k: nat)
      requires k <= |s|
      ensures Views(s[..k] + [o] + s[k..]) == Views(s)[..k] + [o.View()] + Views(s)[k..]
    {
      hide Views;
      ViewsSplit(s, k);
      ViewsConcat(s[..k] + [o], s[k..]);
      ViewsConcat(s[..k], [o]);
      assert Views([o]) == [o.View()];
    }

    static lemma SortOfAppend(side: Side, s: seq<Order>, o: Order)
      ensures StableSort(side, s + [o]) == Insert(side, StableSort(side, s), o)
    {
      assert (s + [o])[..|s|] == s;
    }

    method SortBooks()
      modifies this`bids, this`asks
      ensures Views(bids) == StableSort(BuySide, old(Views(bids))) && (forall o :: o in bids <==> o in old(bids))
      ensures Views(asks) == StableSort(SellSide, old(Views(asks))) && (forall o :: o in asks <==> o in old(asks))
    {
      hide StableSort;
      hide Views;
      var sortedBids := SortSide(BuySide, bids);
      var sortedAsks := SortSide(SellSide, asks);
      bids, asks := sortedBids, sortedAsks;
    }

    /** Sorting a side that is in order moves nothing. */
    static lemma SortMovesNothing(side: Side, r: seq<LiveOrder>, os: seq<LiveOrder>)
      requires Sorted(side, Views(os)) && DistinctLive(os)
      requires Views(r) == StableSort(side, Views(os)) && forall o | o in r :: o in os
      ensures r == os
    {
      hide StableSort;
      hide Views;
      SortedIsFixed(side, Views(os));
      RefsFromViews(r, os);
    }

    /** A side with the taker put in its place. */
    static function InsertedRefs(os: seq<LiveOrder>, o: LiveOrder): seq<LiveOrder>
      reads os`remaining, os`reserved, os`sequence, os`status
      reads o`remaining, o`reserved, o`sequence, o`status
    {
      var k := InsertAt(o.side, Views(os), o.View());
      os[..k] + [o] + os[k..]
    }

    /** Sorting a side after appending one order moves that order to its place, and nothing else. */
    static lemma SortMovesOne(r: seq<LiveOrder>, os: seq<LiveOrder>, o: LiveOrder)
      requires Sorted(o.side, Views(os)) && DistinctLive(os + [o])
      requires Views(r) == StableSort(o.side, Views(os + [o])) && forall x | x in r :: x in os + [o]
      ensures r == InsertedRefs(os, o)
    {
      hide StableSort;
      hide Views;
      hide InsertAt;
      var k := InsertAt(o.side, Views(os), o.View());
      ViewsConcat(os, [o]);
      assert Views([o]) == [o.View()];
      DistinctViews(os + [o]);
      AppendAndSortInserts(o.side, Views(os), o.View());
      ViewsInsert(os, o, k);
      MembersOfInsert(os, o, k);
      DistinctAfterInsert(os, o, k);
      RefsFromViews(r, os[..k] + [o] + os[k..]);
    }

    static lemma DistinctViews(os: seq<LiveOrder>)
      ensures DistinctLive(os) <==> DistinctSequences(Views(os))
    {
      hide Views;
      if DistinctSequences(Views(os)) {
        forall i, j | 0 <= i < j < |os|
          ensures os[i].sequence != os[j].sequence
        {
          assert Views(os)[i].sequence != Views(os)[j].sequence;
        }
      }
    }

    static lemma DistinctAfterInsert(os: seq<LiveOrder>, o: LiveOrder, k: nat)
      requires k <= |os| && DistinctLive(os + [o])
      ensures DistinctLive(os[..k] + [o] + os[k..])
    {
      var r := os[..k] + [o] + os[k..];
      forall i, j | 0 <= i < j < |r|
        ensures r[i].sequence != r[j].sequence
      {
        var i' := if i < k then i else if i == k then |os| else i - 1;
        var j' := if j < k then j else if j == k then |os| else j - 1;
        assert r[i] == (os + [o])[i'] && r[j] == (os + [o])[j'];
      }
    }

    /** Append the taker to its own side and sort both sides. */
    method AppendAndSort(order: LiveOrder)
      requires Sorted(order.side, Views(OwnRefs(order.side))) && DistinctLive(OwnRefs(order.side) + [order])
      requires Sorted(OtherSide(order.side), Views(OppositeRefs(order.side))) && DistinctLive(OppositeRefs(order.side))
      modifies this`bids, this`asks
      ensures OwnRefs(order.side) == old(InsertedRefs(OwnRefs(order.side), order))
      ensures OppositeRefs(order.side) == old(OppositeRefs(order.side))
    {
      hide StableSort;
      hide Views;
      hide Sorted;
      hide InsertedRefs;
      hide DistinctLive;
      ghost var b, a := bids, asks;
      match order.side {
        case BuySide =>
          bids := bids + [order];
          SortBooks();
          SortMovesOne(bids, b, order);
          SortMovesNothing(SellSide, asks, a);
        case SellSide =>
          asks := asks + [order];
          SortBooks();
          SortMovesOne(asks, a, order);
          SortMovesNothing(BuySide, bids, b);
      }
    }

    /** What a submission does to the shared records: the makers show their fills, fills point at
        them, and only the exhausted ones have left the side. */
    static ghost predicate MakersFilled(makers: seq<LiveOrder>, before: seq<Order>, after: seq<LiveOrder>,
                                        fills: seq<LiveFill>, done: seq<Fill>)
      reads makers`remaining, makers`reserved, makers`sequence, makers`status
    {
      && |done| <= |makers| == |before|
      && PointInto(fills, makers, done)
      && Views(makers) == Makers(done) + before[|done|..]
      && after == makers[FirstLeft(Views(makers), |done|)..]
    }

    static lemma DistinctOwners(own: seq<LiveOrder>, opposite: seq<LiveOrder>, side: Side, seqNo: int)
      requires OrderedSides(Views(own), Views(opposite), side, seqNo)
      ensures NoDuplicates(own) && NoDuplicates(opposite) && forall o | o in own :: o !in opposite
      ensures DistinctLive(own) && DistinctLive(opposite)
      ensures forall o | o in own || o in opposite :: o.sequence <= seqNo
    {
      hide Views;
      hide Sorted;
      DistinctViews(own);
      DistinctViews(opposite);
      forall o | o in own
        ensures o !in opposite && o.sequence <= seqNo
      {
        var i :| 0 <= i < |own| && own[i] == o;
        assert Views(own)[i].sequence <= seqNo;
        forall j | 0 <= j < |opposite|
          ensures opposite[j] != o
        {
          assert Views(own)[i].sequence != Views(opposite)[j].sequence;
        }
      }
      forall o | o in opposite
        ensures o.sequence <= seqNo
      {
        var i :| 0 <= i < |opposite| && opposite[i] == o;
        assert Views(opposite)[i].sequence <= seqNo;
      }
    }

    /** Phase one of a submission: stamp the order and match it. */
    method StampAndMatch(order: LiveOrder) returns (fills: seq<LiveFill>)
      requires Valid() && order !in bids && order !in asks
      modifies this, order`remaining, order`sequence, bids`remaining, asks`remaining
      ensures seqNo == old(seqNo) + 1 && OwnRefs(order.side) == old(OwnRefs(order.side))
      ensures Views(OwnRefs(order.side)) == old(Views(OwnRefs(order.side)))
      ensures var m := old(Match(Stamped(Value(), order.View()), Opposite(Value(), order.side)));
              && order.View() == m.taker
              && Views(OppositeRefs(order.side)) == m.rest
              && MakersFilled(old(OppositeRefs(order.side)), old(Views(OppositeRefs(order.side))),
                              OppositeRefs(order.side), fills, m.fills)
    {
      hide Match;
      hide Views;
      hide SideMatched;
      hide MakersFilled;
      hide Ordered;
      OrderedBySides(Value(), order.side);
      DistinctOwners(OwnRefs(order.side), OppositeRefs(order.side), order.side, seqNo);
      seqNo := seqNo + 1;
      order.sequence := seqNo;
      order.remaining := order.quantity;
      ghost var makers, before, taker := OppositeRefs(order.side), Views(OppositeRefs(order.side)), order.View();
      match order.side {
        case BuySide => fills := MatchBuy(order);
        case SellSide => fills := MatchSell(order);
      }
      MatchedIsFilled(order, makers, before, OppositeRefs(order.side), fills, Match(taker, before));
    }

    static lemma MatchedIsFilled(order: LiveOrder, makers: seq<LiveOrder>, before: seq<Order>,
                                 after: seq<LiveOrder>, fills: seq<LiveFill>, m: Matched)
      requires SideMatched(order, makers, before, after, fills, m)
      ensures MakersFilled(makers, before, after, fills, m.fills)
      ensures order.View() == m.taker && Views(after) == m.rest
    {
      hide Views;
      hide Makers;
    }

    static lemma ReadyToAppend(book: Book, taker: Order, own: seq<LiveOrder>, opposite: seq<LiveOrder>,
                               order: LiveOrder)
      requires Ordered(book) && order.side == taker.side
      requires var m := Match(Stamped(book, taker), Opposite(book, taker.side));
               order.View() == m.taker && Views(opposite) == m.rest && Views(own) == Own(book, taker.side)
      ensures Sorted(order.side, Views(own)) && DistinctLive(own + [order])
      ensures Sorted(OtherSide(order.side), Views(opposite)) && DistinctLive(opposite)
    {
      hide Match;
      hide Views;
      hide Sorted;
      MatchedInOrder(book, taker);
      ViewsConcat(own, [order]);
      assert Views([order]) == [order.View()];
      DistinctViews(own + [order]);
      DistinctViews(opposite);
    }

    static lemma ViewsOfInserted(own: seq<LiveOrder>, order: LiveOrder)
      ensures Views(InsertedRefs(own, order)) == Insert(order.side, Views(own), order.View())
    {
      hide InsertAt;
      ViewsInsert(own, order, InsertAt(order.side, Views(own), order.View()));
    }

    static lemma FillTrades(makers: seq<LiveOrder>, before: seq<Order>, after: seq<LiveOrder>,
                            fills: seq<LiveFill>, done: seq<Fill>)
      requires MakersFilled(makers, before, after, fills, done)
      ensures |fills| == |done| && forall i | 0 <= i < |fills| :: fills[i].trade == done[i].trade
    {
    }

    /** A side with a record put in at place k. */
    static ghost function Spliced(os: seq<LiveOrder>, o: LiveOrder, k: nat): seq<LiveOrder> {
      if k <= |os| then os[..k] + [o] + os[k..] else os
    }

    /** Where a submission leaves the references of the taker's own side. */
    static ghost function OwnAfter(os: seq<LiveOrder>, order: LiveOrder, own: seq<Order>, taker: Order)
      : seq<LiveOrder>
    {
      if taker.remaining > 0.0 then Spliced(os, order, InsertAt(taker.side, own, taker)) else os
    }

    /** Phase two of a submission: an order that keeps something goes on its own side. */
    method PlaceRest(order: LiveOrder, ghost book: Book, ghost taker: Order)
      requires Ordered(book) && order.side == taker.side && seqNo == book.seqNo + 1
      requires var m := Match(Stamped(book, taker), Opposite(book, taker.side));
               && order.View() == m.taker
               && Views(OppositeRefs(order.side)) == m.rest
               && Views(OwnRefs(order.side)) == Own(book, taker.side)
      modifies this`bids, this`asks
      ensures Value() == BookModel.Submit(book, taker).book
      ensures OppositeRefs(order.side) == old(OppositeRefs(order.side))
      ensures OwnRefs(order.side) == OwnAfter(old(OwnRefs(order.side)), order, Own(book, taker.side),
                                              BookModel.Submit(book, taker).taker)
    {
      hide Match;
      hide Views;
      hide Ordered;
      hide StableSort;
      hide Insert;
      hide InsertAt;
      SubmitKeepsOrder(book, taker);
      if order.remaining > 0.0 {
        ghost var own, opposite := OwnRefs(order.side), OppositeRefs(order.side);
        ReadyToAppend(book, taker, own, opposite, order);
        AppendAndSort(order);
        ViewsOfInserted(own, order);
        assert Views(own) == Own(book, taker.side) && Views(opposite) == Opposite(Value(), taker.side);
      }
      assert Own(Value(), taker.side) == Own(BookModel.Submit(book, taker).book, taker.side);
      assert Opposite(Value(), taker.side) == Opposite(BookModel.Submit(book, taker).book, taker.side);
    }

    /** Match an incoming order and, if it keeps something, put it in its place. */
    method Submit(order: LiveOrder) returns (fills: seq<LiveFill>, trades: seq<Trade>)
      requires Valid() && order !in bids && order !in asks
      modifies this, order`remaining, order`sequence, bids`remaining, asks`remaining
      ensures Valid()
      ensures var s := old(BookModel.Submit(Value(), order.View()));
              && Value() == s.book
              && order.View() == s.taker
              && trades == Matching.Trades(s.fills)
              && MakersFilled(old(OppositeRefs(order.side)), old(Views(OppositeRefs(order.side))),
                              OppositeRefs(order.side), fills, s.fills)
      ensures Views(old(OwnRefs(order.side))) == old(Views(OwnRefs(order.side)))
      ensures OwnRefs(order.side) == old(OwnAfter(OwnRefs(order.side), order, Own(Value(), order.side),
                                                  BookModel.Submit(Value(), order.View()).taker))
    {
      hide Match;
      hide Views;
      hide MakersFilled;
      hide Ordered;
      hide StableSort;
      hide OwnAfter;
      ghost var book, taker, makers := Value(), order.View(), OppositeRefs(order.side);
      ghost var before := Views(makers);
      SubmitKeepsOrder(book, taker);
      fills := StampAndMatch(order);
      PlaceRest(order, book, taker);
      FillTrades(makers, before, OppositeRefs(order.side), fills, BookModel.Submit(book, taker).fills);
      trades := CopyTrades(fills, BookModel.Submit(book, taker).fills);
    }

    static method CopyTrades(fills: seq<LiveFill>, ghost done: seq<Fill>) returns (trades: seq<Trade>)
      requires |fills| == |done| && forall i | 0 <= i < |fills| :: fills[i].trade == done[i].trade
      ensures trades == Matching.Trades(done)
    {
      trades := [];
      for i := 0 to |fills|
        invariant |trades| == i && forall j | 0 <= j < i :: trades[j] == fills[j].trade
      {
        trades := trades + [fills[i].trade];
      }
    }

    method Restore(order: LiveOrder)
      modifies this
      ensures Value() == BookModel.Restore(old(Value()), order.View())
      ensures forall o :: o in bids <==> o in old(bids) || (o == order && order.side == BuySide)
      ensures forall o :: o in asks <==> o in old(asks) || (o == order && order.side == SellSide)
    {
      hide StableSort;
      hide Views;
      ghost var before := Value();
      if order.sequence > seqNo {
        seqNo := order.sequence;
      }
      match order.side {
        case BuySide =>
          ViewsConcat(bids, [order]);
          bids := bids + [order];
        case SellSide =>
          ViewsConcat(asks, [order]);
          asks := asks + [order];
      }
      assert Views(bids) == before.bids + (if order.side == BuySide then [order.View()] else []);
      assert Views(asks) == before.asks + (if order.side == SellSide then [order.View()] else []);
      SortBooks();
      assert Value().bids == BookModel.Restore(before, order.View()).bids;
      assert Value().asks == BookModel.Restore(before, order.View()).asks;
    }

    method Snapshot() returns (b: seq<Order>, a: seq<Order>)
      ensures b == Views(bids) && a == Views(asks)
    {
      b := CloneOrders(bids);
      a := CloneOrders(asks);
    }

    static method CloneOrders(input: seq<LiveOrder>) returns (out: seq<Order>)
      ensures out == Views(input)
    {
      hide Views;
      out := [];
      for i := 0 to |input|
        invariant out == Views(input)[..i]
      {
        out := out + [input[i].View()];
      }
    }
  }
}
