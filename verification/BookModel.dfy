/** The order book as a value, and what a submission does to it. */
module BookModel {
  import opened Domain
  import opened Matching
  import opened Priority

  datatype Book = Book(bids: seq<Order>, asks: seq<Order>, seqNo: int)

  datatype Submitted = Submitted(book: Book, taker: Order, fills: seq<Fill>)

  const EMPTY_BOOK := Book([], [], 0)

  function Own(b: Book, side: Side): seq<Order> {
    if side == BuySide then b.bids else b.asks
  }

  function Opposite(b: Book, side: Side): seq<Order> {
    if side == BuySide then b.asks else b.bids
  }

  function OtherSide(side: Side): Side {
    if side == BuySide then SellSide else BuySide
  }

  function WithSides(side: Side, own: seq<Order>, opposite: seq<Order>, seqNo: int): Book {
    if side == BuySide then Book(own, opposite, seqNo) else Book(opposite, own, seqNo)
  }

  /** The order as Submit stamps it before matching. */
  function Stamped(b: Book, o: Order): Order {
    o.(sequence := b.seqNo + 1, remaining := o.quantity)
  }

  function Submit(b: Book, o: Order): Submitted {
    var m := Match(Stamped(b, o), Opposite(b, o.side));
    if m.taker.remaining > 0.0 then
      Submitted(WithSides(o.side, StableSort(o.side, Own(b, o.side) + [m.taker]),
                          StableSort(OtherSide(o.side), m.rest), b.seqNo + 1), m.taker, m.fills)
    else
      Submitted(WithSides(o.side, Own(b, o.side), m.rest, b.seqNo + 1), m.taker, m.fills)
  }

  function Restore(b: Book, o: Order): Book {
    var bids := if o.side == BuySide then b.bids + [o] else b.bids;
    var asks := if o.side == SellSide then b.asks + [o] else b.asks;
    Book(StableSort(BuySide, bids), StableSort(SellSide, asks),
         if o.sequence > b.seqNo then o.sequence else b.seqNo)
  }

  /** Both sides are in strict priority order and no arrival number occurs twice or exceeds the counter. */
  ghost predicate Ordered(b: Book) {
    OrderedSides(b.bids, b.asks, BuySide, b.seqNo)
  }

  ghost predicate OrderedSides(own: seq<Order>, opposite: seq<Order>, side: Side, seqNo: int) {
    && Sorted(side, own)
    && Sorted(OtherSide(side), opposite)
    && (forall i, j | 0 <= i < |own| && 0 <= j < |opposite| :: own[i].sequence != opposite[j].sequence)
    && DistinctSequences(own)
    && DistinctSequences(opposite)
    && (forall i | 0 <= i < |own| :: own[i].sequence <= seqNo)
    && (forall i | 0 <= i < |opposite| :: opposite[i].sequence <= seqNo)
  }

  lemma OrderedBySides(b: Book, side: Side)
    ensures Ordered(b) <==> OrderedSides(Own(b, side), Opposite(b, side), side, b.seqNo)
  {
    hide Sorted;
    hide DistinctSequences;
  }

  // ----- submitting keeps both sides in order

  ghost predicate SameKeys(s: seq<Order>, t: seq<Order>) {
    && |s| == |t|
    && forall i | 0 <= i < |s| :: s[i].price == t[i].price && s[i].sequence == t[i].sequence
  }

  lemma SameKeysSameOrder(side: Side, s: seq<Order>, t: seq<Order>)
    requires SameKeys(s, t)
    ensures Sorted(side, s) ==> Sorted(side, t)
    ensures DistinctSequences(s) ==> DistinctSequences(t)
  {
  }

  /** Matching removes a prefix of the makers and changes no maker's place. */
  lemma {:induction false} MatchKeepsKeys(taker: Order, makers: seq<Order>) returns (k: nat)
    ensures k <= |makers| && SameKeys(Match(taker, makers).rest, makers[k..])
    ensures var t := Match(taker, makers).taker; t == taker.(remaining := t.remaining)
    decreases |makers|
  {
    k := 0;
    if makers != [] && taker.remaining > 0.0 && Crosses(taker, makers[0]) {
      var qty := Min(taker.remaining, makers[0].remaining);
      if Reduce(makers[0], qty).remaining == 0.0 {
        var k' := MatchKeepsKeys(Reduce(taker, qty), makers[1..]);
        k := k' + 1;
        assert makers[1..][k'..] == makers[k..];
      }
    }
  }

  /** After matching, before the taker is placed. */
  lemma MatchedInOrder(b: Book, o: Order)
    requires Ordered(b)
    ensures var m := Match(Stamped(b, o), Opposite(b, o.side));
            && OrderedSides(Own(b, o.side), m.rest, o.side, b.seqNo + 1)
            && m.taker.sequence == b.seqNo + 1 && m.taker.side == o.side
            && DistinctSequences(Own(b, o.side) + [m.taker])
            && forall i | 0 <= i < |m.rest| :: m.rest[i].sequence <= b.seqNo
  {
    hide Match;
    hide Sorted;
    hide Ordered;
    var side, own, opposite := o.side, Own(b, o.side), Opposite(b, o.side);
    OrderedBySides(b, side);
    var m := Match(Stamped(b, o), opposite);
    var k := MatchKeepsKeys(Stamped(b, o), opposite);
    SuffixInOrder(own, opposite, side, b.seqNo, k);
    RestInOrder(own, opposite[k..], m.rest, side, b.seqNo);
    DistinctWithNew(own, m.taker);
  }

  /** Submitting an order leaves the book in strict price-time order, whatever its amounts;
      sorting then amounts to one insertion. */
  lemma SubmitKeepsOrder(b: Book, o: Order)
    requires Ordered(b)
    ensures Ordered(Submit(b, o).book)
    ensures Submit(b, o).taker.remaining > 0.0 ==>
              Own(Submit(b, o).book, o.side) == Insert(o.side, Own(b, o.side), Submit(b, o).taker)
    ensures Opposite(Submit(b, o).book, o.side) == Match(Stamped(b, o), Opposite(b, o.side)).rest
  {
    hide Match;
    hide StableSort;
    hide Insert;
    hide Ordered;
    hide Sorted;
    var side, own := o.side, Own(b, o.side);
    var m := Match(Stamped(b, o), Opposite(b, side));
    MatchedInOrder(b, o);
    if m.taker.remaining > 0.0 {
      SortedIsFixed(OtherSide(side), m.rest);
      AppendAndSortInserts(side, own, m.taker);
      NewInOrder(own, m.rest, side, b.seqNo, m.taker);
    }
    OrderedBySides(Submit(b, o).book, side);
  }

  lemma SuffixInOrder(own: seq<Order>, opposite: seq<Order>, side: Side, seqNo: int, k: nat)
    requires OrderedSides(own, opposite, side, seqNo) && k <= |opposite|
    ensures OrderedSides(own, opposite[k..], side, seqNo)
  {
  }

  lemma RestInOrder(own: seq<Order>, opposite: seq<Order>, rest: seq<Order>, side: Side, seqNo: int)
    requires OrderedSides(own, opposite, side, seqNo) && SameKeys(rest, opposite)
    ensures OrderedSides(own, rest, side, seqNo + 1)
  {
    SameKeysSameOrder(OtherSide(side), opposite, rest);
  }

  lemma DistinctWithNew(own: seq<Order>, o: Order)
    requires DistinctSequences(own) && forall i | 0 <= i < |own| :: own[i].sequence < o.sequence
    ensures DistinctSequences(own + [o])
  {
  }

  lemma NewInOrder(own: seq<Order>, opposite: seq<Order>, side: Side, seqNo: int, o: Order)
    requires OrderedSides(own, opposite, side, seqNo + 1) && o.sequence == seqNo + 1
    requires forall i | 0 <= i < |opposite| :: opposite[i].sequence <= seqNo
    requires Sorted(side, Insert(side, own, o)) && DistinctSequences(Insert(side, own, o))
    ensures OrderedSides(Insert(side, own, o), opposite, side, seqNo + 1)
  {
    hide Sorted;
    hide InsertAt;
    var r, k := Insert(side, own, o), InsertAt(side, own, o);
    forall i | 0 <= i < |r|
      ensures r[i].sequence <= seqNo + 1
      ensures forall j | 0 <= j < |opposite| :: r[i].sequence != opposite[j].sequence
    {
      if i != k {
        assert r[i] == own[if i < k then i else i - 1];
      }
    }
  }
}
