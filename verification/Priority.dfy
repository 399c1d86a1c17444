/** Price-time priority: the order a book keeps its sides in, and the stable sort that
    restores it. */
module Priority {
  import opened Domain

  /** The comparison sortBooks sorts a side by: bids by falling price, asks by rising price,
      equal prices by arrival. */
  predicate Before(side: Side, a: Order, b: Order) {
    if a.price == b.price then a.sequence < b.sequence
    else if side == BuySide then a.price > b.price
    else a.price < b.price
  }

  /** Where a stable insertion puts o: behind everything it does not come before. */
  function InsertAt(side: Side, s: seq<Order>, o: Order): (k: nat)
    ensures k <= |s|
    ensures forall j | k <= j < |s| :: Before(side, o, s[j])
    ensures k > 0 ==> !Before(side, o, s[k - 1])
  {
    if s == [] || !Before(side, o, s[|s| - 1]) then |s| else InsertAt(side, s[..|s| - 1], o)
  }

  function Insert(side: Side, s: seq<Order>, o: Order): seq<Order> {
    s[..InsertAt(side, s, o)] + [o] + s[InsertAt(side, s, o)..]
  }

  function StableSort(side: Side, s: seq<Order>): seq<Order> {
    if s == [] then [] else Insert(side, StableSort(side, s[..|s| - 1]), s[|s| - 1])
  }

  /** Strictly ascending in priority; in particular no two entries tie. */
  ghost predicate Sorted(side: Side, s: seq<Order>) {
    forall i, j | 0 <= i < j < |s| :: Before(side, s[i], s[j])
  }

  ghost predicate DistinctSequences(s: seq<Order>) {
    forall i, j | 0 <= i < j < |s| :: s[i].sequence != s[j].sequence
  }

  // ----- what sorting keeps

  lemma InsertPermutes(side: Side, s: seq<Order>, o: Order)
    ensures multiset(Insert(side, s, o)) == multiset(s) + multiset{o}
    ensures |Insert(side, s, o)| == |s| + 1
  {
    var k := InsertAt(side, s, o);
    assert s == s[..k] + s[k..];
  }

  lemma {:induction false} StableSortPermutes(side: Side, s: seq<Order>)
    ensures multiset(StableSort(side, s)) == multiset(s)
    ensures |StableSort(side, s)| == |s|
  {
    if s != [] {
      var n := |s| - 1;
      StableSortPermutes(side, s[..n]);
      InsertPermutes(side, StableSort(side, s[..n]), s[n]);
      assert s == s[..n] + [s[n]];
    }
  }

  /** The entries of one price and arrival number, in the order they stand in. */
  function Ties(s: seq<Order>, price: real, sequence: int): seq<Order> {
    if s == [] then []
    else if s[0].price == price && s[0].sequence == sequence then [s[0]] + Ties(s[1..], price, sequence)
    else Ties(s[1..], price, sequence)
  }

  lemma {:induction false} TiesConcat(s: seq<Order>, t: seq<Order>, price: real, sequence: int)
    ensures Ties(s + t, price, sequence) == Ties(s, price, sequence) + Ties(t, price, sequence)
  {
    if s == [] {
      assert s + t == t;
    } else {
      assert (s + t)[1..] == s[1..] + t;
      TiesConcat(s[1..], t, price, sequence);
    }
  }

  lemma {:induction false} NoTies(s: seq<Order>, price: real, sequence: int)
    requires forall i | 0 <= i < |s| :: s[i].price != price || s[i].sequence != sequence
    ensures Ties(s, price, sequence) == []
  {
    if s != [] {
      NoTies(s[1..], price, sequence);
    }
  }

  lemma TiesMoveBack(a: seq<Order>, o: Order, b: seq<Order>, price: real, sequence: int)
    requires o.price == price && o.sequence == sequence ==> Ties(b, price, sequence) == []
    ensures Ties(a + [o] + b, price, sequence) == Ties(a + b + [o], price, sequence)
  {
    TiesConcat(a + [o], b, price, sequence);
    TiesConcat(a, [o], price, sequence);
    TiesConcat(a + b, [o], price, sequence);
    TiesConcat(a, b, price, sequence);
  }

  lemma InsertIsStable(side: Side, s: seq<Order>, o: Order, price: real, sequence: int)
    ensures Ties(Insert(side, s, o), price, sequence) == Ties(s + [o], price, sequence)
  {
    var k := InsertAt(side, s, o);
    assert s == s[..k] + s[k..];
    if o.price == price && o.sequence == sequence {
      NoTies(s[k..], price, sequence);
    }
    TiesMoveBack(s[..k], o, s[k..], price, sequence);
  }

  /** Ties keep their relative order. */
  lemma {:induction false} StableSortIsStable(side: Side, s: seq<Order>, price: real, sequence: int)
    ensures Ties(StableSort(side, s), price, sequence) == Ties(s, price, sequence)
  {
    if s != [] {
      var n := |s| - 1;
      StableSortIsStable(side, s[..n], price, sequence);
      InsertIsStable(side, StableSort(side, s[..n]), s[n], price, sequence);
      TiesConcat(StableSort(side, s[..n]), [s[n]], price, sequence);
      TiesConcat(s[..n], [s[n]], price, sequence);
      assert s == s[..n] + [s[n]];
    }
  }

  /** No entry stands behind one it should precede. */
  ghost predicate InOrder(side: Side, s: seq<Order>) {
    forall i, j | 0 <= i < j < |s| :: !Before(side, s[j], s[i])
  }

  lemma InsertInOrder(side: Side, s: seq<Order>, o: Order)
    requires InOrder(side, s)
    ensures InOrder(side, Insert(side, s, o))
  {
    var k, r := InsertAt(side, s, o), Insert(side, s, o);
    forall i, j | 0 <= i < j < |r|
      ensures !Before(side, r[j], r[i])
    {
      if j == k {
        assert r[i] == s[i] && !Before(side, o, s[k - 1]);
      } else if j > k {
        assert r[j] == s[j - 1] && Before(side, o, s[j - 1]);
      }
    }
  }

  lemma {:induction false} StableSortInOrder(side: Side, s: seq<Order>)
    ensures InOrder(side, StableSort(side, s))
  {
    if s != [] {
      StableSortInOrder(side, s[..|s| - 1]);
      InsertInOrder(side, StableSort(side, s[..|s| - 1]), s[|s| - 1]);
    }
  }

  lemma InOrderIsSorted(side: Side, s: seq<Order>)
    requires InOrder(side, s) && DistinctSequences(s)
    ensures Sorted(side, s)
  {
  }

  // ----- a side of a book is determined by its orders

  /** A side in strict order is determined by which orders are on it. */
  lemma {:induction false} SortedByMembers(side: Side, s: seq<Order>, t: seq<Order>)
    requires Sorted(side, s) && Sorted(side, t) && forall o :: o in s <==> o in t
    ensures s == t
    decreases |s|
  {
    SameEmptiness(s, t);
    if s != [] {
      assert s[0] in t && s[0] in s;
      assert t[0] in s by { assert t[0] in t; }
      SameHead(side, s, t);
      SameTail(side, s, t);
      SortedByMembers(side, s[1..], t[1..]);
      assert s == [s[0]] + s[1..] && t == [t[0]] + t[1..];
    }
  }

  lemma SameEmptiness(s: seq<Order>, t: seq<Order>)
    requires forall o :: o in s <==> o in t
    ensures s == [] <==> t == []
  {
    if s != [] { assert s[0] in s; }
    if t != [] { assert t[0] in t; }
  }

  lemma SameHead(side: Side, s: seq<Order>, t: seq<Order>)
    requires Sorted(side, s) && Sorted(side, t) && s != [] && t != [] && s[0] in t && t[0] in s
    ensures s[0] == t[0]
  {
    var i :| 0 <= i < |t| && t[i] == s[0];
    var j :| 0 <= j < |s| && s[j] == t[0];
  }

  lemma SameTail(side: Side, s: seq<Order>, t: seq<Order>)
    requires Sorted(side, s) && Sorted(side, t) && s != [] && t != [] && s[0] == t[0]
    requires forall o :: o in s <==> o in t
    ensures forall o :: o in s[1..] <==> o in t[1..]
    ensures Sorted(side, s[1..]) && Sorted(side, t[1..])
  {
    forall o
      ensures o in s[1..] <==> o in t[1..]
    {
      TailMember(side, s, o);
      TailMember(side, t, o);
    }
  }

  lemma TailMember(side: Side, s: seq<Order>, o: Order)
    requires Sorted(side, s) && s != []
    ensures o in s[1..] <==> o in s && o != s[0]
  {
    forall i | 0 < i < |s|
      ensures s[i] != s[0]
    {
      assert Before(side, s[0], s[i]);
    }
    if o in s && o != s[0] {
      var i :| 0 <= i < |s| && s[i] == o;
      assert s[1..][i - 1] == o;
    }
  }

  lemma DistinctSequencesPermute(s: seq<Order>, t: seq<Order>)
    requires DistinctSequences(s) && multiset(s) == multiset(t)
    ensures DistinctSequences(t)
  {
    forall i, j | 0 <= i < j < |t|
      ensures t[i].sequence != t[j].sequence
    {
      if t[i].sequence == t[j].sequence {
        assert t[i] in multiset(s) && t[j] in multiset(s);
        var a :| 0 <= a < |s| && s[a] == t[i];
        var b :| 0 <= b < |s| && s[b] == t[j];
        TwiceInSequence(t, i, j);
        assert multiset(s)[t[i]] >= 2;
        OnceInSequence(s, a);
        assert false;
      }
    }
  }

  lemma TwiceInSequence(t: seq<Order>, i: nat, j: nat)
    requires i < j < |t|
    ensures t[i] == t[j] ==> multiset(t)[t[i]] >= 2
  {
    assert t == t[..j] + [t[j]] + t[j + 1..];
    assert t[i] in t[..j];
  }

  lemma OnceInSequence(s: seq<Order>, a: nat)
    requires DistinctSequences(s) && a < |s|
    ensures multiset(s)[s[a]] == 1
  {
    assert s == s[..a] + [s[a]] + s[a + 1..];
    assert s[a] !in s[..a] && s[a] !in s[a + 1..];
  }

  lemma StableSortSorts(side: Side, s: seq<Order>)
    requires DistinctSequences(s)
    ensures Sorted(side, StableSort(side, s)) && DistinctSequences(StableSort(side, s))
  {
    StableSortInOrder(side, s);
    StableSortPermutes(side, s);
    DistinctSequencesPermute(s, StableSort(side, s));
    InOrderIsSorted(side, StableSort(side, s));
  }

  lemma SameMembers(s: seq<Order>, t: seq<Order>)
    requires multiset(s) == multiset(t)
    ensures forall o :: o in s <==> o in t
  {
    assert forall o :: o in s <==> o in multiset(s);
    assert forall o :: o in t <==> o in multiset(t);
  }

  /** Restoring the same orders in any sequence of arrival gives the identical side. */
  lemma CanonicalSide(side: Side, s: seq<Order>, t: seq<Order>)
    requires DistinctSequences(s) && multiset(s) == multiset(t)
    ensures StableSort(side, s) == StableSort(side, t)
  {
    DistinctSequencesPermute(s, t);
    StableSortSorts(side, s);
    StableSortSorts(side, t);
    StableSortPermutes(side, s);
    StableSortPermutes(side, t);
    SameMembers(StableSort(side, s), StableSort(side, t));
    SortedByMembers(side, StableSort(side, s), StableSort(side, t));
  }

  lemma {:induction false} SortedIsFixed(side: Side, s: seq<Order>)
    requires Sorted(side, s)
    ensures StableSort(side, s) == s
  {
    if s != [] {
      var n := |s| - 1;
      SortedIsFixed(side, s[..n]);
      assert n > 0 ==> Before(side, s[n - 1], s[n]);
      assert InsertAt(side, s[..n], s[n]) == n;
      assert s == s[..n] + [s[n]];
    }
  }

  /** Appending to a sorted side and sorting it is inserting at the one correct place: the
      others keep their relative order, and the result is the only sorted arrangement. */
  lemma AppendAndSortInserts(side: Side, s: seq<Order>, o: Order)
    requires Sorted(side, s) && DistinctSequences(s + [o])
    ensures StableSort(side, s + [o]) == Insert(side, s, o)
    ensures Sorted(side, Insert(side, s, o)) && DistinctSequences(Insert(side, s, o))
    ensures forall k | 0 <= k <= |s| && Sorted(side, s[..k] + [o] + s[k..]) :: k == InsertAt(side, s, o)
  {
    SortedIsFixed(side, s);
    assert (s + [o])[..|s|] == s;
    StableSortSorts(side, s + [o]);
    var at := InsertAt(side, s, o);
    forall k | 0 <= k <= |s| && Sorted(side, s[..k] + [o] + s[k..])
      ensures k == at
    {
      var r := s[..k] + [o] + s[k..];
      assert k > 0 ==> Before(side, r[k - 1], r[k]);
      assert k < |s| ==> Before(side, r[k], r[k + 1]);
    }
  }

  /** Only price and arrival number decide where an order goes. */
  lemma {:induction false} InsertAtByKey(side: Side, s: seq<Order>, o: Order, o': Order)
    requires o.price == o'.price && o.sequence == o'.sequence
    ensures InsertAt(side, s, o) == InsertAt(side, s, o')
  {
    if s != [] && Before(side, o, s[|s| - 1]) {
      InsertAtByKey(side, s[..|s| - 1], o, o');
    }
  }
}
