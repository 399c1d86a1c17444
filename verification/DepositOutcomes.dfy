/** What becomes of each deposit: the schedule alone says which are turned away, deposits that do not
    overlap all succeed, and one on its own is the exchange's deposit. */
module DepositOutcomes {
  import opened Domain
  import opened WalletModel
  import opened Machine
  import opened ConcurrentDeposits
  import opened DepositSchedules

  // ----- who fails

  /** After these events a persist of deposit i succeeds: whoever persisted before was published before
      deposit i read its copy. */
  ghost predicate Lands(before: seq<Event>, i: nat)
    decreases |before|
  {
    forall m | 0 <= m < |before| && before[m].Persist? ::
      Lands(before[..m], before[m].i) ==> PublishedBeforeRead(before, before[m].i, i)
  }

  ghost predicate Landed(run: seq<Event>, i: nat) {
    exists n | 0 <= n < |run| :: run[n] == Persist(i) && Lands(run[..n], i)
  }

  ghost predicate Bounced(run: seq<Event>, i: nat) {
    exists n | 0 <= n < |run| :: run[n] == Persist(i) && !Lands(run[..n], i)
  }

  lemma LandedNext(run: seq<Event>, e: Event, i: nat)
    ensures Landed(run + [e], i) <==> Landed(run, i) || (e == Persist(i) && Lands(run, i))
    ensures Bounced(run + [e], i) <==> Bounced(run, i) || (e == Persist(i) && !Lands(run, i))
  {
    hide Lands;
    var run' := run + [e];
    assert run'[..|run|] == run;
    assert forall n | 0 <= n < |run| :: run'[n] == run[n] && run'[..n] == run[..n];
    assert run'[|run|] == e;
  }

  /** Lands, in terms of who landed. */
  lemma LandsIff(before: seq<Event>, i: nat)
    ensures Lands(before, i) <==> forall j: nat :: Landed(before, j) ==> PublishedBeforeRead(before, j, i)
  {
    hide PublishedBeforeRead;
    if forall j: nat :: Landed(before, j) ==> PublishedBeforeRead(before, j, i) {
      forall m | 0 <= m < |before| && before[m].Persist? && Lands(before[..m], before[m].i)
        ensures PublishedBeforeRead(before, before[m].i, i)
      {
        assert before[m] == Persist(before[m].i);
        assert Landed(before, before[m].i);
      }
    }
  }

  /** What the run says about each thread. */
  ghost predicate Told(credits: seq<Credit>, run: seq<Event>, threads: seq<Progress>) {
    && |credits| == |threads|
    && forall i: nat | i < |threads| ::
         && (threads[i].Failed? <==> (ReadCopy(i) in run && credits[i].amount <= 0.0) || Bounced(run, i))
         && (HasPersisted(threads[i]) <==> Landed(run, i))
  }

  lemma PersistIsTold(id: string, credits: seq<Credit>, p: World, run: seq<Event>, i: nat)
    requires Quiet(id, credits, p) && Possible(Postgres, id, credits, p, run)
    requires Told(credits, run, Ending(Postgres, id, credits, p, run).threads)
    requires forall e | e in run :: e.i < |credits|
    requires i < |Ending(Postgres, id, credits, p, run).threads|
    requires Ending(Postgres, id, credits, p, run).threads[i].Copied?
    ensures var p' := Ending(Postgres, id, credits, p, run);
            PersistAccount(p'.table, p'.threads[i].copy).err.None? <==> Lands(run, i)
  {
    hide Quiet;
    hide Lands;
    hide PublishedBeforeRead;
    hide PersistAccount;
    hide Bounced;
    hide Landed;
    PersistSucceedsIff(id, credits, p, run, i);
    LandsIff(run, i);
    var threads := Ending(Postgres, id, credits, p, run).threads;
    forall j: nat | Landed(run, j)
      ensures j < |threads|
    {
      LandedIsIn(run, j);
    }
  }

  lemma LandedIsIn(run: seq<Event>, j: nat)
    requires Landed(run, j)
    ensures Persist(j) in run
  {
  }

  lemma StepIsTold(kind: StoreKind, id: string, credits: seq<Credit>, q: World, run: seq<Event>, e: Event)
    requires Enabled(q, e) && Told(credits, run, q.threads) && Recorded(run, q.threads)
    requires e.Persist? ==> (PersistWith(kind, q.table, q.threads[e.i].copy).err.None? <==> Lands(run, e.i))
    ensures Told(credits, run + [e], Next(kind, id, credits, q, e).threads)
  {
    hide Lands;
    hide Landed;
    hide Bounced;
    hide PersistWith;
    hide Credited;
    var run', threads' := run + [e], Next(kind, id, credits, q, e).threads;
    forall i: nat | i < |threads'|
      ensures threads'[i].Failed? <==> (ReadCopy(i) in run' && credits[i].amount <= 0.0) || Bounced(run', i)
      ensures HasPersisted(threads'[i]) <==> Landed(run', i)
    {
      LandedNext(run, e, i);
    }
  }

  lemma NothingTold(credits: seq<Credit>, threads: seq<Progress>)
    requires |credits| == |threads| && forall i | 0 <= i < |threads| :: threads[i] == Waiting
    ensures Told(credits, [], threads)
  {
  }

  lemma {:induction false} RunsAreTold(id: string, credits: seq<Credit>, p: World, run: seq<Event>)
    requires Quiet(id, credits, p) && Possible(Postgres, id, credits, p, run)
    ensures Told(credits, run, Ending(Postgres, id, credits, p, run).threads)
    decreases |run|
  {
    hide Told;
    hide Next;
    hide Lands;
    hide Enabled;
    if run == [] {
      NothingTold(credits, p.threads);
    } else {
      var n := |run| - 1;
      LastStep(Postgres, id, credits, p, run);
      RunsAreTold(id, credits, p, run[..n]);
      RunsStayDated(id, credits, p, run[..n]);
      var q := Ending(Postgres, id, credits, p, run[..n]);
      assert Recorded(run[..n], q.threads) && |credits| == |q.threads|;
      if run[n].Persist? {
        EnabledPersist(q, run[n]);
        PersistIsTold(id, credits, p, run[..n], run[n].i);
      }
      StepIsTold(Postgres, id, credits, q, run[..n], run[n]);
      assert run[..n] + [run[n]] == run;
    }
  }

  lemma EnabledPersist(q: World, e: Event)
    requires Enabled(q, e) && e.Persist?
    ensures e.i < |q.threads| && q.threads[e.i].Copied?
  {
  }

  /** A deposit is turned away exactly when it read with nothing to deposit, or tried to persist when somebody
      had persisted who was not published before it read; and it is stored exactly when it tried otherwise.
      The schedule alone decides. */
  lemma DepositFailsIff(id: string, credits: seq<Credit>, p: World, run: seq<Event>, i: nat)
    requires Quiet(id, credits, p) && Possible(Postgres, id, credits, p, run) && i < |credits|
    ensures var p' := Ending(Postgres, id, credits, p, run);
            && |p'.threads| == |credits|
            && (p'.threads[i].Failed? <==>
                || (ReadCopy(i) in run && credits[i].amount <= 0.0)
                || exists n | 0 <= n < |run| :: run[n] == Persist(i) && !Lands(run[..n], i))
            && (HasPersisted(p'.threads[i]) <==>
                exists n | 0 <= n < |run| :: run[n] == Persist(i) && Lands(run[..n], i))
  {
    hide Quiet;
    hide Lands;
    RunsAreTold(id, credits, p, run);
  }

  /** Over the no-op store only a deposit with nothing to deposit is turned away. */
  lemma {:induction false} NoopFailsIff(id: string, credits: seq<Credit>, p: World, run: seq<Event>, i: nat)
    requires Quiet(id, credits, p) && Possible(Noop, id, credits, p, run) && i < |credits|
    ensures var p' := Ending(Noop, id, credits, p, run);
            && |p'.threads| == |credits|
            && (p'.threads[i].Failed? <==> ReadCopy(i) in run && credits[i].amount <= 0.0)
            && (HasPersisted(p'.threads[i]) <==> Persist(i) in run)
            && (p'.threads[i].Waiting? <==> ReadCopy(i) !in run)
    decreases |run|
  {
    hide Next;
    hide Enabled;
    if run != [] {
      var n := |run| - 1;
      LastStep(Noop, id, credits, p, run);
      NoopFailsIff(id, credits, p, run[..n], i);
      assert run == run[..n] + [run[n]];
      NoopStep(id, credits, Ending(Noop, id, credits, p, run[..n]), run[n], i);
      assert forall e :: e in run <==> e in run[..n] || e == run[n];
    }
  }

  lemma NoopStep(id: string, credits: seq<Credit>, q: World, e: Event, i: nat)
    requires Enabled(q, e) && |credits| == |q.threads| && i < |credits|
    ensures var was, now := q.threads[i], Next(Noop, id, credits, q, e).threads[i];
            && |Next(Noop, id, credits, q, e).threads| == |credits|
            && (e == ReadCopy(i) ==> was.Waiting? && !now.Waiting? && !HasPersisted(now)
                                     && (now.Failed? <==> credits[i].amount <= 0.0))
            && (e == Persist(i) ==> was.Copied? && HasPersisted(now))
            && (e != ReadCopy(i) && e != Persist(i) ==>
                  && (now.Waiting? <==> was.Waiting?) && (now.Failed? <==> was.Failed?)
                  && (HasPersisted(now) <==> HasPersisted(was)))
  {
    hide Credited;
  }

  /** No deposit that has not finished is ever kept waiting by the others. */
  lemma EveryoneCanStep(p: World, i: nat)
    requires i < |p.threads| && !p.threads[i].Done? && !p.threads[i].Failed?
    ensures exists e :: Enabled(p, e) && e.i == i
  {
    var e := match p.threads[i]
      case Waiting => ReadCopy(i)
      case Copied(_) => Persist(i)
      case Stored(_) => Publish(i)
      case _ => WriteCache(i);
    assert Enabled(p, e) && e.i == i;
  }

  // ----- one deposit on its own

  /** The steps of one deposit. */
  function Alone(i: nat): seq<Event> {
    [ReadCopy(i), Persist(i), Publish(i), WriteCache(i)]
  }

  ghost predicate Shows(s: State, p: World) {
    s.wallet == p.wallet && s.db.accounts == p.table && s.cache.accounts == p.cached
  }

  lemma OneStep(kind: StoreKind, id: string, credits: seq<Credit>, p: World, e: Event)
    requires Enabled(p, e) && |credits| == |p.threads|
    ensures Possible(kind, id, credits, p, [e]) && Ending(kind, id, credits, p, [e]) == Next(kind, id, credits, p, e)
  {
    hide Next;
    hide Enabled;
    assert [e][1..] == [];
    assert Possible(kind, id, credits, Next(kind, id, credits, p, e), []);
  }

  lemma {:induction false} RunThen(kind: StoreKind, id: string, credits: seq<Credit>, p: World, a: seq<Event>,
                                   b: seq<Event>)
    requires Possible(kind, id, credits, p, a)
    requires Possible(kind, id, credits, Ending(kind, id, credits, p, a), b)
    ensures Possible(kind, id, credits, p, a + b)
    ensures Ending(kind, id, credits, p, a + b) ==
            Ending(kind, id, credits, Ending(kind, id, credits, p, a), b)
    decreases |a|
  {
    hide Next;
    hide Enabled;
    if a == [] {
      assert a + b == b;
    } else {
      assert (a + b)[0] == a[0] && (a + b)[1..] == a[1..] + b;
      RunThen(kind, id, credits, Next(kind, id, credits, p, a[0]), a[1..], b);
    }
  }

  lemma StepThen(kind: StoreKind, id: string, credits: seq<Credit>, p: World, a: seq<Event>, e: Event)
    requires Possible(kind, id, credits, p, a) && |credits| == |Ending(kind, id, credits, p, a).threads|
    requires Enabled(Ending(kind, id, credits, p, a), e)
    ensures Possible(kind, id, credits, p, a + [e])
    ensures Ending(kind, id, credits, p, a + [e]) ==
            Next(kind, id, credits, Ending(kind, id, credits, p, a), e)
  {
    hide Next;
    hide Enabled;
    OneStep(kind, id, credits, Ending(kind, id, credits, p, a), e);
    RunThen(kind, id, credits, p, a, [e]);
  }

  /** The first two steps of a deposit with something to deposit. */
  lemma ReadAndPersist(kind: StoreKind, id: string, credits: seq<Credit>, p: World, i: nat)
    requires |credits| == |p.threads| && i < |credits| && p.threads[i].Waiting? && credits[i].amount > 0.0
    ensures var copy := Credited(GetAccount(p.wallet, id), credits[i].asset, credits[i].amount);
            var r := PersistWith(kind, p.table, copy);
            && Possible(kind, id, credits, p, [ReadCopy(i), Persist(i)])
            && Ending(kind, id, credits, p, [ReadCopy(i), Persist(i)]) ==
               if r.err.Some? then p.(threads := p.threads[i := Failed])
               else p.(table := r.table, threads := p.threads[i := Stored(r.account)])
  {
    hide PersistWith;
    hide Credited;
    var copy := Credited(GetAccount(p.wallet, id), credits[i].asset, credits[i].amount);
    var p1 := p.(threads := p.threads[i := Copied(copy)]);
    OneStep(kind, id, credits, p, ReadCopy(i));
    var r := PersistWith(kind, p.table, copy);
    assert p1.threads[i := Failed] == p.threads[i := Failed];
    assert p1.threads[i := Stored(r.account)] == p.threads[i := Stored(r.account)];
    StepThen(kind, id, credits, p, [ReadCopy(i)], Persist(i));
    assert [ReadCopy(i)] + [Persist(i)] == [ReadCopy(i), Persist(i)];
  }

  /** The last two. */
  lemma PublishAndCache(kind: StoreKind, id: string, credits: seq<Credit>, p: World, i: nat)
    requires |credits| == |p.threads| && i < |credits| && p.threads[i].Stored?
    ensures var copy := p.threads[i].copy;
            && Possible(kind, id, credits, p, [Publish(i), WriteCache(i)])
            && Ending(kind, id, credits, p, [Publish(i), WriteCache(i)]) ==
               World(p.table, p.wallet[id := copy], p.cached[id := copy], p.threads[i := Done])
  {
    hide PersistWith;
    hide Credited;
    OneStep(kind, id, credits, p, Publish(i));
    StepThen(kind, id, credits, p, [Publish(i)], WriteCache(i));
    assert [Publish(i)] + [WriteCache(i)] == [Publish(i), WriteCache(i)];
  }

  lemma AloneFrom(kind: StoreKind, id: string, credits: seq<Credit>, p: World, i: nat)
    requires |credits| == |p.threads| && i < |credits| && p.threads[i].Waiting? && credits[i].amount > 0.0
    requires PersistWith(kind, p.table,
                         Credited(GetAccount(p.wallet, id), credits[i].asset, credits[i].amount)).err.None?
    ensures var r := PersistWith(kind, p.table,
                                 Credited(GetAccount(p.wallet, id), credits[i].asset, credits[i].amount));
            && Possible(kind, id, credits, p, Alone(i))
            && Ending(kind, id, credits, p, Alone(i)) ==
               World(r.table, p.wallet[id := r.account], p.cached[id := r.account], p.threads[i := Done])
  {
    hide PersistWith;
    hide Credited;
    hide Possible;
    hide Ending;
    var first := [ReadCopy(i), Persist(i)];
    ReadAndPersist(kind, id, credits, p, i);
    var q := Ending(kind, id, credits, p, first);
    PublishAndCache(kind, id, credits, q, i);
    RunThen(kind, id, credits, p, first, [Publish(i), WriteCache(i)]);
    assert first + [Publish(i), WriteCache(i)] == Alone(i);
    assert q.threads[i := Done] == p.threads[i := Done];
  }

  /** One deposit without interruption does to store, wallet and cache what the exchange's deposit does, and
      fails exactly when that fails, leaving everything as it was. */
  lemma AloneIsDeposit(id: string, credits: seq<Credit>, p: World, i: nat, s: State)
    requires |credits| == |p.threads| && i < |credits| && p.threads[i].Waiting? && Shows(s, p)
    requires id in p.wallet ==> p.wallet[id].id == id
    ensures var (err, s') := Deposit(s, id, credits[i].asset, credits[i].amount);
            if err.None? then
              && Possible(Postgres, id, credits, p, Alone(i))
              && var p' := Ending(Postgres, id, credits, p, Alone(i));
              Shows(s', p') && p'.threads == p.threads[i := Done]
            else
              var turned := if credits[i].amount <= 0.0 then [ReadCopy(i)] else [ReadCopy(i), Persist(i)];
              && Possible(Postgres, id, credits, p, turned)
              && Ending(Postgres, id, credits, p, turned) == p.(threads := p.threads[i := Failed])
  {
    hide PersistAccount;
    hide Possible;
    hide Ending;
    if credits[i].amount <= 0.0 {
      OneStep(Postgres, id, credits, p, ReadCopy(i));
    } else {
      var copy := Credited(GetAccount(p.wallet, id), credits[i].asset, credits[i].amount);
      var r := PersistAccount(p.table, copy);
      PersistKeepsId(p.table, copy);
      if r.err.Some? {
        ReadAndPersist(Postgres, id, credits, p, i);
      } else {
        AloneFrom(Postgres, id, credits, p, i);
      }
    }
  }

  lemma PersistKeepsId(table: Accounts, account: Account)
    ensures PersistAccount(table, account).account.id == account.id
  {
  }

  /** Over the no-op store it credits wallet and cache, at the version read, and stores nothing. */
  lemma AloneOverNoop(id: string, credits: seq<Credit>, p: World, i: nat)
    requires |credits| == |p.threads| && i < |credits| && p.threads[i].Waiting? && credits[i].amount > 0.0
    ensures var credited := Credited(GetAccount(p.wallet, id), credits[i].asset, credits[i].amount);
            && Possible(Noop, id, credits, p, Alone(i))
            && Ending(Noop, id, credits, p, Alone(i)) ==
               World(p.table, p.wallet[id := credited], p.cached[id := credited], p.threads[i := Done])
  {
    hide Possible;
    hide Ending;
    hide Credited;
    AloneFrom(Noop, id, credits, p, i);
  }

  // ----- one after another

  function InTurn(order: seq<nat>): seq<Event> {
    if order == [] then [] else Alone(order[0]) + InTurn(order[1..])
  }

  function CreditOf(credits: seq<Credit>, order: seq<nat>, x: string): real
    requires forall k | 0 <= k < |order| :: order[k] < |credits|
  {
    if order == [] then 0.0
    else (if credits[order[0]].asset == x then credits[order[0]].amount else 0.0) + CreditOf(credits, order[1..], x)
  }

  /** Wallet and store agree on the account. */
  ghost predicate Settled(id: string, p: World) {
    && p.wallet == p.table
    && (id in p.wallet ==> p.wallet[id].id == id && p.wallet[id].version >= 1)
  }

  lemma AloneSucceeds(id: string, credits: seq<Credit>, p: World, i: nat)
    requires |credits| == |p.threads| && i < |credits| && p.threads[i].Waiting? && credits[i].amount > 0.0
    requires Settled(id, p)
    ensures Possible(Postgres, id, credits, p, Alone(i))
    ensures var p' := Ending(Postgres, id, credits, p, Alone(i));
            && Settled(id, p') && id in p'.wallet && id in p'.cached && p'.cached[id] == p'.wallet[id]
            && p'.threads == p.threads[i := Done]
            && VersionOf(p'.wallet, id) == VersionOf(p.wallet, id) + 1
            && forall x :: Bal(p'.wallet, id, x).available ==
                           Bal(p.wallet, id, x).available
                           + if credits[i].asset == x then credits[i].amount else 0.0
  {
    hide Possible;
    hide Ending;
    hide PersistAccount;
    hide Bal;
    PersistedCredit(id, p.table, credits[i], credits[i].asset);
    AloneFrom(Postgres, id, credits, p, i);
    var p' := Ending(Postgres, id, credits, p, Alone(i));
    SameWithOthers(id, p.table, p'.table, p'.wallet);
    forall x
      ensures Bal(p'.wallet, id, x).available ==
              Bal(p.wallet, id, x).available + if credits[i].asset == x then credits[i].amount else 0.0
    {
      PersistedCredit(id, p.table, credits[i], x);
    }
  }

  lemma SameWithOthers(id: string, before: Accounts, table: Accounts, w: Accounts)
    requires OthersKept(id, before, table) && id in table && w == before[id := table[id]]
    ensures w == table
  {
    forall a | a in table
      ensures a in w && w[a] == table[a]
    {
    }
    forall a | a in w
      ensures a in table
    {
    }
  }

  /** Deposits that take turns all succeed, whatever their order: the account has every amount, moved on one
      version for each, and store, wallet and cache show it. */
  lemma {:induction false} TurnsAllSucceed(id: string, credits: seq<Credit>, p: World, order: seq<nat>)
    requires |credits| == |p.threads| && Settled(id, p)
    requires forall k | 0 <= k < |order| ::
               order[k] < |credits| && credits[order[k]].amount > 0.0 && p.threads[order[k]].Waiting?
    requires forall k, l | 0 <= k < l < |order| :: order[k] != order[l]
    ensures Possible(Postgres, id, credits, p, InTurn(order))
    ensures var p' := Ending(Postgres, id, credits, p, InTurn(order));
            && Settled(id, p') && |p'.threads| == |p.threads|
            && (forall k | 0 <= k < |order| :: p'.threads[order[k]].Done?)
            && (order != [] ==> id in p'.cached && id in p'.wallet && p'.cached[id] == p'.wallet[id])
            && VersionOf(p'.wallet, id) == VersionOf(p.wallet, id) + |order|
            && (forall x :: Bal(p'.wallet, id, x).available ==
                            Bal(p.wallet, id, x).available + CreditOf(credits, order, x))
            && (forall k | 0 <= k < |p.threads| && k !in order :: p'.threads[k] == p.threads[k])
    decreases |order|
  {
    hide Next;
    hide Enabled;
    hide Bal;
    hide Alone;
    hide Settled;
    if order != [] {
      var i, rest := order[0], order[1..];
      AloneSucceeds(id, credits, p, i);
      var q := Ending(Postgres, id, credits, p, Alone(i));
      hide Possible;
      hide Ending;
      forall k | 0 <= k < |rest|
        ensures rest[k] < |credits| && credits[rest[k]].amount > 0.0 && q.threads[rest[k]].Waiting? && rest[k] != i
      {
        assert rest[k] == order[k + 1];
      }
      TurnsAllSucceed(id, credits, q, rest);
      RunThen(Postgres, id, credits, p, Alone(i), InTurn(rest));
      assert i !in rest;
    }
  }
}
