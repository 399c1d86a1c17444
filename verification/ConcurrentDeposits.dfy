/** Concurrent deposits to one account. Each reads a copy, credits it, persists it if the version
    has not moved, publishes it to the wallet, and caches it; any interleaving of these steps may
    occur. */
module ConcurrentDeposits {
  import opened Domain
  import opened WalletModel
  import opened Machine

  datatype Credit = Credit(asset: string, amount: real)

  /** How far one deposit has come. */
  datatype Progress =
    | Waiting
    | Copied(copy: Account)
    | Stored(copy: Account)
    | Published(copy: Account)
    | Done
    | Failed

  datatype World = World(table: Accounts, wallet: Accounts, cached: Accounts, threads: seq<Progress>)

  datatype StoreKind = Postgres | Noop

  datatype Event = ReadCopy(i: nat) | Persist(i: nat) | Publish(i: nat) | WriteCache(i: nat)

  /** The no-op store accepts everything and never moves a version. */
  function PersistWith(kind: StoreKind, table: Accounts, account: Account): Persisted {
    if kind == Postgres then PersistAccount(table, account) else Persisted(None, table, account)
  }

  predicate Enabled(p: World, e: Event) {
    && e.i < |p.threads|
    && match e
       case ReadCopy(i) => p.threads[i].Waiting?
       case Persist(i) => p.threads[i].Copied?
       case Publish(i) => p.threads[i].Stored?
       case WriteCache(i) => p.threads[i].Published?
  }

  function Next(kind: StoreKind, id: string, credits: seq<Credit>, p: World, e: Event): World
    requires Enabled(p, e) && |credits| == |p.threads|
  {
    match e
    case ReadCopy(i) =>
      if credits[i].amount <= 0.0 then p.(threads := p.threads[i := Failed])
      else
        var copy := Credited(GetAccount(p.wallet, id), credits[i].asset, credits[i].amount);
        p.(threads := p.threads[i := Copied(copy)])
    case Persist(i) =>
      var r := PersistWith(kind, p.table, p.threads[i].copy);
      if r.err.Some? then p.(threads := p.threads[i := Failed])
      else p.(table := r.table, threads := p.threads[i := Stored(r.account)])
    case Publish(i) =>
      p.(wallet := p.wallet[id := p.threads[i].copy], threads := p.threads[i := Published(p.threads[i].copy)])
    case WriteCache(i) =>
      p.(cached := p.cached[id := p.threads[i].copy], threads := p.threads[i := Done])
  }

  ghost predicate Possible(kind: StoreKind, id: string, credits: seq<Credit>, p: World, run: seq<Event>)
    decreases |run|
  {
    run == [] ||
    (Enabled(p, run[0]) && |credits| == |p.threads|
     && Possible(kind, id, credits, Next(kind, id, credits, p, run[0]), run[1..]))
  }

  ghost function Ending(kind: StoreKind, id: string, credits: seq<Credit>, p: World, run: seq<Event>): World
    requires Possible(kind, id, credits, p, run)
    decreases |run|
  {
    if run == [] then p else Ending(kind, id, credits, Next(kind, id, credits, p, run[0]), run[1..])
  }

  /** Deposits are about to start: nothing is under way, and wallet, store and cache agree. */
  ghost predicate Quiet(id: string, credits: seq<Credit>, p: World) {
    && |credits| == |p.threads|
    && (forall i | 0 <= i < |p.threads| :: p.threads[i] == Waiting)
    && p.wallet == p.table
    && (id in p.wallet ==> p.wallet[id].id == id && p.wallet[id].version >= 1)
    && (id in p.cached ==> p.cached[id] == GetAccount(p.wallet, id))
  }

  // ----- what has been persisted

  predicate HasPersisted(t: Progress) {
    t.Stored? || t.Published? || t.Done?
  }

  function CountPersisted(threads: seq<Progress>): nat {
    if threads == [] then 0 else (if HasPersisted(threads[0]) then 1 else 0) + CountPersisted(threads[1..])
  }

  /** What the persisted deposits credit to an asset. */
  function SumPersisted(credits: seq<Credit>, threads: seq<Progress>, x: string): real
    requires |credits| == |threads|
  {
    if threads == [] then 0.0
    else (if HasPersisted(threads[0]) && credits[0].asset == x then credits[0].amount else 0.0)
         + SumPersisted(credits[1..], threads[1..], x)
  }

  lemma {:induction false} OneThreadMoves(credits: seq<Credit>, threads: seq<Progress>, i: nat, t: Progress, x: string)
    requires |credits| == |threads| && i < |threads|
    ensures var was, now := HasPersisted(threads[i]), HasPersisted(t);
            var threads' := threads[i := t];
            && CountPersisted(threads') == CountPersisted(threads) + (if now then 1 else 0) - (if was then 1 else 0)
            && var change := (if now then credits[i].amount else 0.0) - (if was then credits[i].amount else 0.0);
            SumPersisted(credits, threads', x) ==
            SumPersisted(credits, threads, x) + if credits[i].asset == x then change else 0.0
  {
    if i == 0 {
      assert threads[i := t][1..] == threads[1..];
    } else {
      OneThreadMoves(credits[1..], threads[1..], i - 1, t, x);
      assert threads[i := t][1..] == threads[1..][i - 1 := t];
    }
  }

  lemma {:induction false} NonePersisted(credits: seq<Credit>, threads: seq<Progress>, x: string)
    requires |credits| == |threads| && forall i | 0 <= i < |threads| :: threads[i] == Waiting
    ensures CountPersisted(threads) == 0 && SumPersisted(credits, threads, x) == 0.0
  {
    if threads != [] {
      NonePersisted(credits[1..], threads[1..], x);
    }
  }

  function VersionOf(w: Accounts, id: string): int {
    GetAccount(w, id).version
  }

  // ----- the invariant

  /** A copy is as old as its version says: taken at the wallet's version, it credits what the
      wallet holds now. */
  ghost predicate CopyOk(id: string, c: Credit, w: Accounts, t: Progress) {
    match t
    case Copied(copy) =>
      c.amount > 0.0 && copy.id == id && copy.version <= VersionOf(w, id)
      && (copy.version == VersionOf(w, id) ==> copy == Credited(GetAccount(w, id), c.asset, c.amount))
    case Stored(copy) =>
      c.amount > 0.0 && copy == Credited(GetAccount(w, id), c.asset, c.amount).(version := VersionOf(w, id) + 1)
    case Published(copy) =>
      copy.id == id && copy.version <= VersionOf(w, id)
      && (copy.version == VersionOf(w, id) ==> id in w && copy == w[id])
    case _ => true
  }

  /** At most one deposit is persisted but not published; the store holds that one, and otherwise
      what the wallet holds. */
  ghost predicate StoreFollows(id: string, p: World) {
    && (forall i, j | 0 <= i < j < |p.threads| :: !(p.threads[i].Stored? && p.threads[j].Stored?))
    && (forall i | 0 <= i < |p.threads| && p.threads[i].Stored? :: id in p.table && p.table[id] == p.threads[i].copy)
    && ((forall i | 0 <= i < |p.threads| :: !p.threads[i].Stored?) ==>
          GetAccount(p.table, id) == GetAccount(p.wallet, id) && (id in p.table <==> id in p.wallet))
  }

  /** A cached account is one the wallet held, and is the current one when its version is. */
  ghost predicate CacheFollows(id: string, cached: Accounts, w: Accounts) {
    id in cached ==> cached[id].version <= VersionOf(w, id)
                     && (cached[id].version == VersionOf(w, id) ==> cached[id] == GetAccount(w, id))
  }

  /** The store's account is the one it started from plus the persisted deposits. */
  ghost predicate Counted(id: string, credits: seq<Credit>, start: Accounts, table: Accounts, threads: seq<Progress>)
    requires |credits| == |threads|
  {
    && VersionOf(table, id) == VersionOf(start, id) + CountPersisted(threads)
    && forall x :: Bal(table, id, x) == Balance(Bal(start, id, x).available
                                                + SumPersisted(credits, threads, x), Bal(start, id, x).locked)
  }

  ghost predicate OthersKept(id: string, start: Accounts, w: Accounts) {
    forall a | a != id :: (a in w <==> a in start) && (a in w ==> w[a] == start[a])
  }

  ghost predicate Consistent(id: string, credits: seq<Credit>, start: World, p: World) {
    && |credits| == |p.threads|
    && (id in p.wallet ==> p.wallet[id].id == id && p.wallet[id].version >= 1)
    && (forall i | 0 <= i < |p.threads| :: CopyOk(id, credits[i], p.wallet, p.threads[i]))
    && StoreFollows(id, p)
    && CacheFollows(id, p.cached, p.wallet)
    && Counted(id, credits, start.table, p.table, p.threads)
    && OthersKept(id, start.table, p.table) && OthersKept(id, start.wallet, p.wallet)
  }

  lemma QuietIsConsistent(id: string, credits: seq<Credit>, p: World)
    requires Quiet(id, credits, p)
    ensures Consistent(id, credits, p, p)
  {
    hide Bal;
    NonePersisted(credits, p.threads, "");
    forall x
      ensures Bal(p.table, id, x) == Balance(Bal(p.table, id, x).available
                                             + SumPersisted(credits, p.threads, x), Bal(p.table, id, x).locked)
    {
      NonePersisted(credits, p.threads, x);
    }
  }

  /** A move that persists nothing leaves the count as it is. */
  lemma CountStays(id: string, credits: seq<Credit>, start: Accounts, table: Accounts, threads: seq<Progress>,
                   i: nat, t: Progress)
    requires |credits| == |threads| && i < |threads| && Counted(id, credits, start, table, threads)
    requires HasPersisted(threads[i]) == HasPersisted(t)
    ensures Counted(id, credits, start, table, threads[i := t])
  {
    hide Bal;
    OneThreadMoves(credits, threads, i, t, "");
    forall x
      ensures SumPersisted(credits, threads[i := t], x) == SumPersisted(credits, threads, x)
    {
      OneThreadMoves(credits, threads, i, t, x);
    }
  }

  lemma ReadKeeps(id: string, credits: seq<Credit>, start: World, p: World, i: nat)
    requires Consistent(id, credits, start, p) && i < |p.threads| && p.threads[i].Waiting?
    ensures Consistent(id, credits, start, Next(Postgres, id, credits, p, ReadCopy(i)))
  {
    hide Counted;
    hide CacheFollows;
    hide OthersKept;
    var p' := Next(Postgres, id, credits, p, ReadCopy(i));
    CountStays(id, credits, start.table, p.table, p.threads, i, p'.threads[i]);
    assert forall k | 0 <= k < |p.threads| :: p'.threads[k].Stored? == p.threads[k].Stored?;
  }

  /** A persist succeeds exactly when the copy carries the stored version, and then it credits what the
      store holds. */
  lemma PersistComparesVersions(id: string, credits: seq<Credit>, start: World, p: World, i: nat)
    requires Consistent(id, credits, start, p) && i < |p.threads| && p.threads[i].Copied?
    ensures PersistAccount(p.table, p.threads[i].copy).err.None? <==>
            p.threads[i].copy.version == VersionOf(p.table, id)
    ensures PersistAccount(p.table, p.threads[i].copy).err.None? ==>
              && (forall k | 0 <= k < |p.threads| :: !p.threads[k].Stored?)
              && p.threads[i].copy == Credited(GetAccount(p.table, id), credits[i].asset, credits[i].amount)
  {
    hide Counted;
    hide CacheFollows;
    hide OthersKept;
    hide Credited;
    assert CopyOk(id, credits[i], p.wallet, p.threads[i]);
    forall k | 0 <= k < |p.threads| && p.threads[k].Stored?
      ensures VersionOf(p.table, id) == VersionOf(p.wallet, id) + 1 && id in p.table
    {
      assert CopyOk(id, credits[k], p.wallet, p.threads[k]);
    }
  }

  /** What a successful persist puts in the store. */
  lemma PersistedCredit(id: string, table: Accounts, c: Credit, x: string)
    requires id in table ==> table[id].id == id && table[id].version >= 1
    ensures var copy := Credited(GetAccount(table, id), c.asset, c.amount);
            var r := PersistAccount(table, copy);
            && r.err.None? && id in r.table && r.table[id] == r.account == copy.(version := VersionOf(table, id) + 1)
            && OthersKept(id, table, r.table)
            && var credit := if c.asset == x then c.amount else 0.0;
            Bal(r.table, id, x) == Balance(Bal(table, id, x).available + credit, Bal(table, id, x).locked)
  {
    var copy := Credited(GetAccount(table, id), c.asset, c.amount);
    if id in table {
      assert table[id].balances + copy.balances == copy.balances;
    }
  }

  lemma PersistCounts(id: string, credits: seq<Credit>, start: Accounts, table: Accounts, threads: seq<Progress>,
                      i: nat)
    requires |credits| == |threads| && i < |threads| && Counted(id, credits, start, table, threads)
    requires id in table ==> table[id].id == id && table[id].version >= 1
    requires threads[i] == Copied(Credited(GetAccount(table, id), credits[i].asset, credits[i].amount))
    ensures var r := PersistAccount(table, threads[i].copy);
            r.err.None? && Counted(id, credits, start, r.table, threads[i := Stored(r.account)])
  {
    hide Bal;
    hide PersistAccount;
    hide Credited;
    hide OthersKept;
    var r := PersistAccount(table, threads[i].copy);
    PersistedCredit(id, table, credits[i], "");
    OneThreadMoves(credits, threads, i, Stored(r.account), "");
    forall x
      ensures var credit := SumPersisted(credits, threads[i := Stored(r.account)], x);
              Bal(r.table, id, x) == Balance(Bal(start, id, x).available + credit, Bal(start, id, x).locked)
    {
      PersistedCredit(id, table, credits[i], x);
      OneThreadMoves(credits, threads, i, Stored(r.account), x);
    }
  }

  lemma PersistKeeps(id: string, credits: seq<Credit>, start: World, p: World, i: nat)
    requires Consistent(id, credits, start, p) && i < |p.threads| && p.threads[i].Copied?
    ensures Consistent(id, credits, start, Next(Postgres, id, credits, p, Persist(i)))
  {
    hide Counted;
    hide CacheFollows;
    hide PersistAccount;
    hide Credited;
    var p' := Next(Postgres, id, credits, p, Persist(i));
    PersistComparesVersions(id, credits, start, p, i);
    assert CopyOk(id, credits[i], p.wallet, p.threads[i]);
    if PersistAccount(p.table, p.threads[i].copy).err.Some? {
      CountStays(id, credits, start.table, p.table, p.threads, i, Failed);
      assert forall k | 0 <= k < |p.threads| :: p'.threads[k].Stored? == p.threads[k].Stored?;
    } else {
      PersistCounts(id, credits, start.table, p.table, p.threads, i);
      PersistedCredit(id, p.table, credits[i], "");
      assert forall k | 0 <= k < |p.threads| :: p'.threads[k].Stored? == (k == i);
    }
  }

  lemma PublishKeeps(id: string, credits: seq<Credit>, start: World, p: World, i: nat)
    requires Consistent(id, credits, start, p) && i < |p.threads| && p.threads[i].Stored?
    ensures Consistent(id, credits, start, Next(Postgres, id, credits, p, Publish(i)))
  {
    hide Counted;
    hide CopyOk;
    hide CacheFollows;
    hide OthersKept;
    hide Credited;
    var copy, p' := p.threads[i].copy, Next(Postgres, id, credits, p, Publish(i));
    CountStays(id, credits, start.table, p.table, p.threads, i, p'.threads[i]);
    StoredIsNext(id, credits[i], p.wallet, p.threads[i]);
    OthersStillKept(id, start.wallet, p.wallet, copy);
    CacheStaysBehind(id, p.cached, p.wallet, copy);
    forall k | 0 <= k < |p.threads|
      ensures !p'.threads[k].Stored? && CopyOk(id, credits[k], p'.wallet, p'.threads[k])
    {
      if k == i {
        PublishedOk(id, credits[i], p.wallet, copy);
      } else {
        assert !p.threads[k].Stored?;
        OlderStaysOk(id, credits[k], p.wallet, p.threads[k], copy);
      }
    }
  }

  lemma StoredIsNext(id: string, c: Credit, w: Accounts, t: Progress)
    requires CopyOk(id, c, w, t) && t.Stored? && (id in w ==> w[id].id == id && w[id].version >= 1)
    ensures t.copy.id == id && t.copy.version == VersionOf(w, id) + 1 >= 1
  {
  }

  lemma PublishedOk(id: string, c: Credit, w: Accounts, copy: Account)
    requires copy.id == id
    ensures CopyOk(id, c, w[id := copy], Published(copy))
  {
  }

  /** Copies taken before a publication are out of date after it. */
  lemma OlderStaysOk(id: string, c: Credit, w: Accounts, t: Progress, copy: Account)
    requires CopyOk(id, c, w, t) && !t.Stored? && copy.version == VersionOf(w, id) + 1
    ensures CopyOk(id, c, w[id := copy], t)
  {
  }

  lemma CacheStaysBehind(id: string, cached: Accounts, w: Accounts, copy: Account)
    requires CacheFollows(id, cached, w) && copy.version == VersionOf(w, id) + 1
    ensures CacheFollows(id, cached, w[id := copy])
  {
  }

  lemma OthersStillKept(id: string, start: Accounts, w: Accounts, copy: Account)
    requires OthersKept(id, start, w)
    ensures OthersKept(id, start, w[id := copy])
  {
  }

  lemma WriteCacheKeeps(id: string, credits: seq<Credit>, start: World, p: World, i: nat)
    requires Consistent(id, credits, start, p) && i < |p.threads| && p.threads[i].Published?
    ensures Consistent(id, credits, start, Next(Postgres, id, credits, p, WriteCache(i)))
  {
    hide Counted;
    hide OthersKept;
    var p' := Next(Postgres, id, credits, p, WriteCache(i));
    CountStays(id, credits, start.table, p.table, p.threads, i, Done);
    assert CopyOk(id, credits[i], p.wallet, p.threads[i]);
    assert forall k | 0 <= k < |p.threads| :: p'.threads[k].Stored? == p.threads[k].Stored?;
  }

  lemma {:induction false} RunsStayConsistent(id: string, credits: seq<Credit>, start: World, p: World, run: seq<Event>)
    requires Consistent(id, credits, start, p) && Possible(Postgres, id, credits, p, run)
    ensures Consistent(id, credits, start, Ending(Postgres, id, credits, p, run))
    decreases |run|
  {
    hide Consistent;
    hide Next;
    if run != [] {
      match run[0] {
        case ReadCopy(i) => ReadKeeps(id, credits, start, p, i);
        case Persist(i) => PersistKeeps(id, credits, start, p, i);
        case Publish(i) => PublishKeeps(id, credits, start, p, i);
        case WriteCache(i) => WriteCacheKeeps(id, credits, start, p, i);
      }
      RunsStayConsistent(id, credits, start, Next(Postgres, id, credits, p, run[0]), run[1..]);
    }
  }

  // ----- what every interleaving guarantees

  /** Under every interleaving the stored balance is the initial one plus the amounts of exactly
      the deposits that persisted, and the version has moved on by one for each of them. */
  lemma StoreCountsEveryDeposit(id: string, credits: seq<Credit>, p: World, run: seq<Event>, x: string)
    requires Quiet(id, credits, p) && Possible(Postgres, id, credits, p, run)
    ensures var p' := Ending(Postgres, id, credits, p, run);
            && |credits| == |p'.threads|
            && VersionOf(p'.table, id) == VersionOf(p.table, id) + CountPersisted(p'.threads)
            && Bal(p'.table, id, x).available == Bal(p.table, id, x).available + SumPersisted(credits, p'.threads, x)
            && Bal(p'.table, id, x).locked == Bal(p.table, id, x).locked
            && OthersKept(id, p.table, p'.table)
  {
    hide Quiet;
    QuietIsConsistent(id, credits, p);
    RunsStayConsistent(id, credits, p, p, run);
  }

  /** The wallet trails the store by at most one deposit: the one persisted and not yet published. */
  lemma WalletTrailsByOne(id: string, credits: seq<Credit>, p: World, run: seq<Event>, i: nat)
    requires Quiet(id, credits, p) && Possible(Postgres, id, credits, p, run)
    requires i < |Ending(Postgres, id, credits, p, run).threads|
             && Ending(Postgres, id, credits, p, run).threads[i].Stored?
    ensures |credits| == |Ending(Postgres, id, credits, p, run).threads|
    ensures var p' := Ending(Postgres, id, credits, p, run);
            && (forall k | 0 <= k < |p'.threads| && k != i :: !p'.threads[k].Stored?)
            && GetAccount(p'.table, id) == Credited(GetAccount(p'.wallet, id), credits[i].asset,
                                                    credits[i].amount).(version := VersionOf(p'.wallet, id) + 1)
  {
    hide Quiet;
    hide Counted;
    QuietIsConsistent(id, credits, p);
    RunsStayConsistent(id, credits, p, p, run);
    var p' := Ending(Postgres, id, credits, p, run);
    assert CopyOk(id, credits[i], p'.wallet, p'.threads[i]);
  }

  /** Once every persisted deposit is published, the wallet is the store again. */
  lemma WalletCatchesUp(id: string, credits: seq<Credit>, p: World, run: seq<Event>)
    requires Quiet(id, credits, p) && Possible(Postgres, id, credits, p, run)
    requires forall i | 0 <= i < |Ending(Postgres, id, credits, p, run).threads| ::
               !Ending(Postgres, id, credits, p, run).threads[i].Stored?
    ensures Ending(Postgres, id, credits, p, run).wallet == Ending(Postgres, id, credits, p, run).table
  {
    hide Counted;
    hide CacheFollows;
    hide CopyOk;
    QuietIsConsistent(id, credits, p);
    RunsStayConsistent(id, credits, p, p, run);
    var p' := Ending(Postgres, id, credits, p, run);
    assert StoreFollows(id, p');
    forall a
      ensures a in p'.wallet <==> a in p'.table
      ensures a in p'.wallet ==> p'.wallet[a] == p'.table[a]
    {
      assert GetAccount(p'.table, id) == GetAccount(p'.wallet, id);
    }
  }

  /** A reader can tell: the cached account is the wallet's exactly when it carries the wallet's version. */
  lemma CacheShowsItsVersion(id: string, credits: seq<Credit>, p: World, run: seq<Event>)
    requires Quiet(id, credits, p) && Possible(Postgres, id, credits, p, run)
    requires id in Ending(Postgres, id, credits, p, run).cached
    ensures var p' := Ending(Postgres, id, credits, p, run);
            p'.cached[id] == GetAccount(p'.wallet, id) <==> p'.cached[id].version == VersionOf(p'.wallet, id)
  {
    hide Counted;
    hide StoreFollows;
    hide CopyOk;
    hide Quiet;
    QuietIsConsistent(id, credits, p);
    RunsStayConsistent(id, credits, p, p, run);
  }

  // ----- two runs that show the limits

  const TWO_CREDITS: seq<Credit> := [Credit("USDT", 5.0), Credit("USDT", 7.0)]
  const NOBODY: World := World(map[], map[], map[], [Waiting, Waiting])

  function Funded(version: int, available: real): Account {
    Account("alice", version, map["USDT" := Balance(available, 0.0)])
  }

  lemma FundsAdd(version: int, a: real, b: real)
    ensures Credited(Funded(version, a), "USDT", b) == Funded(version, a + b)
    ensures Credited(GetAccount(map[], "alice"), "USDT", b) == Funded(0, b)
    ensures PersistAccount(map[], Funded(0, b)) == Persisted(None, map["alice" := Funded(1, b)], Funded(1, b))
    ensures version >= 1 ==>
              PersistAccount(map["alice" := Funded(version, a)], Funded(version, b)) ==
              Persisted(None, map["alice" := Funded(version + 1, b)], Funded(version + 1, b))
  {
    assert map["USDT" := Balance(a, 0.0)] + map["USDT" := Balance(b, 0.0)] == map["USDT" := Balance(b, 0.0)];
  }

  ghost predicate Leads(kind: StoreKind, p: World, run: seq<Event>, last: World) {
    Possible(kind, "alice", TWO_CREDITS, p, run) && Ending(kind, "alice", TWO_CREDITS, p, run) == last
  }

  lemma StepBack(kind: StoreKind, p: World, p': World, run: seq<Event>, k: nat, last: World)
    requires k < |run| && Enabled(p, run[k]) && |p.threads| == 2 && p' == Next(kind, "alice", TWO_CREDITS, p, run[k])
    requires Leads(kind, p', run[k + 1..], last)
    ensures Leads(kind, p, run[k..], last)
  {
    hide Next;
    assert run[k..][0] == run[k] && run[k..][1..] == run[k + 1..];
  }

  lemma Arrived(kind: StoreKind, p: World, run: seq<Event>)
    ensures Leads(kind, p, run[|run|..], p) && run[0..] == run
  {
  }

  const LAGGING_RUN: seq<Event> :=
    [ReadCopy(0), Persist(0), Publish(0), ReadCopy(1), Persist(1), Publish(1), WriteCache(1), WriteCache(0)]

  /** The world once the first deposit is published and not yet cached. */
  function FirstPublished(): World {
    World(map["alice" := Funded(1, 5.0)], map["alice" := Funded(1, 5.0)], map[], [Published(Funded(1, 5.0)), Waiting])
  }

  lemma FirstDeposit(last: World)
    requires Leads(Postgres, FirstPublished(), LAGGING_RUN[3..], last)
    ensures Leads(Postgres, NOBODY, LAGGING_RUN, last)
  {
    hide Leads;
    hide PersistAccount;
    hide Credited;
    hide Funded;
    var a := Funded(1, 5.0);
    FundsAdd(0, 0.0, 5.0);
    var p1 := NOBODY.(threads := [Copied(Funded(0, 5.0)), Waiting]);
    var p2 := p1.(table := map["alice" := a], threads := [Stored(a), Waiting]);
    StepBack(Postgres, p2, FirstPublished(), LAGGING_RUN, 2, last);
    StepBack(Postgres, p1, p2, LAGGING_RUN, 1, last);
    StepBack(Postgres, NOBODY, p1, LAGGING_RUN, 0, last);
    assert LAGGING_RUN[0..] == LAGGING_RUN;
  }

  /** Cache writes are not ordered: when the first depositor caches last, the cache keeps its
      older account although both deposits succeeded. */
  lemma CacheCanLag()
    ensures Quiet("alice", TWO_CREDITS, NOBODY) && Possible(Postgres, "alice", TWO_CREDITS, NOBODY, LAGGING_RUN)
    ensures var p := Ending(Postgres, "alice", TWO_CREDITS, NOBODY, LAGGING_RUN);
            && p.threads == [Done, Done]
            && p.wallet == map["alice" := Funded(2, 12.0)] && p.cached == map["alice" := Funded(1, 5.0)]
  {
    hide Possible;
    hide Ending;
    hide Leads;
    hide PersistAccount;
    hide Credited;
    hide Funded;
    var a, b := Funded(1, 5.0), Funded(2, 12.0);
    FundsAdd(1, 5.0, 7.0);
    FundsAdd(1, 5.0, 12.0);
    var p3 := FirstPublished();
    var p4 := p3.(threads := [Published(a), Copied(Funded(1, 12.0))]);
    var p5 := p4.(table := map["alice" := b], threads := [Published(a), Stored(b)]);
    var p6 := p5.(wallet := map["alice" := b], threads := [Published(a), Published(b)]);
    var p7 := p6.(cached := map["alice" := b], threads := [Published(a), Done]);
    var p8 := p7.(cached := map["alice" := a], threads := [Done, Done]);
    Arrived(Postgres, p8, LAGGING_RUN);
    StepBack(Postgres, p7, p8, LAGGING_RUN, 7, p8);
    StepBack(Postgres, p6, p7, LAGGING_RUN, 6, p8);
    StepBack(Postgres, p5, p6, LAGGING_RUN, 5, p8);
    StepBack(Postgres, p4, p5, LAGGING_RUN, 4, p8);
    StepBack(Postgres, p3, p4, LAGGING_RUN, 3, p8);
    FirstDeposit(p8);
    LeadsTo(Postgres, NOBODY, LAGGING_RUN, p8);
  }

  lemma LeadsTo(kind: StoreKind, p: World, run: seq<Event>, last: World)
    requires Leads(kind, p, run, last)
    ensures Possible(kind, "alice", TWO_CREDITS, p, run) && Ending(kind, "alice", TWO_CREDITS, p, run) == last
  {
  }

  /** With the no-op store nothing detects that a copy is stale: the second publication
      overwrites the first deposit, although neither deposit failed. */
  lemma NoopStoreLosesADeposit()
    ensures var run := [ReadCopy(0), ReadCopy(1), Persist(0), Persist(1), Publish(0), Publish(1)];
            && Quiet("alice", TWO_CREDITS, NOBODY)
            && Possible(Noop, "alice", TWO_CREDITS, NOBODY, run)
            && var p := Ending(Noop, "alice", TWO_CREDITS, NOBODY, run);
            && p.threads == [Published(Funded(0, 5.0)), Published(Funded(0, 7.0))]
            && p.wallet == map["alice" := Funded(0, 7.0)]
  {
    hide Possible;
    hide Ending;
    hide Leads;
    hide PersistAccount;
    hide Credited;
    hide Funded;
    var run := [ReadCopy(0), ReadCopy(1), Persist(0), Persist(1), Publish(0), Publish(1)];
    var a, b := Funded(0, 5.0), Funded(0, 7.0);
    FundsAdd(0, 0.0, 5.0);
    FundsAdd(0, 0.0, 7.0);
    var p0 := NOBODY;
    var p1 := p0.(threads := [Copied(a), Waiting]);
    var p2 := p1.(threads := [Copied(a), Copied(b)]);
    var p3 := p2.(threads := [Stored(a), Copied(b)]);
    var p4 := p3.(threads := [Stored(a), Stored(b)]);
    var p5 := p4.(wallet := map["alice" := a], threads := [Published(a), Stored(b)]);
    var p6 := p5.(wallet := map["alice" := b], threads := [Published(a), Published(b)]);
    Arrived(Noop, p6, run);
    StepBack(Noop, p5, p6, run, 5, p6);
    StepBack(Noop, p4, p5, run, 4, p6);
    StepBack(Noop, p3, p4, run, 3, p6);
    StepBack(Noop, p2, p3, run, 2, p6);
    StepBack(Noop, p1, p2, run, 1, p6);
    StepBack(Noop, p0, p1, run, 0, p6);
    LeadsTo(Noop, p0, run, p6);
  }
}
