/** What the schedule of concurrent deposits decides: when the no-op store loses money, when the
    cache is left behind, and which persists succeed. */
module DepositSchedules {
  import opened Domain
  import opened WalletModel
  import opened Machine
  import opened ConcurrentDeposits

  // ----- schedules

  /** Another deposit has been published since deposit i read its copy. */
  ghost predicate Outdated(run: seq<Event>, i: nat) {
    exists a, b | 0 <= a < b < |run| :: run[a] == ReadCopy(i) && run[b].Publish? && run[b].i != i
  }

  /** Some deposit is published although another was published since it read its copy. */
  ghost predicate Overlaps(run: seq<Event>) {
    exists a, b, c | 0 <= a < b < c < |run| ::
      run[a].ReadCopy? && run[b].Publish? && run[c].Publish? && run[a].i == run[c].i != run[b].i
  }

  lemma OutdatedNext(run: seq<Event>, e: Event, i: nat)
    ensures Outdated(run + [e], i) <==> Outdated(run, i) || (e.Publish? && e.i != i && ReadCopy(i) in run)
  {
    var run' := run + [e];
    if Outdated(run, i) {
      var a, b :| 0 <= a < b < |run| && run[a] == ReadCopy(i) && run[b].Publish? && run[b].i != i;
      assert run'[a] == run[a] && run'[b] == run[b];
    }
    if e.Publish? && e.i != i && ReadCopy(i) in run {
      var a :| 0 <= a < |run| && run[a] == ReadCopy(i);
      assert run'[a] == run[a] && run'[|run|] == e;
    }
    if Outdated(run', i) {
      var a, b :| 0 <= a < b < |run'| && run'[a] == ReadCopy(i) && run'[b].Publish? && run'[b].i != i;
      assert run[a] == run'[a];
      if b < |run| {
        assert run[b] == run'[b];
      }
    }
  }

  lemma OverlapsNext(run: seq<Event>, e: Event)
    ensures Overlaps(run + [e]) <==> Overlaps(run) || (e.Publish? && Outdated(run, e.i))
  {
    hide Overlaps;
    hide Outdated;
    if Overlaps(run) { OverlapStays(run, e); }
    if e.Publish? && Outdated(run, e.i) { OverlapArises(run, e); }
    if Overlaps(run + [e]) { OverlapWas(run, e); }
  }

  lemma OverlapStays(run: seq<Event>, e: Event)
    requires Overlaps(run)
    ensures Overlaps(run + [e])
  {
    var a, b, c :| 0 <= a < b < c < |run| && run[a].ReadCopy? && run[b].Publish? && run[c].Publish?
                   && run[a].i == run[c].i != run[b].i;
    var run' := run + [e];
    assert run'[a] == run[a] && run'[b] == run[b] && run'[c] == run[c];
  }

  lemma OverlapArises(run: seq<Event>, e: Event)
    requires e.Publish? && Outdated(run, e.i)
    ensures Overlaps(run + [e])
  {
    var a, b :| 0 <= a < b < |run| && run[a] == ReadCopy(e.i) && run[b].Publish? && run[b].i != e.i;
    var run' := run + [e];
    assert run'[a] == run[a] && run'[b] == run[b] && run'[|run|] == e;
  }

  lemma OverlapWas(run: seq<Event>, e: Event)
    requires Overlaps(run + [e])
    ensures Overlaps(run) || (e.Publish? && Outdated(run, e.i))
  {
    var run' := run + [e];
    var a, b, c :| 0 <= a < b < c < |run'| && run'[a].ReadCopy? && run'[b].Publish? && run'[c].Publish?
                   && run'[a].i == run'[c].i != run'[b].i;
    assert run[a] == run'[a] && run[b] == run'[b];
    if c < |run| {
      assert run[c] == run'[c];
    } else {
      assert run[a] == ReadCopy(e.i);
    }
  }

  /** A run ends with its last step. */
  lemma {:induction false} LastStep(kind: StoreKind, id: string, credits: seq<Credit>, p: World, run: seq<Event>)
    requires Possible(kind, id, credits, p, run) && run != []
    ensures var n := |run| - 1;
            && Possible(kind, id, credits, p, run[..n])
            && var q := Ending(kind, id, credits, p, run[..n]);
            && |credits| == |q.threads| && Enabled(q, run[n])
            && Ending(kind, id, credits, p, run) == Next(kind, id, credits, q, run[n])
    decreases |run|
  {
    hide Next;
    var n, p' := |run| - 1, Next(kind, id, credits, p, run[0]);
    if n == 0 {
      assert run[..n] == [] && run[1..] == [];
    } else {
      LastStep(kind, id, credits, p', run[1..]);
      assert run[..n][0] == run[0] && run[..n][1..] == run[1..][..n - 1];
    }
  }

  /** What the threads' progress says about the run. */
  ghost predicate Recorded(run: seq<Event>, threads: seq<Progress>) {
    && (forall e | e in run :: e.i < |threads|)
    && forall i: nat | i < |threads| ::
         && (threads[i].Waiting? <==> ReadCopy(i) !in run)
         && (threads[i].Published? || threads[i].Done? <==> Publish(i) in run)
  }

  lemma RecordedNext(kind: StoreKind, id: string, credits: seq<Credit>, p: World, run: seq<Event>, e: Event)
    requires Enabled(p, e) && |credits| == |p.threads| && Recorded(run, p.threads)
    ensures Recorded(run + [e], Next(kind, id, credits, p, e).threads)
  {
    hide PersistWith;
    hide Credited;
    var threads' := Next(kind, id, credits, p, e).threads;
    forall i: nat | i < |threads'|
      ensures threads'[i].Waiting? <==> ReadCopy(i) !in run + [e]
      ensures threads'[i].Published? || threads'[i].Done? <==> Publish(i) in run + [e]
    {
    }
  }

  // ----- what the no-op store loses

  function Available(account: Account, x: string): real {
    if x in account.balances then account.balances[x].available else 0.0
  }

  predicate HasPublished(t: Progress) {
    t.Published? || t.Done?
  }

  /** What the published deposits credit to an asset. */
  function SumPublished(credits: seq<Credit>, threads: seq<Progress>, x: string): real
    requires |credits| == |threads|
  {
    if threads == [] then 0.0
    else (if HasPublished(threads[0]) && credits[0].asset == x then credits[0].amount else 0.0)
         + SumPublished(credits[1..], threads[1..], x)
  }

  function CreditTo(c: Credit, x: string): real {
    if c.asset == x then c.amount else 0.0
  }

  lemma {:induction false} OneThreadPublishes(credits: seq<Credit>, threads: seq<Progress>, i: nat, t: Progress,
                                              x: string)
    requires |credits| == |threads| && i < |threads| && !HasPublished(threads[i])
    ensures SumPublished(credits, threads[i := t], x) ==
            SumPublished(credits, threads, x) + if HasPublished(t) then CreditTo(credits[i], x) else 0.0
  {
    if i == 0 {
      assert threads[i := t][1..] == threads[1..];
    } else {
      OneThreadPublishes(credits[1..], threads[1..], i - 1, t, x);
      assert threads[i := t][1..] == threads[1..][i - 1 := t];
    }
  }

  lemma {:induction false} OneThreadStays(credits: seq<Credit>, threads: seq<Progress>, i: nat, t: Progress, x: string)
    requires |credits| == |threads| && i < |threads| && HasPublished(threads[i]) == HasPublished(t)
    ensures SumPublished(credits, threads[i := t], x) == SumPublished(credits, threads, x)
  {
    if i == 0 {
      assert threads[i := t][1..] == threads[1..];
    } else {
      OneThreadStays(credits[1..], threads[1..], i - 1, t, x);
      assert threads[i := t][1..] == threads[1..][i - 1 := t];
    }
  }

  lemma {:induction false} NonePublished(credits: seq<Credit>, threads: seq<Progress>, x: string)
    requires |credits| == |threads| && forall i | 0 <= i < |threads| :: threads[i] == Waiting
    ensures SumPublished(credits, threads, x) == 0.0
  {
    if threads != [] {
      NonePublished(credits[1..], threads[1..], x);
    }
  }

  /** What an account lacks of the start plus the published deposits. */
  function Missing(id: string, credits: seq<Credit>, start: World, threads: seq<Progress>, account: Account,
                   x: string): real
    requires |credits| == |threads|
  {
    Bal(start.wallet, id, x).available + SumPublished(credits, threads, x) - Available(account, x)
  }

  /** What the wallet would lack of each asset if this copy were published now: nothing more than it
      lacks already when the copy is up to date, and something for good when it is not. */
  ghost predicate CopyLacks(id: string, credits: seq<Credit>, start: World, run: seq<Event>, p: World, i: nat,
                            copy: Account)
    requires |credits| == |p.threads| && i < |credits|
  {
    && credits[i].amount > 0.0
    && (!Outdated(run, i) ==>
          forall x :: Missing(id, credits, start, p.threads, copy, x) + CreditTo(credits[i], x) ==
                      Missing(id, credits, start, p.threads, GetAccount(p.wallet, id), x))
    && (Outdated(run, i) ==>
          && (forall x :: Missing(id, credits, start, p.threads, copy, x) + CreditTo(credits[i], x) >= 0.0)
          && exists x :: Missing(id, credits, start, p.threads, copy, x) + CreditTo(credits[i], x) > 0.0)
  }

  /** The wallet never holds more than the published deposits, and less exactly after an overlap. */
  ghost predicate WalletLacks(id: string, credits: seq<Credit>, start: World, run: seq<Event>, p: World)
    requires |credits| == |p.threads|
  {
    && (forall x :: Missing(id, credits, start, p.threads, GetAccount(p.wallet, id), x) >= 0.0)
    && ((exists x :: Missing(id, credits, start, p.threads, GetAccount(p.wallet, id), x) > 0.0) <==> Overlaps(run))
  }

  ghost predicate NoopInv(id: string, credits: seq<Credit>, start: World, run: seq<Event>, p: World) {
    && |credits| == |p.threads| && Recorded(run, p.threads)
    && WalletLacks(id, credits, start, run, p)
    && forall i: nat | i < |p.threads| && (p.threads[i].Copied? || p.threads[i].Stored?) ::
         CopyLacks(id, credits, start, run, p, i, p.threads[i].copy)
  }

  lemma CreditedHas(account: Account, c: Credit, x: string)
    ensures Available(Credited(account, c.asset, c.amount), x) == Available(account, x) + CreditTo(c, x)
  {
  }

  lemma NoopBegins(id: string, credits: seq<Credit>, p: World)
    requires Quiet(id, credits, p)
    ensures NoopInv(id, credits, p, [], p)
  {
    forall x
      ensures Missing(id, credits, p, p.threads, GetAccount(p.wallet, id), x) == 0.0
    {
      NonePublished(credits, p.threads, x);
    }
  }

  /** A step that publishes nothing changes nothing that is missing. */
  lemma StepMissesNothing(id: string, credits: seq<Credit>, start: World, threads: seq<Progress>, i: nat, t: Progress)
    requires |credits| == |threads| && i < |threads| && HasPublished(threads[i]) == HasPublished(t)
    ensures forall account, x ::
              Missing(id, credits, start, threads[i := t], account, x) ==
              Missing(id, credits, start, threads, account, x)
  {
    hide Available;
    hide Bal;
    hide HasPublished;
    forall x
      ensures SumPublished(credits, threads[i := t], x) == SumPublished(credits, threads, x)
    {
      OneThreadStays(credits, threads, i, t, x);
    }
  }

  lemma SameLack(id: string, credits: seq<Credit>, start: World, run: seq<Event>, p: World, run': seq<Event>, p': World)
    requires |credits| == |p.threads| == |p'.threads| && WalletLacks(id, credits, start, run, p)
    requires p'.wallet == p.wallet && (Overlaps(run') <==> Overlaps(run))
    requires forall account, x ::
               Missing(id, credits, start, p'.threads, account, x) == Missing(id, credits, start, p.threads, account, x)
    ensures WalletLacks(id, credits, start, run', p')
  {
    hide Missing;
    hide Overlaps;
    var w := GetAccount(p.wallet, id);
    if x :| Missing(id, credits, start, p.threads, w, x) > 0.0 {
      assert Missing(id, credits, start, p'.threads, w, x) > 0.0;
    }
    if x :| Missing(id, credits, start, p'.threads, w, x) > 0.0 {
      assert Missing(id, credits, start, p.threads, w, x) > 0.0;
    }
  }

  /** After copy i becomes the wallet's account, the wallet lacks what the copy lacked. */
  lemma CopyBecomesWallet(id: string, credits: seq<Credit>, start: World, run: seq<Event>, p: World, i: nat,
                          run': seq<Event>, p': World)
    requires |credits| == |p.threads| == |p'.threads| && i < |credits| && p.threads[i].Stored?
    requires WalletLacks(id, credits, start, run, p) && CopyLacks(id, credits, start, run, p, i, p.threads[i].copy)
    requires GetAccount(p'.wallet, id) == p.threads[i].copy
    requires Overlaps(run') <==> Overlaps(run) || Outdated(run, i)
    requires forall account, x ::
               Missing(id, credits, start, p'.threads, account, x) ==
               Missing(id, credits, start, p.threads, account, x) + CreditTo(credits[i], x)
    ensures WalletLacks(id, credits, start, run', p')
  {
    hide Missing;
    hide Overlaps;
    hide Outdated;
    hide CreditTo;
    var w, copy := GetAccount(p.wallet, id), p.threads[i].copy;
    if Outdated(run, i) {
      var x :| Missing(id, credits, start, p.threads, copy, x) + CreditTo(credits[i], x) > 0.0;
      assert Missing(id, credits, start, p'.threads, copy, x) > 0.0;
    } else {
      forall x
        ensures Missing(id, credits, start, p'.threads, copy, x) == Missing(id, credits, start, p.threads, w, x)
      {
        assert Missing(id, credits, start, p.threads, copy, x) + CreditTo(credits[i], x) ==
               Missing(id, credits, start, p.threads, w, x);
      }
      if x :| Missing(id, credits, start, p.threads, w, x) > 0.0 {
        assert Missing(id, credits, start, p'.threads, copy, x) > 0.0;
      }
    }
  }

  lemma NoopRead(id: string, credits: seq<Credit>, start: World, run: seq<Event>, p: World, i: nat)
    requires NoopInv(id, credits, start, run, p) && Enabled(p, ReadCopy(i))
    ensures NoopInv(id, credits, start, run + [ReadCopy(i)], Next(Noop, id, credits, p, ReadCopy(i)))
  {
    hide Missing;
    hide Credited;
    hide Outdated;
    hide Overlaps;
    hide Recorded;
    var e := ReadCopy(i);
    var run', p' := run + [e], Next(Noop, id, credits, p, e);
    RecordedNext(Noop, id, credits, p, run, e);
    StepMissesNothing(id, credits, start, p.threads, i, p'.threads[i]);
    assert p.threads[i := p'.threads[i]] == p'.threads;
    OverlapsNext(run, e);
    SameLack(id, credits, start, run, p, run', p');
    forall k: nat | k < |p'.threads| && (p'.threads[k].Copied? || p'.threads[k].Stored?)
      ensures CopyLacks(id, credits, start, run', p', k, p'.threads[k].copy)
    {
      OutdatedNext(run, e, k);
      if k == i {
        FreshCopy(id, credits, start, run, p, i);
      } else {
        assert CopyLacks(id, credits, start, run, p, k, p.threads[k].copy);
      }
    }
  }

  lemma FreshCopy(id: string, credits: seq<Credit>, start: World, run: seq<Event>, p: World, i: nat)
    requires NoopInv(id, credits, start, run, p) && i < |p.threads| && p.threads[i].Waiting?
    ensures !Outdated(run, i)
    ensures var copy := Credited(GetAccount(p.wallet, id), credits[i].asset, credits[i].amount);
            forall x :: Missing(id, credits, start, p.threads, copy, x) + CreditTo(credits[i], x) ==
                        Missing(id, credits, start, p.threads, GetAccount(p.wallet, id), x)
  {
    hide Credited;
    hide Available;
    hide CopyLacks;
    hide WalletLacks;
    assert Recorded(run, p.threads);
    var copy := Credited(GetAccount(p.wallet, id), credits[i].asset, credits[i].amount);
    forall x
      ensures Missing(id, credits, start, p.threads, copy, x) + CreditTo(credits[i], x) ==
              Missing(id, credits, start, p.threads, GetAccount(p.wallet, id), x)
    {
      CreditedHas(GetAccount(p.wallet, id), credits[i], x);
    }
  }

  /** Persisting over the no-op store and writing the cache leave wallet and copies alone. */
  lemma NoopPasses(id: string, credits: seq<Credit>, start: World, run: seq<Event>, p: World, e: Event)
    requires NoopInv(id, credits, start, run, p) && Enabled(p, e) && (e.Persist? || e.WriteCache?)
    ensures NoopInv(id, credits, start, run + [e], Next(Noop, id, credits, p, e))
  {
    hide Missing;
    hide Outdated;
    hide Overlaps;
    hide Recorded;
    var run', p' := run + [e], Next(Noop, id, credits, p, e);
    RecordedNext(Noop, id, credits, p, run, e);
    StepMissesNothing(id, credits, start, p.threads, e.i, p'.threads[e.i]);
    assert p.threads[e.i := p'.threads[e.i]] == p'.threads;
    OverlapsNext(run, e);
    SameLack(id, credits, start, run, p, run', p');
    forall k: nat | k < |p'.threads| && (p'.threads[k].Copied? || p'.threads[k].Stored?)
      ensures CopyLacks(id, credits, start, run', p', k, p'.threads[k].copy)
    {
      OutdatedNext(run, e, k);
      assert CopyLacks(id, credits, start, run, p, k, p.threads[k].copy);
    }
  }

  /** Publishing copy i: the wallet is that copy, and one more deposit counts. */
  lemma PublishMisses(id: string, credits: seq<Credit>, start: World, threads: seq<Progress>, i: nat, copy: Account)
    requires |credits| == |threads| && i < |threads| && threads[i].Stored?
    ensures forall account, x ::
              Missing(id, credits, start, threads[i := Published(copy)], account, x) ==
              Missing(id, credits, start, threads, account, x) + CreditTo(credits[i], x)
  {
    hide Available;
    hide Bal;
    forall x
      ensures SumPublished(credits, threads[i := Published(copy)], x) ==
              SumPublished(credits, threads, x) + CreditTo(credits[i], x)
    {
      OneThreadPublishes(credits, threads, i, Published(copy), x);
    }
  }

  lemma NoopPublish(id: string, credits: seq<Credit>, start: World, run: seq<Event>, p: World, i: nat)
    requires NoopInv(id, credits, start, run, p) && Enabled(p, Publish(i))
    ensures NoopInv(id, credits, start, run + [Publish(i)], Next(Noop, id, credits, p, Publish(i)))
  {
    hide Missing;
    hide Outdated;
    hide Overlaps;
    hide CreditTo;
    var e, copy := Publish(i), p.threads[i].copy;
    var run', p' := run + [e], Next(Noop, id, credits, p, e);
    RecordedNext(Noop, id, credits, p, run, e);
    PublishMisses(id, credits, start, p.threads, i, copy);
    OverlapsNext(run, e);
    assert CopyLacks(id, credits, start, run, p, i, copy);
    assert GetAccount(p'.wallet, id) == copy;
    CopyBecomesWallet(id, credits, start, run, p, i, run', p');
    forall k: nat | k < |p'.threads| && (p'.threads[k].Copied? || p'.threads[k].Stored?)
      ensures CopyLacks(id, credits, start, run', p', k, p'.threads[k].copy)
    {
      OutdatedNext(run, e, k);
      assert CopyLacks(id, credits, start, run, p, k, p.threads[k].copy);
      CreditCounts(credits[i]);
    }
  }

  lemma CreditCounts(c: Credit)
    requires c.amount > 0.0
    ensures CreditTo(c, c.asset) > 0.0 && forall x :: CreditTo(c, x) >= 0.0
  {
  }

  lemma {:induction false} NoopRuns(id: string, credits: seq<Credit>, p: World, run: seq<Event>)
    requires Quiet(id, credits, p) && Possible(Noop, id, credits, p, run)
    ensures NoopInv(id, credits, p, run, Ending(Noop, id, credits, p, run))
    decreases |run|
  {
    hide Quiet;
    hide NoopInv;
    hide Next;
    if run == [] {
      NoopBegins(id, credits, p);
    } else {
      var n := |run| - 1;
      LastStep(Noop, id, credits, p, run);
      NoopRuns(id, credits, p, run[..n]);
      var q := Ending(Noop, id, credits, p, run[..n]);
      match run[n] {
        case ReadCopy(i) => NoopRead(id, credits, p, run[..n], q, i);
        case Publish(i) => NoopPublish(id, credits, p, run[..n], q, i);
        case _ => NoopPasses(id, credits, p, run[..n], q, run[n]);
      }
      assert run[..n] + [run[n]] == run;
    }
  }

  /** Over the no-op store, concurrent deposits lose nothing exactly when no deposit is published
      after another was published since it read its copy. */
  lemma NoopLosesNothingIff(id: string, credits: seq<Credit>, p: World, run: seq<Event>)
    requires Quiet(id, credits, p) && Possible(Noop, id, credits, p, run)
    ensures |credits| == |Ending(Noop, id, credits, p, run).threads|
    ensures var p' := Ending(Noop, id, credits, p, run);
            (forall x :: Bal(p'.wallet, id, x).available ==
                         Bal(p.wallet, id, x).available + SumPublished(credits, p'.threads, x)) <==>
            !Overlaps(run)
  {
    hide Overlaps;
    hide Quiet;
    hide CopyLacks;
    hide Recorded;
    NoopRuns(id, credits, p, run);
    var p' := Ending(Noop, id, credits, p, run);
    assert WalletLacks(id, credits, p, run, p');
    forall x
      ensures Missing(id, credits, p, p'.threads, GetAccount(p'.wallet, id), x) ==
              Bal(p.wallet, id, x).available + SumPublished(credits, p'.threads, x) - Bal(p'.wallet, id, x).available
    {
    }
  }

  // ----- what the versioned store and the cache hold

  /** The thread of the last publication. */
  function LastPublisher(run: seq<Event>): Option<nat> {
    if run == [] then None
    else if run[|run| - 1].Publish? then Some(run[|run| - 1].i)
    else LastPublisher(run[..|run| - 1])
  }

  /** The thread of the last cache write. */
  function LastCacher(run: seq<Event>): Option<nat> {
    if run == [] then None
    else if run[|run| - 1].WriteCache? then Some(run[|run| - 1].i)
    else LastCacher(run[..|run| - 1])
  }

  lemma LastNext(run: seq<Event>, e: Event)
    ensures LastPublisher(run + [e]) == if e.Publish? then Some(e.i) else LastPublisher(run)
    ensures LastCacher(run + [e]) == if e.WriteCache? then Some(e.i) else LastCacher(run)
  {
    assert (run + [e])[..|run|] == run;
  }

  /** Reads and publications occur once. */
  ghost predicate OnceEach(run: seq<Event>) {
    forall a, b | 0 <= a < b < |run| && (run[a].ReadCopy? || run[a].Publish?) :: run[a] != run[b]
  }

  lemma OnceNext(run: seq<Event>, e: Event)
    requires OnceEach(run) && (e.ReadCopy? || e.Publish? ==> e !in run)
    ensures OnceEach(run + [e])
  {
    forall a, b | 0 <= a < b < |run| + 1 && ((run + [e])[a].ReadCopy? || (run + [e])[a].Publish?)
      ensures (run + [e])[a] != (run + [e])[b]
    {
      assert run[a] == (run + [e])[a] && run[a] in run;
    }
  }

  /** How a thread's copy stands to the wallet. */
  ghost predicate CopyDated(id: string, run: seq<Event>, w: Accounts, i: nat, t: Progress) {
    match t
    case Copied(copy) => copy.version == VersionOf(w, id) <==> !Outdated(run, i)
    case Published(copy) =>
      if LastPublisher(run) == Some(i) then copy == GetAccount(w, id) else copy.version < VersionOf(w, id)
    case _ => true
  }

  ghost predicate CacheDated(id: string, run: seq<Event>, p: World) {
    && (LastCacher(run).Some? ==> LastCacher(run).value < |p.threads| && p.threads[LastCacher(run).value].Done?)
    && (id in p.cached ==>
          if LastCacher(run) == LastPublisher(run) then p.cached[id] == GetAccount(p.wallet, id)
          else p.cached[id].version < VersionOf(p.wallet, id))
  }

  ghost predicate Dated(id: string, credits: seq<Credit>, start: World, run: seq<Event>, p: World) {
    && |credits| == |p.threads|
    && Consistent(id, credits, start, p) && Recorded(run, p.threads) && OnceEach(run)
    && (forall i: nat | i < |p.threads| :: CopyDated(id, run, p.wallet, i, p.threads[i]))
    && CacheDated(id, run, p)
  }

  lemma DatedBegins(id: string, credits: seq<Credit>, p: World)
    requires Quiet(id, credits, p)
    ensures Dated(id, credits, p, [], p)
  {
    hide Consistent;
    QuietIsConsistent(id, credits, p);
  }

  lemma DatedRead(id: string, credits: seq<Credit>, start: World, run: seq<Event>, p: World, i: nat)
    requires Dated(id, credits, start, run, p) && Enabled(p, ReadCopy(i))
    ensures Dated(id, credits, start, run + [ReadCopy(i)], Next(Postgres, id, credits, p, ReadCopy(i)))
  {
    hide Consistent;
    hide Outdated;
    hide OnceEach;
    var e := ReadCopy(i);
    var run', p' := run + [e], Next(Postgres, id, credits, p, e);
    ReadKeeps(id, credits, start, p, i);
    RecordedNext(Postgres, id, credits, p, run, e);
    OnceNext(run, e);
    LastNext(run, e);
    forall k: nat | k < |p'.threads|
      ensures CopyDated(id, run', p'.wallet, k, p'.threads[k])
    {
      OutdatedNext(run, e, k);
      if k == i {
        assert !Outdated(run, i) by { NotReadNotOutdated(run, i); }
      } else {
        assert CopyDated(id, run, p.wallet, k, p.threads[k]);
      }
    }
  }

  lemma NotReadNotOutdated(run: seq<Event>, i: nat)
    requires ReadCopy(i) !in run
    ensures !Outdated(run, i)
  {
  }

  lemma DatedPersist(id: string, credits: seq<Credit>, start: World, run: seq<Event>, p: World, i: nat)
    requires Dated(id, credits, start, run, p) && Enabled(p, Persist(i))
    ensures Dated(id, credits, start, run + [Persist(i)], Next(Postgres, id, credits, p, Persist(i)))
  {
    hide Consistent;
    hide Outdated;
    hide OnceEach;
    hide PersistWith;
    var e := Persist(i);
    var run', p' := run + [e], Next(Postgres, id, credits, p, e);
    PersistKeeps(id, credits, start, p, i);
    RecordedNext(Postgres, id, credits, p, run, e);
    OnceNext(run, e);
    LastNext(run, e);
    forall k: nat | k < |p'.threads|
      ensures CopyDated(id, run', p'.wallet, k, p'.threads[k])
    {
      OutdatedNext(run, e, k);
      assert CopyDated(id, run, p.wallet, k, p.threads[k]);
    }
  }

  lemma DatedPublish(id: string, credits: seq<Credit>, start: World, run: seq<Event>, p: World, i: nat)
    requires Dated(id, credits, start, run, p) && Enabled(p, Publish(i))
    ensures Dated(id, credits, start, run + [Publish(i)], Next(Postgres, id, credits, p, Publish(i)))
  {
    hide Counted;
    hide OthersKept;
    hide StoreFollows;
    hide Outdated;
    hide OnceEach;
    hide Credited;
    var e, copy := Publish(i), p.threads[i].copy;
    var run', p' := run + [e], Next(Postgres, id, credits, p, e);
    PublishKeeps(id, credits, start, p, i);
    RecordedNext(Postgres, id, credits, p, run, e);
    OnceNext(run, e);
    LastNext(run, e);
    assert CopyOk(id, credits[i], p.wallet, p.threads[i]);
    StoredIsNext(id, credits[i], p.wallet, p.threads[i]);
    forall k: nat | k < |p'.threads|
      ensures CopyDated(id, run', p'.wallet, k, p'.threads[k])
    {
      OutdatedNext(run, e, k);
      assert CopyOk(id, credits[k], p.wallet, p.threads[k]);
    }
  }

  lemma DatedWriteCache(id: string, credits: seq<Credit>, start: World, run: seq<Event>, p: World, i: nat)
    requires Dated(id, credits, start, run, p) && Enabled(p, WriteCache(i))
    ensures Dated(id, credits, start, run + [WriteCache(i)], Next(Postgres, id, credits, p, WriteCache(i)))
  {
    hide Consistent;
    hide Outdated;
    hide OnceEach;
    var e := WriteCache(i);
    var run', p' := run + [e], Next(Postgres, id, credits, p, e);
    WriteCacheKeeps(id, credits, start, p, i);
    RecordedNext(Postgres, id, credits, p, run, e);
    OnceNext(run, e);
    LastNext(run, e);
    assert CopyDated(id, run, p.wallet, i, p.threads[i]);
    forall k: nat | k < |p'.threads|
      ensures CopyDated(id, run', p'.wallet, k, p'.threads[k])
    {
      OutdatedNext(run, e, k);
      assert CopyDated(id, run, p.wallet, k, p.threads[k]);
    }
  }

  lemma {:induction false} RunsStayDated(id: string, credits: seq<Credit>, p: World, run: seq<Event>)
    requires Quiet(id, credits, p) && Possible(Postgres, id, credits, p, run)
    ensures Dated(id, credits, p, run, Ending(Postgres, id, credits, p, run))
    decreases |run|
  {
    hide Quiet;
    hide Dated;
    hide Next;
    if run == [] {
      DatedBegins(id, credits, p);
    } else {
      var n := |run| - 1;
      LastStep(Postgres, id, credits, p, run);
      RunsStayDated(id, credits, p, run[..n]);
      var q := Ending(Postgres, id, credits, p, run[..n]);
      match run[n] {
        case ReadCopy(i) => DatedRead(id, credits, p, run[..n], q, i);
        case Persist(i) => DatedPersist(id, credits, p, run[..n], q, i);
        case Publish(i) => DatedPublish(id, credits, p, run[..n], q, i);
        case WriteCache(i) => DatedWriteCache(id, credits, p, run[..n], q, i);
      }
      assert run[..n] + [run[n]] == run;
    }
  }

  /** The cached account is the wallet's exactly when the last cache write is by the thread of the
      last publication, or there has been neither. */
  lemma CacheIsCurrentIff(id: string, credits: seq<Credit>, p: World, run: seq<Event>)
    requires Quiet(id, credits, p) && Possible(Postgres, id, credits, p, run)
    requires id in Ending(Postgres, id, credits, p, run).cached
    ensures var p' := Ending(Postgres, id, credits, p, run);
            p'.cached[id] == GetAccount(p'.wallet, id) <==> LastCacher(run) == LastPublisher(run)
  {
    hide Quiet;
    hide Consistent;
    hide Recorded;
    hide OnceEach;
    hide CopyDated;
    RunsStayDated(id, credits, p, run);
  }

  // ----- which persists succeed

  /** Deposit j was published before deposit i read its copy. */
  ghost predicate PublishedBeforeRead(run: seq<Event>, j: nat, i: nat) {
    exists a, b | 0 <= a < b < |run| :: run[a] == Publish(j) && run[b] == ReadCopy(i)
  }

  /** A deposit's persist succeeds exactly when every deposit that has persisted by then was already
      published when the deposit read its copy. */
  lemma PersistSucceedsIff(id: string, credits: seq<Credit>, p: World, run: seq<Event>, i: nat)
    requires Quiet(id, credits, p) && Possible(Postgres, id, credits, p, run)
    requires i < |Ending(Postgres, id, credits, p, run).threads|
    requires Ending(Postgres, id, credits, p, run).threads[i].Copied?
    ensures var p' := Ending(Postgres, id, credits, p, run);
            PersistAccount(p'.table, p'.threads[i].copy).err.None? <==>
            forall j: nat | j < |p'.threads| && HasPersisted(p'.threads[j]) :: PublishedBeforeRead(run, j, i)
  {
    hide Quiet;
    hide PersistAccount;
    hide Counted;
    hide CacheFollows;
    hide OthersKept;
    hide Credited;
    hide Outdated;
    hide PublishedBeforeRead;
    hide OnceEach;
    RunsStayDated(id, credits, p, run);
    var p' := Ending(Postgres, id, credits, p, run);
    PersistComparesVersions(id, credits, p, p', i);
    assert CopyDated(id, run, p'.wallet, i, p'.threads[i]) && CopyOk(id, credits[i], p'.wallet, p'.threads[i]);
    if PersistAccount(p'.table, p'.threads[i].copy).err.None? {
      forall j: nat | j < |p'.threads| && HasPersisted(p'.threads[j])
        ensures PublishedBeforeRead(run, j, i)
      {
        NotAfterRead(run, j, i);
      }
    }
    if forall j: nat | j < |p'.threads| && HasPersisted(p'.threads[j]) :: PublishedBeforeRead(run, j, i) {
      forall j: nat | j < |p'.threads|
        ensures !p'.threads[j].Stored?
      {
        if HasPersisted(p'.threads[j]) { BeforeIsIn(run, j, i); }
      }
      NoneAfterRead(run, i, p'.threads);
    }
  }

  lemma BeforeIsIn(run: seq<Event>, j: nat, i: nat)
    requires PublishedBeforeRead(run, j, i)
    ensures Publish(j) in run
  {
  }

  lemma NotAfterRead(run: seq<Event>, j: nat, i: nat)
    requires !Outdated(run, i) && ReadCopy(i) in run && Publish(j) in run && j != i
    ensures PublishedBeforeRead(run, j, i)
  {
    var a :| 0 <= a < |run| && run[a] == Publish(j);
    var b :| 0 <= b < |run| && run[b] == ReadCopy(i);
  }

  lemma NoneAfterRead(run: seq<Event>, i: nat, threads: seq<Progress>)
    requires OnceEach(run) && Recorded(run, threads) && i < |threads|
    requires forall j: nat | j < |threads| && HasPersisted(threads[j]) :: PublishedBeforeRead(run, j, i)
    ensures !Outdated(run, i)
  {
    hide PublishedBeforeRead;
    hide OnceEach;
    forall a, b | 0 <= a < |run| && 0 <= b < |run| && run[a] == ReadCopy(i) && run[b].Publish?
      ensures b < a
    {
      var j := run[b].i;
      assert run[b] == Publish(j) && run[b] in run && HasPersisted(threads[j]);
      OrderOfTwo(run, j, i, a, b);
    }
  }

  lemma OrderOfTwo(run: seq<Event>, j: nat, i: nat, a: nat, b: nat)
    requires OnceEach(run) && PublishedBeforeRead(run, j, i)
    requires a < |run| && b < |run| && run[a] == ReadCopy(i) && run[b] == Publish(j)
    ensures b < a
  {
    var c, d :| 0 <= c < d < |run| && run[c] == Publish(j) && run[d] == ReadCopy(i);
  }

  /** Nobody who had something to deposit is turned away before anybody has persisted. */
  lemma {:induction false} NoFailureBeforeSuccess(id: string, credits: seq<Credit>, p: World, run: seq<Event>)
    requires Quiet(id, credits, p) && Possible(Postgres, id, credits, p, run)
    ensures var p' := Ending(Postgres, id, credits, p, run);
            && |credits| == |p'.threads|
            && ((exists j: nat :: j < |p'.threads| && HasPersisted(p'.threads[j]))
                || forall i: nat | i < |p'.threads| && p'.threads[i].Failed? :: credits[i].amount <= 0.0)
    decreases |run|
  {
    hide PersistAccount;
    hide Credited;
    hide PublishedBeforeRead;
    if run != [] {
      var n := |run| - 1;
      LastStep(Postgres, id, credits, p, run);
      NoFailureBeforeSuccess(id, credits, p, run[..n]);
      var q, p' := Ending(Postgres, id, credits, p, run[..n]), Ending(Postgres, id, credits, p, run);
      if run[n].Persist? {
        PersistSucceedsIff(id, credits, p, run[..n], run[n].i);
      }
      if j: nat :| j < |q.threads| && HasPersisted(q.threads[j]) {
        assert HasPersisted(p'.threads[j]);
      }
    }
  }

  /** When all deposits have finished and one of them had something to deposit, at least one persisted. */
  lemma SomeDepositPersists(id: string, credits: seq<Credit>, p: World, run: seq<Event>, i: nat)
    requires Quiet(id, credits, p) && Possible(Postgres, id, credits, p, run)
    requires var p' := Ending(Postgres, id, credits, p, run);
             && (forall k | 0 <= k < |p'.threads| :: p'.threads[k].Done? || p'.threads[k].Failed?)
             && i < |p'.threads| && i < |credits| && credits[i].amount > 0.0
    ensures exists j: nat :: j < |Ending(Postgres, id, credits, p, run).threads|
                             && Ending(Postgres, id, credits, p, run).threads[j].Done?
  {
    hide Quiet;
    NoFailureBeforeSuccess(id, credits, p, run);
    var p' := Ending(Postgres, id, credits, p, run);
    if j: nat :| j < |p'.threads| && HasPersisted(p'.threads[j]) {
      assert p'.threads[j].Done?;
    } else {
      assert p'.threads[i].Done?;
    }
  }
}
