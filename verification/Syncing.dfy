/** Versions never conflict: snapshots written back are the live accounts, and persisting them
    keeps wallet and store equal. */
module Syncing {
  import opened Domain
  import opened Matching
  import opened BookModel
  import opened WalletModel
  import opened Settlement
  import opened Recovery
  import opened Money
  import opened Machine
  import opened Invariant
  import opened Executing

  /** The snapshots are what the accounts are now. */
  ghost predicate LiveSnapshots(taken: Accounts, w: Accounts) {
    forall a | a in taken :: taken[a] == GetAccount(w, a)
  }

  lemma SnapshotsStayLive(taken: Accounts, w: Accounts, w': Accounts, a: string, b: string)
    requires LiveSnapshots(taken, w) && SameOutside(w, w', {a, b}) && Grows(w, w')
    ensures LiveSnapshots(taken[a := GetAccount(w', a)][b := GetAccount(w', b)], w')
  {
    forall c | c in taken && c != a && c != b
      ensures taken[c] == GetAccount(w', c)
    {
      if c !in w {
        assert c !in w';
      }
    }
  }

  /** Whatever the fill loop does to an account, its last snapshot shows, and accounts without a
      snapshot are untouched. */
  lemma {:induction false} SnapshotsAreLive(w: Accounts, sym: Symbol, taker: Order, fills: seq<Fill>, taken: Accounts)
    requires LiveSnapshots(taken, w) && taker.account in taken
    requires SettleFills(w, sym, taker, fills).err.None?
    ensures var x, all := SettleFills(w, sym, taker, fills), Snapshots(w, sym, taker, fills, taken);
            && LiveSnapshots(all, x.accounts)
            && taken.Keys <= all.Keys
            && (forall i | 0 <= i < |fills| :: fills[i].maker.account in all)
            && (forall a | a in all :: a in taken || exists i | 0 <= i < |fills| :: fills[i].maker.account == a)
            && Grows(w, x.accounts) && SameOutside(w, x.accounts, all.Keys)
    decreases |fills|
  {
    hide ApplyTrade;
    hide Grows;
    hide SameOutside;
    hide LiveSnapshots;
    if fills == [] {
      FrameOfNothing(w, taken.Keys);
    } else {
      var maker, tr := fills[0].maker, fills[0].trade;
      var a := ApplyTrade(w, sym, maker, taker, tr);
      ApplyFrame(w, sym, maker, taker, tr);
      ApplyKeepsRemaining(w, sym, maker, taker, tr);
      var m := maker.account;
      var taken' := taken[m := GetAccount(a.accounts, m)][taker.account := GetAccount(a.accounts, taker.account)];
      SnapshotsStayLive(taken, w, a.accounts, m, taker.account);
      SnapshotsAreLive(a.accounts, sym, a.taker, fills[1..], taken');
      var x, all := SettleFills(w, sym, taker, fills), Snapshots(w, sym, taker, fills, taken);
      FrameWiden(w, a.accounts, {m, taker.account}, all.Keys);
      FrameTransitive(w, a.accounts, x.accounts, all.Keys, all.Keys);
      assert all.Keys + all.Keys == all.Keys;
      TailIndices(fills, all, taken, taken', taker.account);
    }
  }

  lemma TailIndices(fills: seq<Fill>, all: Accounts, taken: Accounts, taken': Accounts, taker: string)
    requires fills != [] && taken'.Keys == taken.Keys + {fills[0].maker.account, taker} && taker in taken
    requires taken'.Keys <= all.Keys
    requires forall i | 0 <= i < |fills[1..]| :: fills[1..][i].maker.account in all
    requires forall a | a in all :: a in taken' || exists i | 0 <= i < |fills[1..]| :: fills[1..][i].maker.account == a
    ensures forall i | 0 <= i < |fills| :: fills[i].maker.account in all
    ensures forall a | a in all :: a in taken || exists i | 0 <= i < |fills| :: fills[i].maker.account == a
  {
    forall i | 0 <= i < |fills|
      ensures fills[i].maker.account in all
    {
      if i > 0 { assert fills[i] == fills[1..][i - 1]; }
    }
    forall a | a in all
      ensures a in taken || exists i | 0 <= i < |fills| :: fills[i].maker.account == a
    {
      if a !in taken && a != fills[0].maker.account {
        var i :| 0 <= i < |fills[1..]| && fills[1..][i].maker.account == a;
        assert fills[i + 1].maker.account == a;
      }
    }
  }

  lemma FrameOfNothing(w: Accounts, ids: set<string>)
    ensures Grows(w, w) && SameOutside(w, w, ids)
  {
  }

  // ----- persisting what agrees

  /** The wallet has moved ahead of the store only on the accounts about to be written back, and
      on the same version. */
  ghost predicate Ahead(table: Accounts, w: Accounts, changed: Accounts) {
    && w.Keys == table.Keys && changed.Keys <= w.Keys
    && (forall a | a in changed :: changed[a] == w[a])
    && (forall a | a in w && a !in changed :: w[a] == table[a])
    && (forall a | a in w ::
          && w[a].id == a && w[a].version == table[a].version >= 1
          && table[a].id == a && table[a].balances != map[]
          && table[a].balances.Keys <= w[a].balances.Keys)
  }

  /** The account as it is after being written back, if it was. */
  function Advanced(w: Accounts, changed: Accounts, a: string): Account
    requires a in w
  {
    if a in changed then w[a].(version := w[a].version + 1) else w[a]
  }

  lemma SyncedAccount(s: State, changed: Accounts, a: string)
    requires Ahead(s.db.accounts, s.wallet, changed) && a in s.wallet
    ensures a in changed ==> changed[a].id == a && PersistAccount(s.db.accounts, changed[a]).err.None?
    ensures a in SyncAll(s, changed).wallet && SyncAll(s, changed).wallet[a] == Advanced(s.wallet, changed, a)
    ensures a in SyncAll(s, changed).db.accounts && SyncAll(s, changed).db.accounts[a] == Advanced(s.wallet, changed, a)
    ensures var b := Advanced(s.wallet, changed, a); b.balances != map[] && b.id == a && b.version >= 1
  {
    hide PersistAccount;
    hide Ahead;
    hide PersistAll;
    hide Bumped;
    AheadAt(s.db.accounts, s.wallet, changed, a);
    RowSupersedes(s.db.accounts[a], s.wallet[a]);
    PersistedAt(s.db.accounts, changed, a);
    if a in changed {
      PersistAdvances(s.db.accounts, s.wallet[a]);
    }
  }

  lemma AheadAt(table: Accounts, w: Accounts, changed: Accounts, a: string)
    requires Ahead(table, w, changed) && a in w
    ensures a in table && w[a] == (if a in changed then changed[a] else table[a])
    ensures w[a].id == table[a].id == a && w[a].version == table[a].version >= 1
    ensures table[a].balances != map[] && table[a].balances.Keys <= w[a].balances.Keys
  {
  }

  lemma PersistedAt(table: Accounts, changed: Accounts, a: string)
    requires a in table
    ensures a in PersistAll(table, changed) && (a !in changed ==> PersistAll(table, changed)[a] == table[a])
    ensures a in Bumped(table, changed) <==> a in changed
    ensures a in changed ==>
              var p := PersistAccount(table, changed[a]);
              && Bumped(table, changed)[a] == p.account
              && PersistAll(table, changed)[a] == if a in p.table then p.table[a] else changed[a]
  {
    hide PersistAccount;
  }

  lemma RowSupersedes(row: Account, account: Account)
    requires row.balances != map[] && row.balances.Keys <= account.balances.Keys
    ensures account.balances != map[]
  {
    var x :| x in row.balances;
    assert x in account.balances;
  }

  /** Persisting at the row's version stores the account as it is, one version on. */
  lemma PersistAdvances(table: Accounts, account: Account)
    requires account.id in table && table[account.id].version == account.version
    requires table[account.id].balances.Keys <= account.balances.Keys
    ensures var p := PersistAccount(table, account);
            && p.err.None? && p.account == account.(version := account.version + 1)
            && p.table == table[account.id := account.(version := account.version + 1)]
  {
    assert table[account.id].balances + account.balances == account.balances;
  }

  /** An account is persisted exactly when it carries the stored version, zero for an account that is not
      stored. Then its row is one version on and holds its balances over those stored before; a conflict
      changes nothing, and no other row changes. */
  lemma PersistComparesVersion(table: Accounts, account: Account)
    ensures var p := PersistAccount(table, account);
            var stored := if account.id in table then table[account.id].version else 0;
            && (p.err.None? <==> account.version == stored)
            && (p.err.Some? ==> p.err.value == VersionConflict(account.id) && p.table == table && p.account == account)
            && (p.err.None? ==>
                  && p.table.Keys == table.Keys + {account.id}
                  && (forall a | a in table && a != account.id :: p.table[a] == table[a])
                  && p.account == account.(version := stored + 1)
                  && p.table[account.id].id == account.id && p.table[account.id].version == stored + 1
                  && forall x :: Bal(p.table, account.id, x) ==
                                 if x in account.balances then account.balances[x] else Bal(table, account.id, x))
  {
  }

  lemma SyncedKeys(s: State, changed: Accounts)
    requires Ahead(s.db.accounts, s.wallet, changed)
    ensures SyncAll(s, changed).wallet.Keys == s.wallet.Keys == SyncAll(s, changed).db.accounts.Keys
  {
    hide PersistAccount;
  }

  lemma BalAdvanced(w: Accounts, changed: Accounts, w': Accounts, a: string, x: string)
    requires w'.Keys == w.Keys && forall b | b in w :: w'[b] == Advanced(w, changed, b)
    ensures Bal(w', a, x) == Bal(w, a, x)
  {
  }

  /** Writing the snapshots back succeeds, makes the store what the wallet is, advances exactly
      their versions by one, and loses no balance. */
  lemma SyncAllAgrees(s: State, changed: Accounts)
    requires Ahead(s.db.accounts, s.wallet, changed)
    ensures NoConflict(s.db.accounts, changed)
    ensures var s' := SyncAll(s, changed);
            && s'.wallet == s'.db.accounts && s'.wallet.Keys == s.wallet.Keys
            && (forall a | a in s.wallet :: s'.wallet[a] == Advanced(s.wallet, changed, a))
            && (forall a | a in s.wallet ::
                  s'.wallet[a].id == a && s'.wallet[a].version >= 1 && s'.wallet[a].balances != map[])
            && (forall a, x :: Bal(s'.wallet, a, x) == Bal(s.wallet, a, x))
  {
    hide PersistAccount;
    hide Bal;
    hide SyncAll;
    hide Advanced;
    var s' := SyncAll(s, changed);
    SyncedKeys(s, changed);
    forall a | a in s.wallet
      ensures a in changed ==> changed[a].id == a && PersistAccount(s.db.accounts, changed[a]).err.None?
      ensures s'.wallet[a] == s'.db.accounts[a] == Advanced(s.wallet, changed, a)
      ensures s'.wallet[a].balances != map[] && s'.wallet[a].id == a && s'.wallet[a].version >= 1
    {
      SyncedAccount(s, changed, a);
    }
    assert s'.wallet == s'.db.accounts;
    forall a, x
      ensures Bal(s'.wallet, a, x) == Bal(s.wallet, a, x)
    {
      BalAdvanced(s.wallet, changed, s'.wallet, a, x);
    }
  }

  /** Syncing one account is syncing a set of one. */
  lemma SyncOneIsAll(s: State, account: Account)
    requires NoConflict(s.db.accounts, map[account.id := account])
    ensures SyncAccount(s, account) == (None, SyncAll(s, map[account.id := account]))
  {
    hide PersistAccount;
    hide PersistAll;
    hide Bumped;
    hide NoConflict;
    var p := PersistAccount(s.db.accounts, account);
    PersistOne(s.db.accounts, account);
    AddOne(s.wallet, p.account);
    AddOne(s.cache.accounts, p.account);
  }

  lemma PersistOne(table: Accounts, account: Account)
    requires NoConflict(table, map[account.id := account])
    ensures var p := PersistAccount(table, account);
            && p.err.None? && p.account.id == account.id
            && PersistAll(table, map[account.id := account]) == p.table
            && Bumped(table, map[account.id := account]) == map[account.id := p.account]
  {
    var changed := map[account.id := account];
    assert account.id in changed && changed[account.id] == account;
  }

  lemma AddOne(w: Accounts, account: Account)
    ensures w + map[account.id := account] == w[account.id := account]
  {
  }

  /** Cached accounts stay what the wallet holds when the changed ones are written to both. */
  lemma SyncAllCaches(s: State, w0: Accounts, changed: Accounts)
    requires Ahead(s.db.accounts, s.wallet, changed) && SameOutside(w0, s.wallet, changed.Keys)
             && w0.Keys <= s.wallet.Keys
    requires forall a | a in s.cache.accounts :: s.cache.accounts[a] == GetAccount(w0, a)
    ensures var s' := SyncAll(s, changed);
            forall a | a in s'.cache.accounts :: s'.cache.accounts[a] == GetAccount(s'.wallet, a)
  {
    SyncAllAgrees(s, changed);
  }

  // ----- an executed order's snapshots

  /** Every maker's account is in the wallet: it has something locked. */
  lemma MakersKnown(w: Accounts, sym: Symbol, b: Book, o: Order, i: nat)
    requires Ready(w, sym, b, o) && i < |Match(Stamped(b, o), Opposite(b, o.side)).fills|
    ensures Match(Stamped(b, o), Opposite(b, o.side)).fills[i].maker.account in w
  {
    hide Match;
    hide Bal;
    hide Sound;
    hide Ordered;
    hide Uncrossed;
    var t0, side := Stamped(b, o), Opposite(b, o.side);
    ReadyIsSound(w, sym, b, o);
    SideIsPositive(w, sym, t0, side);
    MatchHasShape(t0, side);
    var p := side[i];
    assert p in side && Resting(p, OtherSide(o.side), sym.name);
    RestingPresent(w, sym, b, o, p);
  }

  lemma RestingPresent(w: Accounts, sym: Symbol, b: Book, o: Order, p: Order)
    requires Ready(w, sym, b, o) && p in Opposite(b, o.side)
    ensures p.account in w
  {
    hide Bal;
    hide Ordered;
    hide Uncrossed;
    var a, x, side := p.account, LockAsset(sym, p.side), Opposite(b, o.side);
    assert Resting(p, OtherSide(o.side), sym.name);
    forall q | q in side
      ensures q.price > 0.0 && q.remaining >= 0.0
    {
      assert Resting(q, OtherSide(o.side), sym.name);
    }
    HeldWithinSum(sym, side, p, a, x);
    BookHeldNonNegative(sym, b, sym.name, a, x);
    StampedIsLive(b, o);
    HeldNonNegative(sym, Stamped(b, o), a, x);
    WantPositive(p.(reserved := 0.0));
    assert Bal(w, a, x).locked >= BookHeld(sym, b, a, x) + Held(sym, Stamped(b, o), a, x);
    LockedIsPresent(w, a, x);
  }

  lemma TakerPresent(w: Accounts, sym: Symbol, b: Book, o: Order)
    requires Ready(w, sym, b, o)
    ensures o.account in w && LockAsset(sym, o.side) in w[o.account].balances
  {
    hide Bal;
    hide Ordered;
    hide Uncrossed;
    var a, x := o.account, LockAsset(sym, o.side);
    BookHeldNonNegative(sym, b, sym.name, a, x);
    StampedIsLive(b, o);
    WantPositive(Stamped(b, o).(reserved := 0.0));
    assert Bal(w, a, x).locked >= BookHeld(sym, b, a, x) + Held(sym, Stamped(b, o), a, x);
    LockedIsPresent(w, a, x);
  }

  /** After an execution the recorded snapshots are the live accounts, they include everything
      that moved, and the wallet is ahead of the store by exactly them. */
  lemma ExecuteIsAhead(w: Accounts, sym: Symbol, b: Book, o: Order)
    requires Ready(w, sym, b, o)
    requires forall a | a in w :: w[a].id == a && w[a].version >= 1 && w[a].balances != map[]
    ensures var e := Execute(w, sym, b, o);
            Ahead(w, e.accounts, e.changed) && o.account in e.changed && SameOutside(w, e.accounts, e.changed.Keys)
  {
    hide Match;
    hide SettleFills;
    hide Snapshots;
    hide OnePhase;
    hide Bal;
    hide Sound;
    hide ReleaseRemaining;
    hide Grows;
    hide SameOutside;
    hide LiveSnapshots;
    hide BookOk;
    hide LockFor;
    var m := Match(Stamped(b, o), Opposite(b, o.side));
    var taker := WithStatus(m.taker);
    var first := map[o.account := GetAccount(w, o.account)];
    var x, taken := SettleFills(w, sym, taker, m.fills), Snapshots(w, sym, taker, m.fills, first);
    var e := Execute(w, sym, b, o);
    ExecuteIsRun(w, sym, b, o);
    TakerReleasesNothing(w, sym, b, o);
    ReadyIsSound(w, sym, b, o);
    TwoPhaseIsOnePhase(w, sym, Stamped(b, o), Opposite(b, o.side));
    MatchKeepsTaker(Stamped(b, o), Opposite(b, o.side));
    assert LiveSnapshots(first, w) by { FirstSnapshot(w, o.account); }
    SnapshotsAreLive(w, sym, taker, m.fills, first);
    assert e.accounts == x.accounts;
    assert e.changed == taken by {
      assert LiveSnapshots(taken, x.accounts);
      RetakenSnapshot(taken, x.accounts, o.account);
    }
    TakerPresent(w, sym, b, o);
    forall a | a in taken
      ensures a in w
    {
      if a != o.account {
        var i :| 0 <= i < |m.fills| && m.fills[i].maker.account == a;
        MakersKnown(w, sym, b, o, i);
      }
    }
    AheadFromFrame(w, x.accounts, taken);
  }

  lemma FirstSnapshot(w: Accounts, a: string)
    ensures LiveSnapshots(map[a := GetAccount(w, a)], w)
  {
  }

  /** Retaking a live snapshot changes nothing. */
  lemma RetakenSnapshot(taken: Accounts, w: Accounts, a: string)
    requires LiveSnapshots(taken, w) && a in taken
    ensures taken[a := GetAccount(w, a)] == taken
  {
  }

  lemma AheadFromFrame(w: Accounts, w': Accounts, taken: Accounts)
    requires LiveSnapshots(taken, w') && taken.Keys <= w.Keys && Grows(w, w') && SameOutside(w, w', taken.Keys)
    requires forall a | a in w :: w[a].id == a && w[a].version >= 1 && w[a].balances != map[]
    ensures Ahead(w, w', taken)
  {
  }

  lemma ExecuteCollects(w: Accounts, sym: Symbol, b: Book, o: Order, a: string)
    requires Execute(w, sym, b, o).err.None?
    ensures var fills := Match(Stamped(b, o), Opposite(b, o.side)).fills;
            a in Execute(w, sym, b, o).changed <==>
                 a == o.account || exists i | 0 <= i < |fills| :: fills[i].maker.account == a
  {
    hide Match;
    hide SettleFills;
    hide Snapshots;
    hide ReleaseRemaining;
    hide SettledBook;
    hide Grows;
    hide SameOutside;
    hide LiveSnapshots;
    hide GetAccount;
    var m := Match(Stamped(b, o), Opposite(b, o.side));
    var first := map[o.account := GetAccount(w, o.account)];
    assert LiveSnapshots(first, w) by { FirstSnapshot(w, o.account); }
    MatchKeepsTaker(Stamped(b, o), Opposite(b, o.side));
    SnapshotsAreLive(w, sym, WithStatus(m.taker), m.fills, first);
  }

  lemma MakersNamed(t: Order, makers: seq<Order>)
    requires PositiveRemaining(makers) && t.remaining >= 0.0
    ensures var fills := Match(t, makers).fills;
            forall i | 0 <= i < |fills| :: Trades(fills)[i].makerAccount == fills[i].maker.account
  {
    hide Match;
    MatchHasShape(t, makers);
  }

  /** An execution touches the account that placed the order and those it traded with, and no other. */
  lemma ExecuteTouches(w: Accounts, sym: Symbol, b: Book, o: Order, a: string)
    requires Ready(w, sym, b, o)
    ensures var e := Execute(w, sym, b, o);
            a in e.changed <==> a == o.account || exists i | 0 <= i < |e.trades| :: e.trades[i].makerAccount == a
  {
    hide Match;
    hide Execute;
    hide Ready;
    hide Sound;
    hide OnePhase;
    var fills := Match(Stamped(b, o), Opposite(b, o.side)).fills;
    ExecuteIsRun(w, sym, b, o);
    ExecuteSubmits(w, sym, b, o);
    ExecuteCollects(w, sym, b, o, a);
    ReadyIsSound(w, sym, b, o);
    SideIsPositive(w, sym, Stamped(b, o), Opposite(b, o.side));
    MakersNamed(Stamped(b, o), Opposite(b, o.side));
    var trades := Execute(w, sym, b, o).trades;
    assert forall i | 0 <= i < |fills| :: trades[i].makerAccount == fills[i].maker.account;
  }
}
