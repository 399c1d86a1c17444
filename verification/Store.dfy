/** The store's tables, the cache and the market data, as the exchange's collaborators. */
module Stores {
  import opened Domain
  import opened Machine
  import opened OrderBooks
  import opened Patching
  import opened Wallets

  class PostgresStore {
    var accounts: Accounts
    var orders: map<string, Order>
    var trades: seq<Trade>
    var audit: seq<AuditEvent>

    constructor ()
      ensures Value() == Db(map[], map[], [], [])
    {
      accounts, orders, trades, audit := map[], map[], [], [];
    }

    function Value(): Db
      reads this
    {
      Db(accounts, orders, trades, audit)
    }

    /** The version the account may be stored at, after checking the one it was read at. */
    method LockAndBumpAccountVersion(account: Account) returns (err: Option<Error>, version: int)
      modifies `accounts
      ensures err == Machine.PersistAccount(old(accounts), account).err
      ensures err.Some? ==> accounts == old(accounts)
      ensures err.None? ==>
                && version == Machine.PersistAccount(old(accounts), account).account.version
                && var rows := if account.id in old(accounts) then old(accounts)[account.id].balances else map[];
                accounts == old(accounts)[account.id := Account(account.id, version, rows)]
    {
      version := 0;
      if account.id !in accounts {
        if account.version != 0 {
          return Some(VersionConflict(account.id)), 0;
        }
        accounts := accounts[account.id := Account(account.id, 1, map[])];
        return None, 1;
      }
      var currentVersion := accounts[account.id].version;
      if currentVersion != account.version {
        return Some(VersionConflict(account.id)), 0;
      }
      var nextVersion := currentVersion + 1;
      accounts := accounts[account.id := Account(account.id, nextVersion, accounts[account.id].balances)];
      return None, nextVersion;
    }

    static method UpsertBalances(stored: map<string, Balance>, given: map<string, Balance>)
      returns (rows: map<string, Balance>)
      ensures rows == stored + given
    {
      hide Patched;
      hide Splits;
      rows := stored;
      SplitsFirst(given.Keys);
      var assets, done := given.Keys, {};
      PatchedNone(stored, given);
      while assets != {}
        invariant Splits(given.Keys, assets, done)
        invariant Patched(stored, given, done, rows)
        decreases |assets|
      {
        var asset :| asset in assets;
        SplitsNext(given.Keys, assets, done, asset);
        PatchedOneMore(stored, given, done, rows, asset);
        rows := rows[asset := given[asset]];
        assets, done := assets - {asset}, done + {asset};
      }
      SplitsLast(given.Keys, done);
      PatchedEnds(stored, given, done, rows);
    }

    /** One transaction: bump the version, then upsert the balance rows. */
    method PersistAccount(account: Account) returns (err: Option<Error>, persisted: Account)
      modifies `accounts
      ensures Persisted(err, accounts, persisted) == Machine.PersistAccount(old(accounts), account)
    {
      var version;
      err, version := LockAndBumpAccountVersion(account);
      if err.Some? {
        return err, account;
      }
      var rows := UpsertBalances(accounts[account.id].balances, account.balances);
      accounts := accounts[account.id := Account(account.id, version, rows)];
      persisted := account.(version := version);
      assert map[] + account.balances == account.balances;
    }

    static function Upsert(orders: map<string, Order>, o: Order): map<string, Order> {
      if o.id in orders then
        var row := orders[o.id].(remaining := o.remaining, reserved := o.reserved);
        orders[o.id := row.(sequence := o.sequence, status := o.status)]
      else orders[o.id := o]
    }

    /** A stored row keeps the order's identity and takes over its progress; a new one is the order itself. */
    static lemma UpsertTakesProgress(orders: map<string, Order>, o: Order)
      ensures var orders' := Upsert(orders, o);
              && orders'.Keys == orders.Keys + {o.id}
              && (forall id | id in orders && id != o.id :: orders'[id] == orders[id])
              && (o.id !in orders ==> orders'[o.id] == o)
              && var row := orders'[o.id];
              && row.remaining == o.remaining && row.reserved == o.reserved
              && row.sequence == o.sequence && row.status == o.status
              && (o.id in orders ==>
                    && row.id == orders[o.id].id && row.account == orders[o.id].account
                    && row.symbol == orders[o.id].symbol && row.side == orders[o.id].side
                    && row.price == orders[o.id].price && row.quantity == orders[o.id].quantity)
    {
    }

    method PersistOrder(order: LiveOrder)
      modifies `orders
      ensures orders == Upsert(old(orders), order.View())
    {
      if order.id in orders {
        var row := orders[order.id].(remaining := order.remaining, reserved := order.reserved);
        orders := orders[order.id := row.(sequence := order.sequence, status := order.status)];
      } else {
        orders := orders[order.id := order.View()];
      }
    }

    method PersistTrades(newTrades: seq<Trade>)
      modifies `trades
      ensures trades == old(trades) + newTrades
    {
      trades := trades + newTrades;
    }

    method PersistAudit(event: AuditEvent)
      modifies `audit
      ensures audit == old(audit) + [event]
    {
      audit := audit + [event];
    }

    /** A listing of the accounts with balance rows among the ids looked at. */
    static ghost predicate ListsAccounts(table: Accounts, done: set<string>, loaded: seq<Account>) {
      && (forall i, j | 0 <= i < j < |loaded| :: loaded[i].id != loaded[j].id)
      && (forall i | 0 <= i < |loaded| ::
            loaded[i].id in done && loaded[i].id in table && table[loaded[i].id] == loaded[i]
            && loaded[i].balances != map[])
      && (forall a | a in done && a in table
                     && table[a].balances != map[] :: exists i | 0 <= i < |loaded| :: loaded[i] == table[a])
    }

    static lemma ListOneMore(table: Accounts, done: set<string>, loaded: seq<Account>, id: string)
      requires ListsAccounts(table, done, loaded) && id in table && id !in done && table[id].id == id
      ensures ListsAccounts(table, done + {id}, if table[id].balances != map[] then loaded + [table[id]] else loaded)
    {
      var next := if table[id].balances != map[] then loaded + [table[id]] else loaded;
      forall a | a in done + {id} && a in table && table[a].balances != map[]
        ensures exists i | 0 <= i < |next| :: next[i] == table[a]
      {
        if a == id {
          assert next[|loaded|] == table[a];
        } else {
          var i :| 0 <= i < |loaded| && loaded[i] == table[a];
          assert next[i] == table[a];
        }
      }
    }

    /** The accounts that have balance rows, one entry each. */
    method LoadAccountRows() returns (loaded: seq<Account>)
      requires forall a | a in accounts :: accounts[a].id == a
      ensures ListsAccounts(accounts, accounts.Keys, loaded)
    {
      hide ListsAccounts;
      hide Splits;
      loaded := [];
      SplitsFirst(accounts.Keys);
      var ids, done := accounts.Keys, {};
      assert ListsAccounts(accounts, {}, []) by { ListNone(accounts); }
      while ids != {}
        invariant Splits(accounts.Keys, ids, done)
        invariant ListsAccounts(accounts, done, loaded)
        decreases |ids|
      {
        var id :| id in ids;
        SplitsNext(accounts.Keys, ids, done, id);
        ListOneMore(accounts, done, loaded, id);
        if accounts[id].balances != map[] {
          loaded := loaded + [accounts[id]];
        }
        ids, done := ids - {id}, done + {id};
      }
      SplitsLast(accounts.Keys, done);
    }

    static lemma ListNone(table: Accounts)
      ensures ListsAccounts(table, {}, [])
    {
    }

    static lemma {:induction false} ByIdLookup(loaded: seq<Account>)
      requires forall i, j | 0 <= i < j < |loaded| :: loaded[i].id != loaded[j].id
      ensures forall i | 0 <= i < |loaded| ::
                loaded[i].id in Wallet.ById(loaded) && Wallet.ById(loaded)[loaded[i].id] == loaded[i]
      ensures forall a | a in Wallet.ById(loaded) :: exists i | 0 <= i < |loaded| :: loaded[i].id == a
    {
      if loaded != [] {
        var n := |loaded| - 1;
        ByIdLookup(loaded[..n]);
        forall i | 0 <= i < |loaded|
          ensures loaded[i].id in Wallet.ById(loaded) && Wallet.ById(loaded)[loaded[i].id] == loaded[i]
        {
          if i < n { assert loaded[..n][i] == loaded[i]; }
        }
        forall a | a in Wallet.ById(loaded)
          ensures exists i | 0 <= i < |loaded| :: loaded[i].id == a
        {
          if a != loaded[n].id {
            var i :| 0 <= i < n && loaded[..n][i].id == a;
            assert loaded[i].id == a;
          }
        }
      }
    }

    /** A listing filed by id is the table without the accounts that have no balance rows. */
    static lemma ListingById(table: Accounts, loaded: seq<Account>)
      requires ListsAccounts(table, table.Keys, loaded) && forall a | a in table :: table[a].id == a
      ensures Wallet.ById(loaded) == LoadAccounts(table)
    {
      hide Wallet.ById;
      ByIdLookup(loaded);
      var filed, expected := Wallet.ById(loaded), LoadAccounts(table);
      forall a | a in filed
        ensures a in expected && filed[a] == expected[a]
      {
        var i :| 0 <= i < |loaded| && loaded[i].id == a;
      }
      forall a | a in expected
        ensures a in filed
      {
        var i :| 0 <= i < |loaded| && loaded[i] == table[a];
        assert loaded[i].id == a;
      }
    }

    /** A listing of the unfinished orders among the ids looked at. */
    static ghost predicate ListsOrders(table: map<string, Order>, done: set<string>, loaded: seq<Order>) {
      && (forall i, j | 0 <= i < j < |loaded| :: loaded[i].id != loaded[j].id)
      && (forall o | o in loaded :: o.id in done && o.id in table && table[o.id] == o && o.status != Filled)
      && (forall id | id in done && id in table && table[id].status != Filled :: table[id] in loaded)
    }

    static lemma ListOneMoreOrder(table: map<string, Order>, done: set<string>, loaded: seq<Order>, id: string)
      requires ListsOrders(table, done, loaded) && id in table && id !in done && table[id].id == id
      ensures ListsOrders(table, done + {id}, if table[id].status != Filled then loaded + [table[id]] else loaded)
    {
      assert forall i | 0 <= i < |loaded| :: loaded[i] in loaded;
    }

    /** The unfinished orders, each once. */
    method LoadOpenOrders() returns (loaded: seq<Order>)
      requires forall id | id in orders :: orders[id].id == id
      ensures OpenOrders(Value(), loaded)
    {
      hide ListsOrders;
      hide Splits;
      loaded := [];
      SplitsFirst(orders.Keys);
      var ids, done := orders.Keys, {};
      ListNoOrders(orders);
      while ids != {}
        invariant Splits(orders.Keys, ids, done)
        invariant ListsOrders(orders, done, loaded)
        decreases |ids|
      {
        var id :| id in ids;
        SplitsNext(orders.Keys, ids, done, id);
        ListOneMoreOrder(orders, done, loaded, id);
        if orders[id].status != Filled {
          loaded := loaded + [orders[id]];
        }
        ids, done := ids - {id}, done + {id};
      }
      SplitsLast(orders.Keys, done);
      ListedAreOpen(Value(), loaded);
    }

    static lemma ListNoOrders(table: map<string, Order>)
      ensures ListsOrders(table, {}, [])
    {
    }

    static lemma ListedAreOpen(db: Db, loaded: seq<Order>)
      requires ListsOrders(db.orders, db.orders.Keys, loaded)
      ensures OpenOrders(db, loaded)
    {
    }

    /** The first 1000 rows, or all there are. */
    method LoadTrades() returns (loaded: seq<Trade>)
      ensures loaded <= trades && |loaded| == if |trades| < 1000 then |trades| else 1000
      ensures loaded == FirstRows(trades)
    {
      var i := 0;
      loaded := [];
      while i < |trades| && i < RELOAD_LIMIT
        invariant i <= |trades| && i <= RELOAD_LIMIT && loaded == trades[..i]
      {
        loaded := loaded + [trades[i]];
        i := i + 1;
      }
      assert i == |trades| ==> loaded == trades;
    }
  }

  class CacheStore {
    var accounts: Accounts
    var books: map<string, Snapshot>
    var trades: map<string, seq<Trade>>

    constructor ()
      ensures Value() == Cache(map[], map[], map[])
    {
      accounts, books, trades := map[], map[], map[];
    }

    function Value(): Cache
      reads this
    {
      Cache(accounts, books, trades)
    }
  }

  class MarketData {
    var trades: map<string, seq<Trade>>

    constructor (loaded: seq<Trade>)
      ensures trades == Filed(loaded, map[])
    {
      trades := map[];
      new;
      Load(loaded);
    }

    method Load(loaded: seq<Trade>)
      modifies this
      ensures trades == Filed(loaded, old(trades))
    {
      ghost var goal := Filed(loaded, trades);
      assert loaded[0..] == loaded;
      for i := 0 to |loaded|
        invariant Filed(loaded[i..], trades) == goal
      {
        assert loaded[i..][0] == loaded[i] && loaded[i..][1..] == loaded[i + 1..];
        var symbol := loaded[i].symbol;
        trades := trades[symbol := (if symbol in trades then trades[symbol] else []) + [loaded[i]]];
      }
      assert loaded[|loaded|..] == [];
    }

    method Record(symbol: string, newTrades: seq<Trade>)
      modifies this
      ensures trades == Machine.Record(old(trades), symbol, newTrades)
    {
      if |newTrades| == 0 {
        return;
      }
      trades := trades[symbol := (if symbol in trades then trades[symbol] else []) + newTrades];
    }

    method Trades(symbol: string) returns (out: seq<Trade>)
      ensures out == MarketTrades(trades, symbol)
    {
      out := if symbol in trades then trades[symbol] else [];
    }
  }
}
