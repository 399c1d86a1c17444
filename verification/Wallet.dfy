/** The wallet service. Accounts are held by value: every account that crosses the service's
    boundary is cloned. */
module Wallets {
  import opened Domain
  import opened WalletModel
  import opened Recovery
  import opened OrderBooks

  class Wallet {
    var accounts: Accounts

    constructor (loaded: seq<Account>)
      ensures accounts == ById(loaded)
    {
      accounts := map[];
      new;
      for i := 0 to |loaded|
        invariant accounts == ById(loaded[..i])
      {
        assert loaded[..i + 1][..i] == loaded[..i];
        accounts := accounts[loaded[i].id := loaded[i]];
      }
      assert loaded[..|loaded|] == loaded;
    }

    static function ById(loaded: seq<Account>): Accounts {
      if loaded == [] then map[]
      else ById(loaded[..|loaded| - 1])[loaded[|loaded| - 1].id := loaded[|loaded| - 1]]
    }

    method EnsureAccount(id: string) returns (account: Account)
      modifies this
      ensures accounts == Ensure(old(accounts), id) && account == accounts[id]
    {
      if id !in accounts {
        accounts := accounts[id := Account(id, 0, map[])];
      }
      account := accounts[id];
    }

    /** account.Balances[asset], zero when there is no entry. */
    static function Entry(account: Account, asset: string): Balance {
      if asset in account.balances then account.balances[asset] else NO_BALANCE
    }

    method SetBalance(id: string, asset: string, b: Balance)
      requires id in accounts
      modifies this
      ensures accounts == Put(old(accounts), id, asset, b)
    {
      accounts := accounts[id := accounts[id].(balances := accounts[id].balances[asset := b])];
    }

    method Reserve(symbol: Symbol, order: LiveOrder) returns (err: Option<Error>)
      modifies this, order`reserved
      ensures var r := WalletModel.Reserve(old(accounts), symbol, old(order.View()));
              err == r.err && accounts == r.accounts && order.View() == r.order
    {
      hide Notional;
      var account := EnsureAccount(order.account);
      match order.side {
        case BuySide =>
          var required := Notional(order.price, order.quantity);
          var balance := Entry(account, symbol.quote);
          if balance.available < required {
            return Some(InsufficientBalance(symbol.quote));
          }
          SetBalance(order.account, symbol.quote, Balance(balance.available - required, balance.locked + required));
          order.reserved := required;
        case SellSide =>
          var required := order.quantity;
          var balance := Entry(account, symbol.base);
          if balance.available < required {
            return Some(InsufficientBalance(symbol.base));
          }
          SetBalance(order.account, symbol.base, Balance(balance.available - required, balance.locked + required));
          order.reserved := required;
      }
      err := None;
    }

    method Settle(symbol: Symbol, order: LiveOrder, tradePrice: real, tradeQty: real) returns (err: Option<Error>)
      modifies this
      ensures (err, accounts) == WalletModel.Settle(old(accounts), symbol, order.View(), tradePrice, tradeQty)
    {
      hide Notional;
      var account := EnsureAccount(order.account);
      match order.side {
        case BuySide =>
          var quoteLocked := Entry(account, symbol.quote);
          var reservedCost := Notional(order.price, tradeQty);
          var actualCost := Notional(tradePrice, tradeQty);
          var refund := reservedCost - actualCost;
          if quoteLocked.locked < reservedCost {
            return Some(LockedUnderflow(symbol.quote));
          }
          SetBalance(order.account, symbol.quote,
                     Balance(quoteLocked.available + refund, quoteLocked.locked - reservedCost));
          var baseBalance := Entry(accounts[order.account], symbol.base);
          SetBalance(order.account, symbol.base, Balance(baseBalance.available + tradeQty, baseBalance.locked));
        case SellSide =>
          var baseLocked := Entry(account, symbol.base);
          if baseLocked.locked < tradeQty {
            return Some(LockedUnderflow(symbol.base));
          }
          SetBalance(order.account, symbol.base, Balance(baseLocked.available, baseLocked.locked - tradeQty));
          var quoteBalance := Entry(accounts[order.account], symbol.quote);
          SetBalance(order.account, symbol.quote,
                     Balance(quoteBalance.available + Notional(tradePrice, tradeQty), quoteBalance.locked));
      }
      err := None;
    }

    method ReleaseRemaining(symbol: Symbol, order: LiveOrder)
      modifies this, order`reserved
      ensures (accounts, order.View()) == WalletModel.ReleaseRemaining(old(accounts), symbol, old(order.View()))
    {
      if order.remaining > 0.0 {
        return;
      }
      var account := EnsureAccount(order.account);
      var asset := if order.side == BuySide then symbol.quote else symbol.base;
      var balance := Entry(account, asset);
      if balance.locked < order.reserved {
        order.reserved := balance.locked;
      }
      SetBalance(order.account, asset, Balance(balance.available + order.reserved, balance.locked - order.reserved));
      order.reserved := 0.0;
    }

    static method AdjustRemainingReservation(order: LiveOrder, consumed: real)
      modifies order`reserved
      ensures order.View() == AdjustRemaining(old(order.View()), consumed)
    {
      order.reserved := order.reserved - consumed;
      if order.reserved < 0.0 {
        order.reserved := 0.0;
      }
    }

    method GetAccount(id: string) returns (account: Account)
      ensures account == WalletModel.GetAccount(accounts, id)
    {
      if id !in accounts {
        return Account(id, 0, map[]);
      }
      account := accounts[id];
    }

    method ReplaceAccount(account: Account)
      modifies this
      ensures accounts == old(accounts)[account.id := account]
    {
      accounts := accounts[account.id := account];
    }

    // ----- recovery

    /** The first loop's work on one order: move its key's lock back to available. */
    method FreeLock(symbols: Symbols, order: LiveOrder) returns (key: (string, string))
      requires order.symbol in symbols
      modifies this
      ensures accounts == FreeOne(old(accounts), symbols, order.View())
      ensures key == (order.account, LockAsset(symbols[order.symbol], order.side))
    {
      var account := EnsureAccount(order.account);
      var asset := LockAsset(symbols[order.symbol], order.side);
      var balance := Entry(account, asset);
      SetBalance(order.account, asset, Balance(balance.available + balance.locked, balance.locked - balance.locked));
      key := (order.account, asset);
    }

    /** The second loop's work on one order: lock what it wants, as far as there is any. */
    method LockAgain(symbols: Symbols, order: LiveOrder)
      requires order.symbol in symbols
      modifies this, order`reserved
      ensures (accounts, order.View()) == LockOne(old(accounts), symbols, old(order.View()))
    {
      hide Notional;
      var account := EnsureAccount(order.account);
      var asset := LockAsset(symbols[order.symbol], order.side);
      var balance := Entry(account, asset);
      var lockAmount := order.reserved;
      if lockAmount <= 0.0 {
        lockAmount := if order.side == BuySide then Notional(order.price, order.remaining) else order.remaining;
      }
      if lockAmount > balance.available {
        lockAmount := balance.available;
      }
      SetBalance(order.account, asset, Balance(balance.available - lockAmount, balance.locked + lockAmount));
      order.reserved := lockAmount;
    }

    /** The first loop: all locks the orders stand on are freed. */
    method FreeLocks(symbols: Symbols, orders: seq<LiveOrder>) returns (affected: set<(string, string)>)
      modifies this
      ensures accounts == FreeAll(old(accounts), symbols, Views(orders))
      ensures forall a, x :: (a, x) in affected <==> Affected(symbols, Views(orders), a, x)
    {
      hide Views;
      hide FreeOne;
      affected := {};
      ghost var os := Views(orders);
      assert os[0..] == os;
      for i := 0 to |orders|
        invariant FreeAll(accounts, symbols, os[i..]) == FreeAll(old(accounts), symbols, os)
        invariant forall a, x :: (a, x) in affected <==> Affected(symbols, os[..i], a, x)
      {
        assert os[i..][0] == os[i] && os[i..][1..] == os[i + 1..];
        AffectedSnoc(symbols, os, i);
        if orders[i].symbol in symbols {
          var key := FreeLock(symbols, orders[i]);
          affected := affected + {key};
        } else {
          assert FreeOne(accounts, symbols, os[i]) == accounts by { FreeUnknown(accounts, symbols, os[i]); }
        }
      }
      assert os[..|orders|] == os && os[|orders|..] == [];
    }

    static lemma FreeUnknown(w: Accounts, symbols: Symbols, o: Order)
      requires o.symbol !in symbols
      ensures FreeOne(w, symbols, o) == w && LockOne(w, symbols, o) == (w, o)
    {
    }

    static lemma AffectedSnoc(symbols: Symbols, os: seq<Order>, i: nat)
      requires i < |os|
      ensures forall a, x :: Affected(symbols, os[..i + 1], a, x) <==>
                             Affected(symbols, os[..i], a, x) || OnKey(symbols, os[i], a, x)
    {
      forall a, x
        ensures Affected(symbols, os[..i + 1], a, x) <==>
                Affected(symbols, os[..i], a, x) || OnKey(symbols, os[i], a, x)
      {
        if Affected(symbols, os[..i], a, x) {
          var k :| 0 <= k < i && OnKey(symbols, os[..i][k], a, x);
          assert os[..i + 1][k] == os[..i][k];
        }
        if OnKey(symbols, os[i], a, x) {
          assert os[..i + 1][i] == os[i];
        }
      }
    }

    /** The second loop's invariant: what is locked so far, followed by what locking the rest
        would still do, is the specified result. */
    static ghost predicate Relocking(r: Rebuilt, accounts: Accounts, symbols: Symbols, os: seq<Order>,
                                     shown: seq<Order>, i: nat) {
      && i <= |os| == |shown|
      && shown[i..] == os[i..]
      && var now := LockAll(accounts, symbols, os[i..]);
      r == Rebuilt(now.accounts, shown[..i] + now.orders)
    }

    static lemma RelockingBegins(accounts: Accounts, symbols: Symbols, os: seq<Order>)
      ensures Relocking(LockAll(accounts, symbols, os), accounts, symbols, os, os, 0)
    {
      assert os[0..] == os;
    }

    static lemma RelockingStep(r: Rebuilt, accounts: Accounts, symbols: Symbols, os: seq<Order>, shown: seq<Order>,
                               i: nat)
      requires Relocking(r, accounts, symbols, os, shown, i) && i < |os|
      ensures shown[i] == os[i]
      ensures var (accounts', o') := LockOne(accounts, symbols, os[i]);
              Relocking(r, accounts', symbols, os, shown[i := o'], i + 1)
    {
      hide LockOne;
      var (accounts', o') := LockOne(accounts, symbols, os[i]);
      assert os[i..][0] == os[i] && os[i..][1..] == os[i + 1..];
      assert shown[i..][0] == shown[i] && shown[i..][1..] == shown[i + 1..];
      assert shown[i := o'][i + 1..] == shown[i + 1..];
      var now, next := LockAll(accounts, symbols, os[i..]), LockAll(accounts', symbols, os[i + 1..]);
      assert shown[..i] + now.orders == shown[i := o'][..i + 1] + next.orders;
    }

    static lemma RelockingEnds(r: Rebuilt, accounts: Accounts, symbols: Symbols, os: seq<Order>, shown: seq<Order>)
      requires Relocking(r, accounts, symbols, os, shown, |os|)
      ensures r == Rebuilt(accounts, shown)
    {
      assert shown[..|os|] == shown;
    }

    /** The second loop: the orders' reservations are locked again, in turn. */
    method LockOrders(symbols: Symbols, orders: seq<LiveOrder>)
      requires NoDuplicates(orders)
      modifies this, orders`reserved
      ensures Rebuilt(accounts, Views(orders)) == LockAll(old(accounts), symbols, old(Views(orders)))
    {
      hide Views;
      hide LockOne;
      hide LockAll;
      hide Relocking;
      ghost var os := Views(orders);
      ghost var r := LockAll(accounts, symbols, os);
      RelockingBegins(accounts, symbols, os);
      for i := 0 to |orders|
        invariant Relocking(r, accounts, symbols, os, Views(orders), i)
      {
        RelockingStep(r, accounts, symbols, os, Views(orders), i);
        ghost var shown := Views(orders);
        if orders[i].symbol in symbols {
          LockAgain(symbols, orders[i]);
        } else {
          FreeUnknown(accounts, symbols, os[i]);
        }
        assert Views(orders) == shown[i := orders[i].View()];
      }
      RelockingEnds(r, accounts, symbols, os, Views(orders));
    }

    /** Clones of the accounts with an affected key, each once. */
    method CollectAffected(affected: set<(string, string)>) returns (changed: Accounts)
      requires forall k | k in affected :: k.0 in accounts
      ensures changed == map a | a in accounts && (exists k :: k in affected && k.0 == a) :: accounts[a]
    {
      changed := map[];
      var keys, done := affected, {};
      while keys != {}
        invariant keys + done == affected
        invariant changed == map a | a in accounts && (exists k :: k in done && k.0 == a) :: accounts[a]
        decreases |keys|
      {
        var key :| key in keys;
        if key.0 !in changed {
          changed := changed[key.0 := accounts[key.0]];
        }
        keys, done := keys - {key}, done + {key};
      }
    }

    method RebuildReservations(symbols: Symbols, orders: seq<LiveOrder>) returns (changed: Accounts)
      requires NoDuplicates(orders)
      modifies this, orders`reserved
      ensures Rebuilt(accounts, Views(orders)) == Rebuild(old(accounts), symbols, old(Views(orders)))
      ensures changed == map a | a in accounts && AccountAffected(symbols, old(Views(orders)), a) :: accounts[a]
    {
      hide Views;
      hide FreeAll;
      hide LockAll;
      hide Affected;
      hide AccountAffected;
      ghost var os := Views(orders);
      var affected := FreeLocks(symbols, orders);
      LockOrders(symbols, orders);
      RebuiltHasKeys(old(accounts), symbols, os);
      changed := CollectAffected(affected);
      forall a | a in accounts
        ensures (exists k :: k in affected && k.0 == a) <==> AccountAffected(symbols, os, a)
      {
        AffectedAccounts(symbols, os, a);
        if k :| k in affected && k.0 == a {
          assert (k.0, k.1) in affected;
        }
        if x :| Affected(symbols, os, a, x) {
          assert (a, x) in affected && (a, x).0 == a;
        }
      }
    }

    static lemma RebuiltHasKeys(w: Accounts, symbols: Symbols, os: seq<Order>)
      ensures forall a, x | Affected(symbols, os, a, x) :: a in Rebuild(w, symbols, os).accounts
    {
      hide LockAll;
      FreeAllMakesPresent(w, symbols, os);
      LockAllShape(FreeAll(w, symbols, os), symbols, os);
    }
  }
}
