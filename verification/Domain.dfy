/** The values the exchange computes with: orders, trades, balances, accounts and symbols,
    and what an order holds locked. Amounts are exact reals. */
module Domain {

  datatype Option<+T> = None | Some(value: T)

  datatype Error =
    | UnsupportedSymbol(name: string)
    | UnsupportedSide(raw: string)
    | PriceNotPositive
    | QuantityNotPositive
    | SymbolMismatch
    | InsufficientAvailable(asset: string)
    | InsufficientBalance(asset: string)
    | LockedUnderflow(asset: string)
    | AmountNotPositive
    | VersionConflict(account: string)

  datatype Side = BuySide | SellSide

  datatype Status = Open | PartiallyFilled | Filled

  datatype Symbol = Symbol(name: string, base: string, quote: string)

  /** A snapshot of one order; the live, shared record is the class LiveOrder. */
  datatype Order = Order(
    id: string, account: string, symbol: string, side: Side,
    price: real, quantity: real, remaining: real, reserved: real,
    sequence: int, status: Status)

  datatype Trade = Trade(
    symbol: string, price: real, quantity: real,
    makerOrder: string, takerOrder: string,
    makerAccount: string, takerAccount: string)

  datatype Balance = Balance(available: real, locked: real)

  datatype Account = Account(id: string, version: int, balances: map<string, Balance>)

  type Accounts = map<string, Account>

  const NO_BALANCE := Balance(0.0, 0.0)

  function Total(b: Balance): real {
    b.available + b.locked
  }

  /** The balance of an account in an asset; a missing account or entry reads as zero. */
  function Bal(w: Accounts, account: string, asset: string): Balance {
    if account in w && asset in w[account].balances then w[account].balances[asset] else NO_BALANCE
  }

  function StatusOf(o: Order): Status {
    if o.remaining == 0.0 then Filled
    else if o.remaining < o.quantity then PartiallyFilled
    else Open
  }

  /** The asset an order of this symbol locks: the quote asset for a buy, the base asset for a sell. */
  function LockAsset(sym: Symbol, side: Side): string {
    if side == BuySide then sym.quote else sym.base
  }

  function Notional(price: real, quantity: real): real {
    price * quantity
  }

  lemma NotionalSplits(price: real, a: real, b: real)
    ensures Notional(price, a + b) == Notional(price, a) + Notional(price, b)
    ensures Notional(price, a - b) == Notional(price, a) - Notional(price, b)
    ensures Notional(price, 0.0) == 0.0
  {
  }

  lemma NotionalMonotone(price: real, limit: real, quantity: real)
    requires quantity >= 0.0
    ensures price >= 0.0 ==> Notional(price, quantity) >= 0.0
    ensures price <= limit ==> Notional(price, quantity) <= Notional(limit, quantity)
  {
  }

  /** What `quantity` units of an order cost in its lock asset at the order's own limit. */
  function LockFor(o: Order, quantity: real): real {
    if o.side == BuySide then Notional(o.price, quantity) else quantity
  }

  function LockAmount(o: Order): real {
    LockFor(o, o.remaining)
  }

  /** The part of an account's locked balance that one order accounts for. */
  function Held(sym: Symbol, o: Order, account: string, asset: string): real {
    if o.account == account && LockAsset(sym, o.side) == asset then LockAmount(o) else 0.0
  }

  function SumHeld(sym: Symbol, os: seq<Order>, account: string, asset: string): real {
    if os == [] then 0.0 else Held(sym, os[0], account, asset) + SumHeld(sym, os[1..], account, asset)
  }

  lemma {:induction false} SumHeldConcat(sym: Symbol, s: seq<Order>, t: seq<Order>, account: string, asset: string)
    ensures SumHeld(sym, s + t, account, asset) == SumHeld(sym, s, account, asset) + SumHeld(sym, t, account, asset)
  {
    if s == [] {
      assert s + t == t;
    } else {
      assert (s + t)[0] == s[0] && (s + t)[1..] == s[1..] + t;
      SumHeldConcat(sym, s[1..], t, account, asset);
    }
  }

  lemma {:induction false} SumHeldNonNegative(sym: Symbol, s: seq<Order>, account: string, asset: string)
    requires forall o | o in s :: o.price > 0.0 && o.remaining >= 0.0
    ensures SumHeld(sym, s, account, asset) >= 0.0
  {
    if s != [] {
      SumHeldNonNegative(sym, s[1..], account, asset);
    }
  }

  /** What an account gains (or gives up, when negative) in an asset through one trade. */
  function Flow(sym: Symbol, tr: Trade, takerSide: Side, account: string, asset: string): real {
    var buyer := if takerSide == BuySide then tr.takerAccount else tr.makerAccount;
    var seller := if takerSide == BuySide then tr.makerAccount else tr.takerAccount;
    (if account == buyer && asset == sym.base then tr.quantity else 0.0)
    - (if account == buyer && asset == sym.quote then Notional(tr.price, tr.quantity) else 0.0)
    + (if account == seller && asset == sym.quote then Notional(tr.price, tr.quantity) else 0.0)
    - (if account == seller && asset == sym.base then tr.quantity else 0.0)
  }

  function SumFlow(sym: Symbol, trades: seq<Trade>, takerSide: Side, account: string, asset: string): real {
    if trades == [] then 0.0
    else Flow(sym, trades[0], takerSide, account, asset) + SumFlow(sym, trades[1..], takerSide, account, asset)
  }

  function SumQuantity(trades: seq<Trade>): real {
    if trades == [] then 0.0 else trades[0].quantity + SumQuantity(trades[1..])
  }

  function SumNotional(trades: seq<Trade>): real {
    if trades == [] then 0.0 else Notional(trades[0].price, trades[0].quantity) + SumNotional(trades[1..])
  }
}
