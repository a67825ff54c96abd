// The trade record of fo.py and the pure rules applied to one trade: how a
// new record is built, how realised P&L is computed, and when an LTP
// triggers an automatic close.

module Trades {
  import opened PyStr

  datatype OptionType = CE | PE

  datatype Status = Open | Closed

  datatype Option<T> = None | Some(value: T)

  /** One row of the blotter. Prices are premiums per unit, modelled as
      exact reals; `lotSize` and `lots` are Python ints. */
  datatype Trade = Trade(
    id: string,
    ts: string,
    symbol: string,
    optionType: OptionType,
    strike: real,
    expiry: string,
    lotSize: int,
    lots: int,
    entry: real,
    target: real,
    stop: real,
    autoClose: bool,
    status: Status,
    exitPrice: real,
    pnl: real)

  /** Builds the record the "Add Trade" button saves: the symbol is stripped
      and upper-cased, the expiry stripped, the trade starts OPEN with a zero
      exit price and a zero P&L. The id and timestamp are supplied by the
      caller. */
  function NewTrade(id: string, ts: string, symbol: string, optionType: OptionType,
                    strike: real, expiry: string, lotSize: int, lots: int,
                    entry: real, target: real, stop: real, autoClose: bool): (t: Trade)
    ensures t.status == Open && t.exitPrice == 0.0 && t.pnl == 0.0
    ensures t.id == id && t.ts == ts && t.symbol == Normalize(symbol) && t.expiry == Strip(expiry)
    ensures t.optionType == optionType && t.strike == strike && t.lotSize == lotSize && t.lots == lots
    ensures t.entry == entry && t.target == target && t.stop == stop && t.autoClose == autoClose
  {
    Trade(id, ts, Normalize(symbol), optionType, strike, Strip(expiry), lotSize, lots,
          entry, target, stop, autoClose, Open, 0.0, 0.0)
  }

  /** Realised P&L of a bought option sold at `exitPrice`: the premium
      difference times the units held. Calls and puts use the same formula.
      With at least one lot of at least one unit, the P&L is positive,
      negative or zero exactly as the exit is above, below or at the entry. */
  function Pnl(entry: real, exitPrice: real, lotSize: int, lots: int): (r: real)
    ensures lotSize >= 1 && lots >= 1 ==>
              (r > 0.0 <==> exitPrice > entry) && (r < 0.0 <==> exitPrice < entry)
              && (r == 0.0 <==> exitPrice == entry)
  {
    (exitPrice - entry) * lotSize as real * lots as real
  }

  /** The P&L of several lots is the per-lot P&L, `(exit - entry) * lot_size`,
      multiplied by the number of lots. */
  lemma PnlPerLot(entry: real, exitPrice: real, lotSize: int, lots: int)
    ensures Pnl(entry, exitPrice, lotSize, lots) == lots as real * Pnl(entry, exitPrice, lotSize, 1)
  {
  }

  /** The state a trade is in after `update_trade_exit` closes it at
      `exitPrice`; nothing but status, exit price and P&L changes. */
  function Close(t: Trade, exitPrice: real): (c: Trade)
    ensures c.status == Closed && c.exitPrice == exitPrice
    ensures c.pnl == Pnl(t.entry, exitPrice, t.lotSize, t.lots)
    ensures c.(status := t.status, exitPrice := t.exitPrice, pnl := t.pnl) == t
  {
    t.(status := Closed, exitPrice := exitPrice, pnl := Pnl(t.entry, exitPrice, t.lotSize, t.lots))
  }

  /** A record whose bookkeeping fields agree with its status: an OPEN trade
      has no exit and no P&L yet, a CLOSED one carries the P&L of its exit. */
  predicate Booked(t: Trade) {
    match t.status
    case Open => t.exitPrice == 0.0 && t.pnl == 0.0
    case Closed => t.pnl == Pnl(t.entry, t.exitPrice, t.lotSize, t.lots)
  }

  /** A freshly built record is booked: OPEN with no exit and no P&L. */
  lemma NewTradeBooked(id: string, ts: string, symbol: string, optionType: OptionType,
                       strike: real, expiry: string, lotSize: int, lots: int,
                       entry: real, target: real, stop: real, autoClose: bool)
    ensures Booked(NewTrade(id, ts, symbol, optionType, strike, expiry, lotSize, lots,
                            entry, target, stop, autoClose))
  {
  }

  /** Closing books the P&L of the exit price, for calls and puts alike. */
  lemma ClosedIsBooked(t: Trade, exitPrice: real)
    ensures Booked(Close(t, exitPrice))
    ensures Close(t.(optionType := CE), exitPrice).pnl == Close(t.(optionType := PE), exitPrice).pnl
  {
  }

  /** `hit_target`: the LTP has reached the target premium. Both option types
      branch to the same test. */
  function HitTarget(t: Trade, ltp: real): (r: bool)
    ensures r <==> ltp >= t.target
  {
    match t.optionType
    case CE => ltp >= t.target
    case PE => ltp >= t.target
  }

  /** `hit_stop`: a stop is configured (strictly positive) and the LTP has
      fallen to it. Both option types branch to the same test. */
  function HitStop(t: Trade, ltp: real): (r: bool)
    ensures r <==> t.stop > 0.0 && ltp <= t.stop
  {
    match t.optionType
    case CE => t.stop > 0.0 && ltp <= t.stop
    case PE => t.stop > 0.0 && ltp <= t.stop
  }

  datatype Decision = AtTarget | AtStop | Hold

  /** The choice `auto_close_if_hit` makes between the two triggers: the
      target wins when both hold; a zero stop never fires. */
  function Decide(t: Trade, ltp: real): (d: Decision)
    ensures d == AtTarget <==> ltp >= t.target
    ensures d == AtStop <==> ltp < t.target && t.stop > 0.0 && ltp <= t.stop
    ensures d == Hold <==> ltp < t.target && (t.stop <= 0.0 || ltp > t.stop)
  {
    if HitTarget(t, ltp) then AtTarget
    else if HitStop(t, ltp) then AtStop
    else Hold
  }

  /** Calls and puts are decided identically, whatever the option type. */
  lemma DecideIgnoresOptionType(t: Trade, ltp: real)
    ensures Decide(t.(optionType := CE), ltp) == Decide(t.(optionType := PE), ltp)
  {
  }

  /** With no stop configured (a zero stop) the stop never fires. */
  lemma ZeroStopNeverFires(t: Trade, ltp: real)
    requires t.stop == 0.0
    ensures Decide(t, ltp) != AtStop
    ensures Decide(t, ltp) == Hold <==> ltp < t.target
  {
  }

  /** The price at which the auto-close pass closes `t` for the snapshot
      `ltpMap`, or None when it leaves `t` alone: only OPEN trades with
      auto-close on and a quoted symbol are considered, and they close at
      the configured target or stop, never at the LTP itself. */
  function AutoExit(t: Trade, ltpMap: map<string, real>): (r: Option<real>)
    ensures r.Some? <==> t.status == Open && t.autoClose && t.symbol in ltpMap
                         && (ltpMap[t.symbol] >= t.target || (t.stop > 0.0 && ltpMap[t.symbol] <= t.stop))
    ensures r.Some? ==> r.value == t.target || r.value == t.stop
    ensures r.Some? && ltpMap[t.symbol] >= t.target ==> r.value == t.target
    ensures r.Some? && ltpMap[t.symbol] < t.target ==> r.value == t.stop && t.stop > 0.0
  {
    if t.status != Open || t.symbol !in ltpMap || !t.autoClose then None
    else match Decide(t, ltpMap[t.symbol])
      case AtTarget => Some(t.target)
      case AtStop => Some(t.stop)
      case Hold => None
  }
}
