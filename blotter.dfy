// The trade blotter of fo.py: an ordered list of trade records that
// `save_trade` appends to, `update_trade_exit` closes one record of, and
// `auto_close_if_hit` walks to close every record whose trigger an LTP
// snapshot hits.

module Blotter {
  import opened Trades

  /** No two records share an id. fo.py draws ids as the first 8 characters
      of a uuid4 and never checks this. */
  predicate UniqueIds(ts: seq<Trade>) {
    forall i, j :: 0 <= i < j < |ts| ==> ts[i].id != ts[j].id
  }

  /** Every record's exit price and P&L agree with its status. */
  predicate AllBooked(ts: seq<Trade>) {
    forall i :: 0 <= i < |ts| ==> Booked(ts[i])
  }

  /** `after` is `before` or, when `before` was OPEN, `before` closed at some
      price: the only change any operation makes to an existing record. */
  predicate Evolves(before: Trade, after: Trade) {
    after == before || (before.status == Open && after == Close(before, after.exitPrice))
  }

  /** The position of the record `update_trade_exit` finds: the first one
      with id `id` that is still OPEN. */
  function FirstOpen(ts: seq<Trade>, id: string): (r: Option<nat>)
    ensures r.Some? ==> r.value < |ts| && ts[r.value].id == id && ts[r.value].status == Open
    ensures r.Some? ==> forall j :: 0 <= j < r.value ==> !(ts[j].id == id && ts[j].status == Open)
    ensures r.None? <==> forall j :: 0 <= j < |ts| ==> !(ts[j].id == id && ts[j].status == Open)
  {
    if ts == [] then None
    else if ts[0].id == id && ts[0].status == Open then Some(0)
    else match FirstOpen(ts[1..], id)
      case None => None
      case Some(i) => Some(i + 1)
  }

  /** The list after `update_trade_exit(id, exitPrice)`: the first OPEN record
      with that id is closed at `exitPrice`; with no such record nothing
      changes. */
  function CloseFirst(ts: seq<Trade>, id: string, exitPrice: real): (r: seq<Trade>)
    ensures |r| == |ts|
    ensures FirstOpen(ts, id).None? ==> r == ts
    ensures FirstOpen(ts, id).Some? ==>
              r[FirstOpen(ts, id).value] == Close(ts[FirstOpen(ts, id).value], exitPrice)
    ensures forall j :: 0 <= j < |ts| && Some(j) != FirstOpen(ts, id) ==> r[j] == ts[j]
  {
    match FirstOpen(ts, id)
    case None => ts
    case Some(i) => ts[i := Close(ts[i], exitPrice)]
  }

  /** Closing changes at most one record, only by closing an OPEN one, and
      leaves every CLOSED record exactly as it was. */
  lemma CloseFirstEvolves(ts: seq<Trade>, id: string, exitPrice: real)
    ensures forall j :: 0 <= j < |ts| ==> Evolves(ts[j], CloseFirst(ts, id, exitPrice)[j])
    ensures forall j :: 0 <= j < |ts| && ts[j].status == Closed ==> CloseFirst(ts, id, exitPrice)[j] == ts[j]
  {
  }

  /** With unique ids an OPEN record is the one its own id finds. */
  lemma FirstOpenOwnId(ts: seq<Trade>, k: nat)
    requires UniqueIds(ts) && k < |ts| && ts[k].status == Open
    ensures FirstOpen(ts, ts[k].id) == Some(k)
  {
  }

  /** Closing a record a second time is refused: with unique ids, a repeated
      close of the same id changes nothing, whatever the new price. */
  lemma CloseTwiceIsCloseOnce(ts: seq<Trade>, id: string, p: real, q: real)
    requires UniqueIds(ts)
    ensures CloseFirst(CloseFirst(ts, id, p), id, q) == CloseFirst(ts, id, p)
  {
  }

  /** One turn of the loop in `auto_close_if_hit`, at position `k` of the
      live list: the record there is examined as it is now, and a trigger
      closes the first OPEN record carrying its id. */
  function Step(ts: seq<Trade>, ltpMap: map<string, real>, k: nat): (r: seq<Trade>)
    requires k < |ts|
    ensures |r| == |ts|
  {
    match AutoExit(ts[k], ltpMap)
    case None => ts
    case Some(price) => CloseFirst(ts, ts[k].id, price)
  }

  /** The loop of `auto_close_if_hit` from position `k` to the end. */
  function PassFrom(ts: seq<Trade>, ltpMap: map<string, real>, k: nat): (r: seq<Trade>)
    requires k <= |ts|
    ensures |r| == |ts|
    decreases |ts| - k
  {
    if k == |ts| then ts else PassFrom(Step(ts, ltpMap, k), ltpMap, k + 1)
  }

  /** The list after `auto_close_if_hit(ltpMap)`. */
  function AutoClosed(ts: seq<Trade>, ltpMap: map<string, real>): (r: seq<Trade>)
    ensures |r| == |ts|
  {
    PassFrom(ts, ltpMap, 0)
  }

  /** What the pass does to a single record when ids are unique: close it at
      the price `AutoExit` picks, or leave it. */
  function Settle(t: Trade, ltpMap: map<string, real>): Trade {
    match AutoExit(t, ltpMap)
    case None => t
    case Some(price) => Close(t, price)
  }

  lemma EvolvesTransitive(a: Trade, b: Trade, c: Trade)
    requires Evolves(a, b) && Evolves(b, c)
    ensures Evolves(a, c)
  {
  }

  /** Whatever the ids, the pass only closes OPEN records: a CLOSED record is
      never reopened, repriced or rebooked. */
  lemma {:induction false} PassFromEvolves(ts: seq<Trade>, ltpMap: map<string, real>, k: nat)
    requires k <= |ts|
    ensures forall j :: 0 <= j < |ts| ==> Evolves(ts[j], PassFrom(ts, ltpMap, k)[j])
    decreases |ts| - k
  {
    if k < |ts| {
      var next := Step(ts, ltpMap, k);
      match AutoExit(ts[k], ltpMap) {
        case None =>
          assert next == ts;
        case Some(price) =>
          assert next == CloseFirst(ts, ts[k].id, price);
          CloseFirstEvolves(ts, ts[k].id, price);
      }
      assert forall j :: 0 <= j < |ts| ==> Evolves(ts[j], next[j]);
      PassFromEvolves(next, ltpMap, k + 1);
      var last := PassFrom(next, ltpMap, k + 1);
      assert PassFrom(ts, ltpMap, k) == last;
      forall j | 0 <= j < |ts| ensures Evolves(ts[j], last[j]) {
        EvolvesTransitive(ts[j], next[j], last[j]);
      }
    }
  }

  /** CLOSED is terminal under the auto-close pass, and the pass keeps every
      record's P&L in agreement with its exit price. */
  lemma AutoClosedKeepsClosed(ts: seq<Trade>, ltpMap: map<string, real>)
    ensures forall j :: 0 <= j < |ts| && ts[j].status == Closed ==> AutoClosed(ts, ltpMap)[j] == ts[j]
    ensures forall j :: 0 <= j < |ts| && AutoClosed(ts, ltpMap)[j].status == Open ==> AutoClosed(ts, ltpMap)[j] == ts[j]
    ensures AllBooked(ts) ==> AllBooked(AutoClosed(ts, ltpMap))
  {
    PassFromEvolves(ts, ltpMap, 0);
  }

  /** With unique ids, one turn of the loop settles exactly the record at `k`
      and leaves the ids unique. */
  lemma StepSettles(ts: seq<Trade>, ltpMap: map<string, real>, k: nat)
    requires UniqueIds(ts) && k < |ts|
    ensures Step(ts, ltpMap, k) == ts[k := Settle(ts[k], ltpMap)]
    ensures UniqueIds(Step(ts, ltpMap, k))
  {
  }

  /** With unique ids, the pass from `k` settles every record from `k` on
      and leaves the ones before `k` as they are. */
  lemma {:induction false} PassFromSettles(ts: seq<Trade>, ltpMap: map<string, real>, k: nat)
    requires UniqueIds(ts) && k <= |ts|
    ensures forall j :: 0 <= j < k ==> PassFrom(ts, ltpMap, k)[j] == ts[j]
    ensures forall j :: k <= j < |ts| ==> PassFrom(ts, ltpMap, k)[j] == Settle(ts[j], ltpMap)
    decreases |ts| - k
  {
    if k < |ts| {
      var next := Step(ts, ltpMap, k);
      StepSettles(ts, ltpMap, k);
      PassFromSettles(next, ltpMap, k + 1);
      assert PassFrom(ts, ltpMap, k) == PassFrom(next, ltpMap, k + 1);
      forall j | k < j < |ts| ensures PassFrom(ts, ltpMap, k)[j] == Settle(ts[j], ltpMap) {
        assert next[j] == ts[j];
      }
    }
  }

  /** With unique ids the pass treats every record on its own: record `j`
      afterwards is `Settle` of record `j` before. */
  lemma AutoClosedSettles(ts: seq<Trade>, ltpMap: map<string, real>)
    requires UniqueIds(ts)
    ensures forall j :: 0 <= j < |ts| ==> AutoClosed(ts, ltpMap)[j] == Settle(ts[j], ltpMap)
  {
    PassFromSettles(ts, ltpMap, 0);
  }

  /** The pass leaves a record alone when it is not OPEN, when its symbol
      has no LTP, or when its auto-close flag is off. */
  lemma AutoClosedSkips(ts: seq<Trade>, ltpMap: map<string, real>, j: nat)
    requires UniqueIds(ts) && j < |ts|
    requires ts[j].status != Open || ts[j].symbol !in ltpMap || !ts[j].autoClose
    ensures AutoClosed(ts, ltpMap)[j] == ts[j]
  {
    AutoClosedSettles(ts, ltpMap);
  }

  /** Target first: an OPEN, auto-closing record whose LTP reached the
      target is closed at exactly the target, even if the stop also holds. */
  lemma AutoClosedAtTarget(ts: seq<Trade>, ltpMap: map<string, real>, j: nat)
    requires UniqueIds(ts) && j < |ts|
    requires ts[j].status == Open && ts[j].autoClose && ts[j].symbol in ltpMap
    requires ltpMap[ts[j].symbol] >= ts[j].target
    ensures AutoClosed(ts, ltpMap)[j] == Close(ts[j], ts[j].target)
    ensures AutoClosed(ts, ltpMap)[j].pnl == (ts[j].target - ts[j].entry) * ts[j].lotSize as real * ts[j].lots as real
  {
    AutoClosedSettles(ts, ltpMap);
  }

  /** Otherwise a configured stop that the LTP reached closes the record at
      exactly the stop; if neither trigger holds the record stays as it is. */
  lemma AutoClosedAtStopOrHeld(ts: seq<Trade>, ltpMap: map<string, real>, j: nat)
    requires UniqueIds(ts) && j < |ts|
    requires ts[j].status == Open && ts[j].autoClose && ts[j].symbol in ltpMap
    requires ltpMap[ts[j].symbol] < ts[j].target
    ensures ts[j].stop > 0.0 && ltpMap[ts[j].symbol] <= ts[j].stop ==>
              AutoClosed(ts, ltpMap)[j] == Close(ts[j], ts[j].stop)
    ensures !(ts[j].stop > 0.0 && ltpMap[ts[j].symbol] <= ts[j].stop) ==>
              AutoClosed(ts, ltpMap)[j] == ts[j]
  {
    AutoClosedSettles(ts, ltpMap);
  }

  /** Applying the same snapshot twice closes nothing more than applying it
      once: what the first pass left OPEN it decided to hold. */
  lemma AutoClosedIdempotent(ts: seq<Trade>, ltpMap: map<string, real>)
    requires UniqueIds(ts)
    ensures AutoClosed(AutoClosed(ts, ltpMap), ltpMap) == AutoClosed(ts, ltpMap)
  {
    var once := AutoClosed(ts, ltpMap);
    AutoClosedSettles(ts, ltpMap);
    assert UniqueIds(once) by {
      forall i, j | 0 <= i < j < |once| ensures once[i].id != once[j].id {
        assert once[i].id == ts[i].id && once[j].id == ts[j].id;
      }
    }
    AutoClosedSettles(once, ltpMap);
  }

  /** Without unique ids the pass can close the wrong record: here two OPEN
      records share id "a1b2c3d4"; the first has auto-close off, the second
      reaches its target. The second's trigger closes the first, at the
      second's target, and the second stays OPEN. */
  lemma DuplicateIdClosesOtherRecord()
    ensures var a := Trade("a1b2c3d4", "2025-08-14 09:20:00", "MIDCPNIFTY", CE, 14000.0, "14-Aug-2025",
                           140, 1, 2.4, 3.1, 0.0, false, Open, 0.0, 0.0);
            var b := Trade("a1b2c3d4", "2025-08-14 09:21:00", "MIDCPNIFTY", PE, 13000.0, "14-Aug-2025",
                           140, 1, 2.0, 2.5, 0.0, true, Open, 0.0, 0.0);
            var after := AutoClosed([a, b], map["MIDCPNIFTY" := 3.0]);
            after[0] == Close(a, 2.5) && after[1] == b
  {
  }

  /** A call bought at 2.40 with target 3.00 and stop 2.00, 140 units: an
      LTP of 2.00 closes it at the stop for a loss of 56, an LTP of 3.00
      closes it at the target for a profit of 84, an LTP of 2.50 holds. */
  lemma StopAndTargetScenario()
    ensures var t := Trade("9f3c1e2a", "2025-08-14 09:20:00", "MIDCPNIFTY", CE, 14000.0, "14-Aug-2025",
                           140, 1, 2.4, 3.0, 2.0, true, Open, 0.0, 0.0);
            AutoClosed([t], map["MIDCPNIFTY" := 2.0]) == [Close(t, 2.0)]
            && Close(t, 2.0).pnl == -56.0
            && AutoClosed([t], map["MIDCPNIFTY" := 3.0]) == [Close(t, 3.0)]
            && Close(t, 3.0).pnl == 84.0
            && AutoClosed([t], map["MIDCPNIFTY" := 2.5]) == [t]
  {
  }

  /** The in-memory blotter (`st.session_state.trades`). */
  class Ledger {
    var trades: seq<Trade>

    /** `init_state`: the blotter starts empty. */
    constructor ()
      ensures trades == []
    {
      trades := [];
    }

    /** `save_trade`: append the record at the end, keeping every earlier
        record and their order. */
    method Save(t: Trade)
      modifies this
      ensures trades == old(trades) + [t]
      ensures |trades| == |old(trades)| + 1 && trades[|trades| - 1] == t
      ensures forall j :: 0 <= j < |old(trades)| ==> trades[j] == old(trades)[j]
    {
      trades := trades + [t];
    }

    /** The "Add Trade" button: build a fresh OPEN record and save it. A new
        id keeps the ids unique, and the new record is booked. */
    method AddTrade(id: string, ts: string, symbol: string, optionType: OptionType,
                    strike: real, expiry: string, lotSize: int, lots: int,
                    entry: real, target: real, stop: real, autoClose: bool)
      modifies this
      ensures trades == old(trades) + [NewTrade(id, ts, symbol, optionType, strike, expiry,
                                                lotSize, lots, entry, target, stop, autoClose)]
      ensures (UniqueIds(old(trades)) && forall j :: 0 <= j < |old(trades)| ==> old(trades)[j].id != id)
                ==> UniqueIds(trades)
      ensures AllBooked(old(trades)) ==> AllBooked(trades)
    {
      var t := NewTrade(id, ts, symbol, optionType, strike, expiry, lotSize, lots,
                        entry, target, stop, autoClose);
      Save(t);
    }

    /** `update_trade_exit`: scan for the first OPEN record with this id and
        close it at `exitPrice`; a missing id or an already CLOSED record
        leaves the blotter unchanged. */
    method CloseTrade(id: string, exitPrice: real)
      modifies this
      ensures trades == CloseFirst(old(trades), id, exitPrice)
      ensures forall j :: 0 <= j < |trades| ==> Evolves(old(trades)[j], trades[j])
    {
      var i := 0;
      while i < |trades|
        invariant 0 <= i <= |trades| && trades == old(trades)
        invariant forall j :: 0 <= j < i ==> !(trades[j].id == id && trades[j].status == Open)
      {
        if trades[i].id == id && trades[i].status == Open {
          trades := trades[i := Close(trades[i], exitPrice)];
          break;
        }
        i := i + 1;
      }
      CloseFirstEvolves(old(trades), id, exitPrice);
    }

    /** `auto_close_if_hit`: walk the blotter in order; for each OPEN record
        whose symbol is quoted and whose auto-close flag is on, close it at
        the target if the LTP reached it, else at the stop if a stop is set
        and the LTP fell to it. */
    method AutoClose(ltpMap: map<string, real>)
      modifies this
      ensures trades == AutoClosed(old(trades), ltpMap)
      ensures UniqueIds(old(trades)) ==>
                forall j :: 0 <= j < |trades| ==> trades[j] == Settle(old(trades)[j], ltpMap)
    {
      var k := 0;
      while k < |trades|
        invariant 0 <= k <= |trades| == |old(trades)|
        invariant PassFrom(trades, ltpMap, k) == AutoClosed(old(trades), ltpMap)
      {
        ghost var before := trades;
        var t := trades[k];
        if t.status != Open {
          k := k + 1;
          continue;
        }
        if t.symbol !in ltpMap {
          k := k + 1;
          continue;
        }
        var ltp := ltpMap[t.symbol];
        var hitTarget := HitTarget(t, ltp);
        var hitStop := HitStop(t, ltp);
        if t.autoClose {
          if hitTarget {
            CloseTrade(t.id, t.target);
          } else if hitStop {
            CloseTrade(t.id, t.stop);
          }
        }
        assert trades == Step(before, ltpMap, k);
        k := k + 1;
      }
      if UniqueIds(old(trades)) {
        AutoClosedSettles(old(trades), ltpMap);
      }
    }
  }
}
