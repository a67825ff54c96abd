# Options scalper blotter — a Dafny model

The repository is a small tracker for intraday option trades. A user logs a
bought option with a symbol, strike, CE/PE type, entry premium, target,
stop-loss and lot sizes. The user then types in the latest traded price (LTP)
for each symbol. The tracker closes OPEN trades whose target or stop the LTP
has reached and books their realised P&L. This project models the in-memory
trade blotter of `fo.py` and proves properties of it:

- `pystr.dfy`, module `PyStr`: Python's `str.strip()` and `str.upper()`.
  These are the two operations applied to a new trade's text fields.
- `trades.dfy`, module `Trades`: the `Trade` record and how a new one is built.
  It also holds the P&L formula, `hit_target` / `hit_stop`, and the choice
  between them.
- `blotter.dfy`, module `Blotter`: the class `Ledger`, which holds the list of
  records. Its methods are `Save` (`save_trade`), `AddTrade` (the "Add Trade"
  button), `CloseTrade` (`update_trade_exit`) and `AutoClose`
  (`auto_close_if_hit`). The module also holds the functions that specify
  these methods (`FirstOpen`, `CloseFirst`, `Step`, `PassFrom`,
  `AutoClosed`) and the lemmas about them.

The methods work on a `seq<Trade>` field that they reassign. The Python code
keeps a list of dicts and mutates one dict in place. `CloseTrade` is a linear
scan that stops at the first OPEN record with the id. `AutoClose` walks the
list by position and looks at each record as it is at that moment, so it sees
closes made earlier in the same pass. Like the source, it closes a triggered
trade by looking up its id again. The model does not assume ids are unique,
because fo.py builds them from the first 8 characters of a uuid4 and never
checks them. The per-record statements about the pass (`AutoClosedSettles`
and its corollaries) take unique ids as a hypothesis. `DuplicateIdClosesOtherRecord`
shows what happens without that hypothesis: another record's trigger can close
a record that has auto-close off.

Prices are exact `real`s, and `lotSize` and `lots` are `int`s. The id and the
timestamp are parameters of `AddTrade`.

Some behaviour of the code differs from what its comments or its intent
suggest. The model follows the code in each case:
- The docstring at fo.py:7 says a put closes when LTP <= target. The code uses
  `ltp >= target` and `stop > 0 and ltp <= stop` for CE and PE alike
  (fo.py:93-98).
- `update_trade_exit` computes a `sign` from the option type and never uses
  it. P&L is `(exit - entry) * lot_size * lots` for both types.
- Closing an unknown id, or a trade that is already CLOSED, is a silent no-op.
  No error is reported.
- Building a trade validates nothing beyond the input widgets' minimum values.
  A blank symbol becomes the empty string, and nothing keeps ids unique.

## Model

| member | source | states |
|---|---|---|
| `PyStr.TrimStart` | fo.py:159 | the leading-whitespace half of `strip()`: the result is a suffix of the input, everything dropped is whitespace, and the result does not start with whitespace |
| `PyStr.TrimEnd` | fo.py:159 | the trailing-whitespace half of `strip()`: the result is a prefix, everything dropped is whitespace, and the result does not end with whitespace |
| `PyStr.Strip` | fo.py:162 | `strip()`: the result has no whitespace at either end, is no longer than the input, leaves an already trimmed string unchanged, and is empty exactly when the input is all whitespace |
| `PyStr.StripIsInfix` | fo.py:162 | what `strip()` returns is a slice of the input with only whitespace before and after it |
| `PyStr.Upper` | fo.py:159 | `upper()` on ASCII: same length, no lower-case letter left, every other character kept, `a`..`z` shifted to `A`..`Z` |
| `PyStr.Normalize` | fo.py:159 | the stored symbol `symbol.strip().upper()`: each character is the upper-cased character at the same position of the stripped input; the result is trimmed, has no lower-case letter, and is empty exactly when the input was blank |
| `PyStr.NormalizeIdempotent` | fo.py:159 | `strip().upper()` applied to its own output changes nothing |
| `Trades.NewTrade` | fo.py:156-172 | a new record is OPEN with exit price 0 and P&L 0, has a normalised symbol and a stripped expiry, and carries the caller's id, timestamp and every entered value |
| `Trades.NewTradeBooked` | fo.py:169-171 | a new record is consistent with its OPEN status: no exit and no P&L |
| `Trades.Pnl` | fo.py:76 | with at least one lot of at least one unit, the P&L is positive, negative or zero exactly as the exit is above, below or equal to the entry; the option type plays no part |
| `Trades.PnlPerLot` | fo.py:73-76 | the P&L is the per-lot P&L `(exit - entry) * lot_size` multiplied by the number of lots |
| `Trades.Close` | fo.py:76-79 | closing sets status CLOSED, the given exit price and P&L `(exit - entry) * lot_size * lots`, and changes no other field |
| `Trades.ClosedIsBooked` | fo.py:74-79 | a closed record's P&L agrees with its exit price, and the P&L is the same for a CE and a PE |
| `Trades.HitTarget` | fo.py:93-97 | `hit_target` holds exactly when `ltp >= target`, for CE and PE alike |
| `Trades.HitStop` | fo.py:95-98 | `hit_stop` holds exactly when `stop > 0` and `ltp <= stop`, for CE and PE alike |
| `Trades.Decide` | fo.py:93-103 | target wins when `ltp >= target`; otherwise the stop fires exactly when `stop > 0` and `ltp <= stop`; otherwise hold |
| `Trades.DecideIgnoresOptionType` | fo.py:93-98 | a CE and a PE with the same prices get the same decision |
| `Trades.ZeroStopNeverFires` | fo.py:95 | a zero stop never fires, and such a trade is held exactly when the LTP is below target |
| `Trades.AutoExit` | fo.py:87-103 | for one record, a closing price is picked exactly when the record is OPEN, has auto-close on, its symbol is quoted and a trigger holds; the price is the target when the LTP reached it, else the stop, never the LTP |
| `Blotter.FirstOpen` | fo.py:71-72 | the record `update_trade_exit` finds is the first OPEN one with the id; none is found exactly when no OPEN record has the id |
| `Blotter.CloseFirst` | fo.py:70-81 | the list keeps its length; the first OPEN record with the id is closed at the price; every other record is unchanged; with no match nothing changes |
| `Blotter.CloseFirstEvolves` | fo.py:72-79 | a close only turns an OPEN record into its closed form, and leaves every CLOSED record exactly as it was |
| `Blotter.FirstOpenOwnId` | fo.py:101-103 | with unique ids, looking up an OPEN record's own id finds that record |
| `Blotter.CloseTwiceIsCloseOnce` | fo.py:72 | with unique ids, closing the same id a second time at any price changes nothing |
| `Blotter.Step` | fo.py:87-103 | one turn of the loop keeps the list length |
| `Blotter.PassFrom` | fo.py:86 | the rest of the loop keeps the list length |
| `Blotter.AutoClosed` | fo.py:84-103 | the pass keeps the list length |
| `Blotter.PassFromEvolves` | fo.py:86-103 | whatever the ids, the pass only changes a record by closing it from OPEN |
| `Blotter.AutoClosedKeepsClosed` | fo.py:72-88 | a CLOSED record is never reopened or rewritten by the pass, a record still OPEN afterwards is untouched, and consistent P&L bookkeeping is preserved |
| `Blotter.StepSettles` | fo.py:99-103 | with unique ids, one turn of the loop changes only the record at its own position, and ids stay unique |
| `Blotter.PassFromSettles` | fo.py:86-103 | with unique ids, the rest of the loop settles each remaining record on its own and leaves the earlier ones alone |
| `Blotter.AutoClosedSettles` | fo.py:84-103 | with unique ids, each record after the pass is that record closed at its own trigger price, or unchanged |
| `Blotter.AutoClosedSkips` | fo.py:87-99 | with unique ids, a record that is not OPEN, has no LTP for its symbol, or has auto-close off is left unchanged |
| `Blotter.AutoClosedAtTarget` | fo.py:100-101 | with unique ids, an OPEN auto-closing record whose LTP reached the target closes at exactly the target, with P&L `(target - entry) * lot_size * lots` |
| `Blotter.AutoClosedAtStopOrHeld` | fo.py:102-103 | with unique ids, below target, a configured stop that the LTP reached closes the record at exactly the stop; otherwise the record stays as it was |
| `Blotter.AutoClosedIdempotent` | fo.py:84-103 | with unique ids, applying the same LTP snapshot twice gives the same blotter as applying it once |
| `Blotter.DuplicateIdClosesOtherRecord` | fo.py:101 | with two OPEN records sharing an id, the second's target hit closes the first (which has auto-close off) at the second's target, and the second stays OPEN |
| `Blotter.StopAndTargetScenario` | fo.py:94-103 | entry 2.40, target 3.00, stop 2.00, 140 units: LTP 2.00 closes at 2.00 for -56, LTP 3.00 closes at 3.00 for +84, LTP 2.50 holds |
| `Blotter.Ledger.constructor` | fo.py:48-49 | the blotter starts empty |
| `Blotter.Ledger.Save` | fo.py:66-67 | the record is appended at the end; every earlier record and their order are unchanged |
| `Blotter.Ledger.AddTrade` | fo.py:155-173 | appends the newly built record; a fresh id keeps ids unique; consistent bookkeeping is preserved |
| `Blotter.Ledger.CloseTrade` | fo.py:70-81 | the scan-and-break loop produces `CloseFirst` of the old list, and each record only evolves from OPEN to closed |
| `Blotter.Ledger.AutoClose` | fo.py:84-103 | the loop produces `AutoClosed` of the old list; with unique ids, each record is settled on its own |

## Left out

- The Streamlit UI is not modelled: sidebar, forms, buttons, toasts, success and info messages, and the dataframe display and its styling (fo.py:109-213). It is presentation only.
- The closure notification `st.toast` in `update_trade_exit` (fo.py:80) is not modelled. It is output only and changes no state.
- `init_state` and the `st.session_state` keys other than the trade list (fo.py:47-55) are not modelled. The `Ledger` object owns its list.
- `to_df`, the CSV export and the download (fo.py:58-63, 200-205) are not modelled. They are pandas and file I/O. The fixed export columns are `id, ts, symbol, option_type, strike, expiry, lot_size, lots, entry, target, stop, auto_close, status, exit_price, pnl`, the fields of `Trade` in order.
- `uuid.uuid4()` and `datetime.now()` (fo.py:157-158) are nondeterministic. The id and timestamp are parameters of `AddTrade`.
- The newest-first sort of the display (fo.py:188) is not modelled. It does not change the stored list.
- The commented-out broker stubs (fo.py:218-224) are not modelled. They contain no code.
- Python floats are modelled as exact reals, so rounding in the P&L product is not modelled.
- PyStr.Upper: models `str.upper()` on ASCII letters only. Python also maps other Unicode letters, sometimes to longer strings.
- PyStr.Normalize: inherits the ASCII-only upper-casing of `PyStr.Upper`. For example, Python upper-cases `"ß"` to `"SS"`, which changes the length.
- Trades.NewTrade: the stored symbol inherits the same ASCII-only upper-casing through `PyStr.Normalize`.
- The unused `sign` variable in `update_trade_exit` (fo.py:74) is not modelled. Nothing reads it.
