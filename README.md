# Waterfall history and replay producer of a live spectrum monitor

This project models the logic at the centre of a browser spectrum monitor that shows a
scrolling "waterfall": power against frequency against time. The model covers three parts
of the system.

- **The store poll of the monitor frontend** (`rfind_monitor/frontend/dash.py`). It fires on
  every interval tick and reads the shared latest-value slot. When the slot holds a timestamp
  other than `times[0]` of the browser-side store, it chooses a frequency range (the user's
  zoom truncated to whole numbers, or the ends of the full axis) and hands the latest spectrum
  to the range reducer. It then drops the oldest waterfall row, appends the reduced row,
  replaces the frequency axis and rewrites the timestamps as a countdown from the new one.
  Otherwise the update is prevented.
- **The older single-file frontend** (`dashApp.py`). It keeps a 200 x 1000 buffer alive
  across calls as a mutable default argument. On each call it shifts the buffer up one row in
  place, writes the fetched line into the last row and returns the two `extendData` payloads.
- **The replay producer** (`rfind_monitor/sim/zmq_pusher.py`). It is an endless loop. Each
  pass reads row `i % modlen` of a recorded table, appends the row's timestamp to a copy of
  the spectrum, tries to send that message, ignores a failed send and increments `i`.

Modules:

- `Wrappers`: `Option` and `Result`.
- `Frequencies`: numpy's `linspace`.
- `Relayout`: the range choice both frontends make, including Python's `int()` truncation.
- `Waterfall`: the fixed-height FIFO as pure functions, with its window lemmas.
- `UserStore`: `dash.py`. It has a `Store` class whose method is proved against the pure
  `Poll` function.
- `DashApp`: `dashApp.py`. The buffer is an `array2<real>` shifted in place. A ghost history
  of the rows the calls stored ties the buffer to `Waterfall.ShiftAll`.
- `Replay`: `zmq_pusher.py`. The loop is a method with a local counter.

Spectrum samples and frequencies are `real`s and timestamps are `int`s. The range reducer
(`reduce_integration`) and `fetch_integration` come from files outside this model. They are
function-typed parameters, and nothing is assumed about their output.

Two behaviours of the code that a reader may not expect:

- The code compares the slot's timestamp with `times[0]` of the store. Before the first update, `times[0]` is the OLDEST
  start second, because the start timestamps run oldest first (dash.py:26-27). After an
  update `times[0]` is the newest, because the countdown runs newest first (dash.py:181). The
  model keeps both orders; `UserStore.InitialTimesOrder` states the consequence.
- The code does not clamp the requested range or check the reducer's output width. The
  model assumes nothing about either.

## Model

| member | source | states |
|---|---|---|
| `UserStore.Store.constructor` | rfind_monitor/frontend/dash.py:23-27 | The store starts with H zero rows of the configured width, a linspace axis from 0 to 2 GHz, and the H whole seconds up to the clock reading, oldest first |
| `UserStore.InitialTimesOrder` | rfind_monitor/frontend/dash.py:26-27 | The start timestamps run oldest first (`times[0]` is now - (H-1), `times[H-1]` is now), so at start-up a slot stamped `now` counts as new when H > 1 |
| `UserStore.Poll` | rfind_monitor/frontend/dash.py:158-184 | The tick is prevented exactly when the slot has no timestamp or its timestamp equals `times[0]`; a tick that is not an update leaves the store unchanged; the store always keeps H rows and H timestamps |
| `UserStore.Store.UpdateStore` | rfind_monitor/frontend/dash.py:158-184 | The callback's outcome and the new store contents are those of `Poll` applied to the old contents, and the height invariant is kept |
| `UserStore.PollAccepted` | rfind_monitor/frontend/dash.py:163-181 | On an accepted tick, the reducer is called on the slot's spectrum with the chosen range and the configured width. New row k is old row k+1, the last row is the reducer's row, and the height is unchanged. The axis is replaced by the reducer's axis, and `times[j]` is T - j for all j < H |
| `UserStore.PollFailed` | rfind_monitor/frontend/dash.py:167-172 | If the range choice raises, the tick reports that error and leaves the store unchanged |
| `UserStore.PollIdempotent` | rfind_monitor/frontend/dash.py:160-181 | After an update with timestamp T, any later poll of a slot still stamped T is prevented and changes nothing. This holds whatever the slot's spectrum and whatever the zoom |
| `Relayout.Trunc` | rfind_monitor/frontend/dash.py:168-169 | The result is Python's `int(x)`: x with its fraction dropped toward zero, never further from zero than x and less than 1 away from it |
| `Relayout.TruncUnique` | rfind_monitor/frontend/dash.py:168-169 | Only one integer is the truncation of x |
| `Relayout.ChooseRange` | rfind_monitor/frontend/dash.py:167-172 | With a zoom start key, the call succeeds exactly when the end key is present, and then both bounds are the whole-number truncations of the zoom. Without one (no event, an empty event, or other keys), the call succeeds exactly when the axis is non-empty, and then the bounds are the axis's first and last elements |
| `Frequencies.Linspace` | dashApp.py:17 | The result has n samples. The first is lo and the last of several is exactly hi. The samples never decrease when lo <= hi |
| `Waterfall.Shift` | rfind_monitor/frontend/dash.py:176-177 | One `pop(0)` and one `append` keep the length. New row k is old row k+1, and the pushed row is last |
| `Waterfall.ShiftAll` | dashApp.py:154-155 | Any number of pushes keeps the history's height |
| `Waterfall.ShiftAllAt` | dashApp.py:154-155 | After n pushes into a history of height H, row k is initial row k+n when k+n < H, and otherwise push number k+n-H |
| `Waterfall.KeepsNewest` | dashApp.py:143-155 | The newest min(n, H) rows are the last min(n, H) pushes, in push order |
| `Waterfall.EvictsOldest` | dashApp.py:143-155 | After at least H pushes, the history is exactly the last H pushes, so after H+1 pushes the first push is gone |
| `DashApp.Broadcast` | dashApp.py:155 | numpy stores a line of the row's width as it is and repeats a one-sample line across the row. Any other width is a ValueError |
| `DashApp.ShiftRowsUp` | dashApp.py:154 | `spec[0:-1] = spec[1:]`: every row but the last takes the old row below it, and the last row is unchanged |
| `DashApp.WriteLastRow` | dashApp.py:155 | `spec[-1] = row` sets the last row to the row and leaves every other row unchanged |
| `DashApp.SpecCallback.constructor` | dashApp.py:11-16 | The buffer is a fresh 200 x 1000 array of zeros, and no call has stored a row yet |
| `DashApp.SpecCallback.UpdateSpec` | dashApp.py:143-160 | A missing zoom end raises before the buffer is touched. Otherwise the range is the zoom, or the ends of the module-level axis, and `fetch` is asked for width 1000. The buffer keeps its 200 x 1000 shape, shifts up one row and gets the broadcast line as its newest row. An unbroadcastable line raises after the shift and leaves the old newest row in the last two places. On success the payloads are `[line]`/`[axis]` with max points 1000 and the whole buffer with max points 200 |
| `DashApp.NewestRowsAreLastStored` | dashApp.py:143-155 | The buffer persists across calls. After n calls that reached the shift (a call that raises the KeyError for a missing zoom end is not one), its newest min(n, 200) rows are the rows the last min(n, 200) of them stored, in order, and every older row is still zero |
| `Replay.RowIndex` | rfind_monitor/sim/zmq_pusher.py:24-30 | The row read on pass i is within [0, modlen), and is i itself while i < modlen |
| `Replay.RowIndexPeriodic` | rfind_monitor/sim/zmq_pusher.py:29-30 | Passes i and i + modlen read the same row |
| `Replay.Frame` | rfind_monitor/sim/zmq_pusher.py:29-31 | The message has one more element than the spectrum. Its prefix is the spectrum unchanged, and its last element is the timestamp |
| `Replay.UnframeFrame` | rfind_monitor/sim/zmq_pusher.py:29-32 | Splitting a framed message gives back the spectrum and the timestamp |
| `Replay.FrameUnframe` | rfind_monitor/sim/zmq_pusher.py:29-32 | A message that splits is the framing of its parts |
| `Replay.Produce` | rfind_monitor/sim/zmq_pusher.py:24-40 | Pass k records counter k and reads row k % modlen of both tables. It records the framed message and that pass's send outcome. A failed send neither stops the loop nor repeats a row. An empty table stops the loop at once with a division by zero. A 'spec' table shorter than 'times' stops the loop at its first missing row. Otherwise every pass given runs |

## Left out

- The plot layouts and figure dictionaries (dash.py:33-147, dashApp.py:21-126), the client-side JavaScript callback (dash.py:237-259) and the commented-out callbacks: these are declarative UI configuration, not logic.
- The range reducer `reduce_integration` and `fetch_integration`: their files are not part of this model. Both are parameters, and nothing is assumed about the width or contents of what they return.
- `rfind_monitor/const.py` is not part of this model. `WATERFALL_HEIGHT`, `SPEC_WIDTH` and `FULL_FREQS` are fields of `UserStore.Config`. The store's height is assumed positive, as a non-empty waterfall needs.
- The shared `brain_plasma` store is one optional (timestamp, spectrum) value. Between the guard and the reads (dash.py:160-165) it is read once, so a write that lands between those reads is not modelled.
- UserStore.Store.constructor: the start seconds are built from a clock reading given in whole seconds. The timezone and the float-to-int truncation of each `timestamp()` (dash.py:26-27) are left out.
- The ZMQ socket, msgpack serialisation, `time.sleep` and the HDF5 file (zmq_pusher.py:13-22, 32, 39): the send is a given success or failure per pass. The recorded tables are immutable sequences, so the framing visibly copies the row rather than changing the table.
- Replay.Produce: the `while True` loop runs for as many passes as it is given send outcomes, not forever.
- The signal generator `dataGenerator.py`: random noise, FFT, `log10`, floating-point phase accumulation and HDF5 output.
- Exceptions raised inside the range reducer or `fetch_integration` (for instance a reducer rejecting a width of 0) are not modelled: both are total functions here, so the model assumes they always return.
- Floating point: samples and frequencies are mathematical reals, so rounding in `linspace` and in the numpy arithmetic is not modelled.
- DashApp.SpecCallback.UpdateSpec: the waterfall payload is a snapshot of the buffer. The source returns the live array, which is serialised right away, so the aliasing is not modelled.
- Concurrency between the producer process and the frontend poll: only the per-tick logic is modelled.
