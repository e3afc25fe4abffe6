/** The browser-side store of the monitor frontend and the poll that feeds it: every
    tick, if the shared latest-value slot holds a timestamp other than `times[0]` of the
    store, the latest integration is reduced to the requested range and pushed into
    the waterfall history. */
module UserStore {
  import opened Wrappers
  import Relayout
  import Waterfall
  import Frequencies

  type Row = seq<real>

  /** One integration in the shared slot: its timestamp and full-resolution spectrum. */
  datatype Integration = Integration(timestamp: int, spectrum: seq<real>)

  /** The shared slot: `None` while no 'timestamp' key has been written. */
  type Shared = Option<Integration>

  /** The range reducer (spectrum, f1, f2, width) -> (row, axis); only its signature is known. */
  type Reducer = (seq<real>, real, real, nat) -> (Row, seq<real>)

  /** The frontend's constants: waterfall height, reduced width and the full frequency axis. */
  datatype Config = Config(height: nat, width: nat, fullFreqs: seq<real>)

  /** The store's contents: waterfall rows (oldest first), their axis, and timestamps. */
  datatype StoreData = StoreData(spec: seq<Row>, freqs: seq<real>, times: seq<int>)

  datatype Outcome =
    | Prevented                           // PreventUpdate: the store is left as it was
    | Failed(error: Relayout.RangeError)  // the callback raised before touching the store
    | Updated(timestamp: int)

  const START_FREQ_HI: real := 2000000000.0

  predicate WellFormed(d: StoreData, height: nat) {
    height > 0 && |d.spec| == height && |d.times| == height
  }

  /** The store as the page starts: zero rows, a 0..2 GHz axis, and the H whole seconds
      up to `now`, oldest first. */
  function Initial(cfg: Config, now: int): StoreData {
    StoreData(
      seq(cfg.height, _ => seq(cfg.width, _ => 0.0)),
      Frequencies.Linspace(0.0, START_FREQ_HI, cfg.width),
      seq(cfg.height, j => now - (cfg.height - 1 - j)))
  }

  /** `timestamp - np.arange(H)`: the newest first, one second apart. */
  function Countdown(t: int, n: nat): seq<int> {
    seq(n, j => t - j)
  }

  /** The change signal: a timestamp is in the slot and differs from `times[0]`. */
  predicate IsNew(shared: Shared, times: seq<int>)
    requires |times| > 0
  {
    shared.Some? && shared.value.timestamp != times[0]
  }

  /** One tick of the poll, as a function of the store before it. */
  function Poll(d: StoreData, shared: Shared, relayout: Option<Relayout.Layout>,
                cfg: Config, reduce: Reducer): (r: (Outcome, StoreData))
    requires WellFormed(d, cfg.height)
    ensures WellFormed(r.1, cfg.height)
    ensures r.0.Prevented? <==> !IsNew(shared, d.times)
    ensures !r.0.Updated? ==> r.1 == d
  {
    if !IsNew(shared, d.times) then (Prevented, d)
    else
      match Relayout.ChooseRange(relayout, cfg.fullFreqs)
      case Err(e) => (Failed(e), d)
      case Ok(range) =>
        var t := shared.value.timestamp;
        var (row, axis) := reduce(shared.value.spectrum, range.f1, range.f2, cfg.width);
        (Updated(t), StoreData(Waterfall.Shift(d.spec, row), axis, Countdown(t, cfg.height)))
  }

  /** An accepted tick: the range is the zoom or the full axis, the reducer is asked for
      the configured width, the history moves up one row with the reduced row newest,
      the axis is the reducer's, and the timestamps count down from the new one. */
  lemma PollAccepted(d: StoreData, shared: Shared, relayout: Option<Relayout.Layout>,
                     cfg: Config, reduce: Reducer)
    requires WellFormed(d, cfg.height) && IsNew(shared, d.times)
    requires Relayout.ChooseRange(relayout, cfg.fullFreqs).Ok?
    ensures var range := Relayout.ChooseRange(relayout, cfg.fullFreqs).value;
      var (row, axis) := reduce(shared.value.spectrum, range.f1, range.f2, cfg.width);
      var (outcome, e) := Poll(d, shared, relayout, cfg, reduce);
      && outcome == Updated(shared.value.timestamp)
      && |e.spec| == |d.spec|
      && (forall k :: 0 <= k < |e.spec| - 1 ==> e.spec[k] == d.spec[k + 1])
      && e.spec[|e.spec| - 1] == row
      && e.freqs == axis
      && |e.times| == cfg.height
      && (forall j :: 0 <= j < |e.times| ==> e.times[j] == shared.value.timestamp - j)
  {
  }

  /** A poll that raised leaves the store alone and says why. */
  lemma PollFailed(d: StoreData, shared: Shared, relayout: Option<Relayout.Layout>,
                   cfg: Config, reduce: Reducer)
    requires WellFormed(d, cfg.height) && IsNew(shared, d.times)
    requires Relayout.ChooseRange(relayout, cfg.fullFreqs).Err?
    ensures Poll(d, shared, relayout, cfg, reduce) ==
      (Failed(Relayout.ChooseRange(relayout, cfg.fullFreqs).error), d)
  {
  }

  /** Idempotence: once the integration stamped t is applied, polling a slot that still
      carries t, whatever its spectrum and whatever the zoom, changes nothing. */
  lemma PollIdempotent(d: StoreData, shared: Shared, relayout: Option<Relayout.Layout>,
                       cfg: Config, reduce: Reducer, again: Integration,
                       relayout2: Option<Relayout.Layout>)
    requires WellFormed(d, cfg.height)
    requires Poll(d, shared, relayout, cfg, reduce).0.Updated?
    requires again.timestamp == shared.value.timestamp
    ensures var e := Poll(d, shared, relayout, cfg, reduce).1;
      Poll(e, Some(again), relayout2, cfg, reduce) == (Prevented, e)
  {
  }

  /** The start timestamps run oldest first, the countdowns newest first: at start-up the
      guard compares against the OLDEST start second, so a slot stamped with the newest
      one (`now`) is taken as new when the history has more than one row. */
  lemma InitialTimesOrder(cfg: Config, now: int, shared: Shared)
    requires cfg.height > 1
    requires shared.Some? && shared.value.timestamp == now
    ensures var d := Initial(cfg, now);
      WellFormed(d, cfg.height) && d.times[0] == now - (cfg.height - 1) &&
      d.times[cfg.height - 1] == now && IsNew(shared, d.times)
  {
  }

  /** The userStore of the page: mutated in place by `UpdateStore`. */
  class Store {
    const cfg: Config
    var spec: seq<Row>
    var freqs: seq<real>
    var times: seq<int>

    function Data(): StoreData
      reads this
    {
      StoreData(spec, freqs, times)
    }

    ghost predicate Valid()
      reads this
    {
      WellFormed(Data(), cfg.height)
    }

    constructor (cfg: Config, now: int)
      requires cfg.height > 0
      ensures Valid() && this.cfg == cfg && Data() == Initial(cfg, now)
    {
      this.cfg := cfg;
      spec := seq(cfg.height, _ => seq(cfg.width, _ => 0.0));
      freqs := Frequencies.Linspace(0.0, START_FREQ_HI, cfg.width);
      times := seq(cfg.height, j => now - (cfg.height - 1 - j));
    }

    /** The interval callback: reads the shared slot, and on a new timestamp reduces the
        latest spectrum and pushes it into the store. */
    method UpdateStore(shared: Shared, relayout: Option<Relayout.Layout>, reduce: Reducer)
      returns (outcome: Outcome)
      requires Valid()
      modifies this
      ensures Valid()
      ensures (outcome, Data()) == Poll(old(Data()), shared, relayout, cfg, reduce)
    {
      if shared.None? || shared.value.timestamp == times[0] {
        return Prevented;
      }
      var timestamp := shared.value.timestamp;
      var latest := shared.value.spectrum;
      var range := Relayout.ChooseRange(relayout, cfg.fullFreqs);
      if range.Err? {
        return Failed(range.error);
      }
      var f1, f2 := range.value.f1, range.value.f2;
      var (reduced, newFreqs) := reduce(latest, f1, f2, cfg.width);
      spec := spec[1..];
      spec := spec + [reduced];
      freqs := newFreqs;
      times := Countdown(timestamp, cfg.height);
      outcome := Updated(timestamp);
    }
  }
}
