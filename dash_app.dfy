/** The earlier single-file frontend: its interval callback keeps a 200 x 1000 waterfall
    buffer alive across calls, shifts it up one row in place, writes the fetched line
    into the newest row and returns the plot extensions. */
module DashApp {
  import opened Wrappers
  import Relayout
  import Waterfall
  import Frequencies

  const WATERFALL_HEIGHT: nat := 200
  const SPEC_WIDTH: nat := 1000
  const FREQ_LIMIT: real := 8.0 * 400000000.0 / 3.0

  /** The module-level axis, also the default argument `freqs` of the callback. */
  const FREQS: seq<real> := Frequencies.Linspace(-FREQ_LIMIT, FREQ_LIMIT, SPEC_WIDTH)

  /** `fetch_integration(index, f1, f2, length)` -> (line, axis); only its signature is known. */
  type Fetcher = (int, real, real, nat) -> (seq<real>, seq<real>)

  /** `extendData` for the spectrum trace: y=[line], x=[axis], trace indices, max points. */
  datatype SpecExtend = SpecExtend(y: seq<seq<real>>, x: seq<seq<real>>, traces: seq<nat>, maxPoints: nat)

  /** `extendData` for the heatmap: z=[buffer], trace indices, max points. */
  datatype WaterfallExtend = WaterfallExtend(z: seq<seq<seq<real>>>, traces: seq<nat>, maxPoints: nat)

  datatype Payload = Payload(spec: SpecExtend, waterfall: WaterfallExtend)

  datatype CallbackError =
    | RangeFailed(error: Relayout.RangeError)   // raised before the buffer is touched
    | ShapeMismatch                             // numpy ValueError on the row write, after the shift

  /** What `spec[-1] = line` stores in a row of the given width under numpy broadcasting:
      the line itself when it has that width, a line of one value repeated across the
      row, and nothing (a ValueError) otherwise. */
  function Broadcast(line: seq<real>, width: nat): (r: Option<seq<real>>)
    ensures r.Some? <==> |line| == width || |line| == 1
    ensures r.Some? ==> |r.value| == width
    ensures r.Some? ==> forall c :: 0 <= c < width ==> r.value[c] == line[if |line| == 1 then 0 else c]
  {
    if |line| == width then Some(line)
    else if |line| == 1 then Some(seq(width, _ => line[0]))
    else None
  }

  function RowOf(a: array2<real>, r: nat): (row: seq<real>)
    reads a
    requires r < a.Length0
    ensures |row| == a.Length1
    ensures forall c :: 0 <= c < a.Length1 ==> row[c] == a[r, c]
  {
    seq(a.Length1, c requires 0 <= c < a.Length1 reads a => a[r, c])
  }

  /** The buffer's rows, oldest first. */
  function Rows(a: array2<real>): (rows: seq<seq<real>>)
    reads a
    ensures |rows| == a.Length0
    ensures forall r :: 0 <= r < a.Length0 ==> rows[r] == RowOf(a, r)
  {
    seq(a.Length0, r requires 0 <= r < a.Length0 reads a => RowOf(a, r))
  }

  /** `spec[0:-1] = spec[1:]`: every row but the last takes the row below it. */
  method ShiftRowsUp(a: array2<real>)
    modifies a
    ensures forall r, c :: 0 <= r < a.Length0 - 1 && 0 <= c < a.Length1 ==> a[r, c] == old(a[r + 1, c])
    ensures forall r, c :: 0 <= r && a.Length0 - 1 <= r < a.Length0 && 0 <= c < a.Length1 ==> a[r, c] == old(a[r, c])
  {
    var r := 0;
    while r + 1 < a.Length0
      invariant 0 <= r <= if a.Length0 == 0 then 0 else a.Length0 - 1
      invariant forall i, c :: 0 <= i < r && 0 <= c < a.Length1 ==> a[i, c] == old(a[i + 1, c])
      invariant forall i, c :: r <= i < a.Length0 && 0 <= c < a.Length1 ==> a[i, c] == old(a[i, c])
    {
      var c := 0;
      while c < a.Length1
        invariant 0 <= c <= a.Length1
        invariant forall i, k :: 0 <= i < r && 0 <= k < a.Length1 ==> a[i, k] == old(a[i + 1, k])
        invariant forall k :: 0 <= k < c ==> a[r, k] == old(a[r + 1, k])
        invariant forall k :: c <= k < a.Length1 ==> a[r, k] == old(a[r, k])
        invariant forall i, k :: r < i < a.Length0 && 0 <= k < a.Length1 ==> a[i, k] == old(a[i, k])
      {
        a[r, c] := a[r + 1, c];
        c := c + 1;
      }
      r := r + 1;
    }
  }

  /** `spec[-1] = row` for a row of the buffer's width. */
  method WriteLastRow(a: array2<real>, row: seq<real>)
    requires a.Length0 > 0 && |row| == a.Length1
    modifies a
    ensures forall r, c :: 0 <= r < a.Length0 - 1 && 0 <= c < a.Length1 ==> a[r, c] == old(a[r, c])
    ensures forall c :: 0 <= c < a.Length1 ==> a[a.Length0 - 1, c] == row[c]
  {
    var last := a.Length0 - 1;
    var c := 0;
    while c < a.Length1
      invariant 0 <= c <= a.Length1
      invariant forall k :: 0 <= k < c ==> a[last, k] == row[k]
      invariant forall r, k :: 0 <= r < last && 0 <= k < a.Length1 ==> a[r, k] == old(a[r, k])
    {
      a[last, c] := row[c];
      c := c + 1;
    }
  }

  /** `np.zeros((waterfall_height, spec_width))` as rows. */
  function Zeros(): seq<seq<real>> {
    seq(WATERFALL_HEIGHT, _ => seq(SPEC_WIDTH, _ => 0.0))
  }

  /** The callback `update_spec` with its persistent default argument `spec`. */
  class SpecCallback {
    const spec: array2<real>
    /** The buffer as it was allocated, and the rows the calls have stored since. */
    ghost var initial: seq<seq<real>>
    ghost var placed: seq<seq<real>>

    ghost predicate Valid()
      reads this, spec
    {
      spec.Length0 == WATERFALL_HEIGHT && spec.Length1 == SPEC_WIDTH &&
      initial == Zeros() &&
      Rows(spec) == Waterfall.ShiftAll(initial, placed)
    }

    /** `np.zeros((waterfall_height, spec_width))` at import time. */
    constructor ()
      ensures Valid() && fresh(spec) && placed == []
      {
      spec := new real[WATERFALL_HEIGHT, SPEC_WIDTH]((r, c) => 0.0);
      new;
      initial := Rows(spec);
      placed := [];
      forall i | 0 <= i < WATERFALL_HEIGHT ensures initial[i] == Zeros()[i] {
        assert initial[i] == RowOf(spec, i);
      }
    }

    /** One interval tick. The range is the zoom or the ends of the module-level axis;
        the fetched line, broadcast to the width, becomes the newest row after the shift.
        A line numpy cannot broadcast fails after the shift, which leaves the old newest
        row in the last two places. */
    method UpdateSpec(index: int, relayout: Option<Relayout.Layout>, fetch: Fetcher)
      returns (r: Result<Payload, CallbackError>)
      requires Valid()
      modifies this, spec
      ensures Valid() && initial == old(initial)
      ensures var range := Relayout.ChooseRange(relayout, FREQS);
        if range.Err? then
          r == Err(RangeFailed(range.error)) && Rows(spec) == old(Rows(spec)) && placed == old(placed)
        else
          var (line, axis) := fetch(index, range.value.f1, range.value.f2, SPEC_WIDTH);
          var row := Broadcast(line, SPEC_WIDTH).GetOr(old(Rows(spec))[WATERFALL_HEIGHT - 1]);
          && Rows(spec) == Waterfall.Shift(old(Rows(spec)), row)
          && placed == old(placed) + [row]
          && (r.Ok? <==> Broadcast(line, SPEC_WIDTH).Some?)
          && (r.Err? ==> r.error == ShapeMismatch)
          && (r.Ok? ==> r.value == Payload(SpecExtend([line], [axis], [0], SPEC_WIDTH),
                                          WaterfallExtend([Rows(spec)], [0], WATERFALL_HEIGHT)))
    {
      var range := Relayout.ChooseRange(relayout, FREQS);
      if range.Err? {
        return Err(RangeFailed(range.error));
      }
      var (newLine, freqs) := fetch(index, range.value.f1, range.value.f2, SPEC_WIDTH);
      ghost var before := Rows(spec);
      ShiftRowsUp(spec);
      var stored := Broadcast(newLine, SPEC_WIDTH);
      if stored.Some? {
        WriteLastRow(spec, stored.value);
      }
      ghost var row := stored.GetOr(before[WATERFALL_HEIGHT - 1]);
      assert Rows(spec) == Waterfall.Shift(before, row) by {
        var after := Waterfall.Shift(before, row);
        forall i | 0 <= i < WATERFALL_HEIGHT ensures Rows(spec)[i] == after[i] {
          assert RowOf(spec, i) == after[i];
        }
      }
      Waterfall.ShiftAllSnoc(initial, placed, row);
      placed := placed + [row];
      if stored.None? {
        return Err(ShapeMismatch);
      }
      r := Ok(Payload(SpecExtend([newLine], [freqs], [0], SPEC_WIDTH),
                      WaterfallExtend([Rows(spec)], [0], WATERFALL_HEIGHT)));
    }
  }

  /** The buffer persists across calls: after n calls that reached the shift, its newest
      min(n, H) rows are the rows the last min(n, H) of them stored, in call order, and
      every older row is still zero. */
  lemma NewestRowsAreLastStored(cb: SpecCallback)
    requires cb.Valid()
    ensures var n := |cb.placed|;
      var m := if n < WATERFALL_HEIGHT then n else WATERFALL_HEIGHT;
      && Rows(cb.spec)[WATERFALL_HEIGHT - m..] == cb.placed[n - m..]
      && (forall k :: 0 <= k < WATERFALL_HEIGHT - m ==> Rows(cb.spec)[k] == seq(SPEC_WIDTH, _ => 0.0))
  {
    Waterfall.KeepsNewest(cb.initial, cb.placed);
    forall k | 0 <= k < WATERFALL_HEIGHT - (if |cb.placed| < WATERFALL_HEIGHT then |cb.placed| else WATERFALL_HEIGHT)
      ensures Rows(cb.spec)[k] == cb.initial[k + |cb.placed|]
    {
      Waterfall.ShiftAllAt(cb.initial, cb.placed, k);
    }
  }
}
