/** The frequency range a frontend callback asks for: the user's zoom on the spectrum
    plot when there is one, the full axis otherwise. Both frontends make this choice
    with the same test. */
module Relayout {
  import opened Wrappers

  const RANGE_START_KEY := "xaxis.range[0]"
  const RANGE_END_KEY := "xaxis.range[1]"

  /** The plot's relayout event, keyed by property path (`None` when no event was seen). */
  type Layout = map<string, real>

  datatype Range = Range(f1: real, f2: real)

  datatype RangeError =
    | MissingRangeEnd   // KeyError: the start of the zoom is present, its end is not
    | EmptyAxis         // IndexError: the default axis has no first or last element

  /** n is what Python's `int(x)` gives: x with its fraction dropped, toward zero. */
  predicate IsTruncation(x: real, n: int) {
    (0.0 <= x ==> n as real <= x < n as real + 1.0) &&
    (x <= 0.0 ==> n as real - 1.0 < x <= n as real)
  }

  function Trunc(x: real): (n: int)
    ensures IsTruncation(x, n)
  {
    if x >= 0.0 then x.Floor else -((-x).Floor)
  }

  /** At most one integer is the truncation of x, so `Trunc` is Python's `int`. */
  lemma TruncUnique(x: real, n: int)
    requires IsTruncation(x, n)
    ensures n == Trunc(x)
  {
  }

  /** `relayoutData and 'xaxis.range[0]' in relayoutData`: an empty event is falsy. */
  predicate Zoomed(relayout: Option<Layout>) {
    relayout.Some? && RANGE_START_KEY in relayout.value
  }

  /** Whole-number bounds from the zoom, truncated toward zero, or the endpoints of
      the default axis; a zoom without its end, or an empty axis, raises. */
  function ChooseRange(relayout: Option<Layout>, axis: seq<real>): (r: Result<Range, RangeError>)
    ensures Zoomed(relayout) ==> (r.Ok? <==> RANGE_END_KEY in relayout.value)
    ensures Zoomed(relayout) && r.Ok? ==>
      r.value.f1 == r.value.f1.Floor as real && IsTruncation(relayout.value[RANGE_START_KEY], r.value.f1.Floor) &&
      r.value.f2 == r.value.f2.Floor as real && IsTruncation(relayout.value[RANGE_END_KEY], r.value.f2.Floor)
    ensures !Zoomed(relayout) ==> (r.Ok? <==> |axis| > 0)
    ensures !Zoomed(relayout) && r.Ok? ==> r.value.f1 == axis[0] && r.value.f2 == axis[|axis| - 1]
  {
    if Zoomed(relayout) then
      var layout := relayout.value;
      if RANGE_END_KEY in layout then
        Ok(Range(Trunc(layout[RANGE_START_KEY]) as real, Trunc(layout[RANGE_END_KEY]) as real))
      else
        Err(MissingRangeEnd)
    else if |axis| == 0 then
      Err(EmptyAxis)
    else
      Ok(Range(axis[0], axis[|axis| - 1]))
  }
}
