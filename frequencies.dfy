/** The frequency axes the frontends start from: numpy's `linspace`. */
module Frequencies {

  /** `np.linspace(lo, hi, n)`: n evenly spaced samples from lo to hi, both included.
      As in numpy, a single sample is `lo` and the last of several is set to `hi` exactly. */
  function Linspace(lo: real, hi: real, n: nat): (r: seq<real>)
    ensures |r| == n
    ensures n > 0 ==> r[0] == lo
    ensures n > 1 ==> r[n - 1] == hi
    ensures lo <= hi ==> forall j, k :: 0 <= j < k < n ==> r[j] <= r[k]
  {
    if n <= 1 then seq(n, _ => lo)
    else
      var step := (hi - lo) / ((n - 1) as real);
      seq(n, j requires 0 <= j < n => if j == n - 1 then hi else lo + (j as real) * step)
  }
}
