/** The replay producer: an endless loop that reads row `i % modlen` of a recorded
    table, frames the spectrum with its timestamp appended, tries to push it to the
    transport, ignores a failed send and moves on to the next row. */
module Replay {
  import opened Wrappers

  /** A transport message: the spectrum's samples followed by the timestamp. */
  type Message = seq<real>

  /** Why the loop stops: `i % 0` on an empty table, or a row the 'spec' table lacks. */
  datatype Crash = ZeroDivision | MissingRow

  /** One pass of the loop: its counter, the row it read, the message, and whether the send went through. */
  datatype Attempt = Attempt(iteration: nat, row: nat, msg: Message, sent: bool)

  /** The row read on pass i of a table with modlen timestamps. */
  function RowIndex(i: nat, modlen: nat): (k: nat)
    requires modlen > 0
    ensures k < modlen
    ensures i < modlen ==> k == i
  {
    i % modlen
  }

  /** Replay wraps around: pass i + modlen reads the same row as pass i. */
  lemma RowIndexPeriodic(i: nat, modlen: nat)
    requires modlen > 0
    ensures RowIndex(i + modlen, modlen) == RowIndex(i, modlen)
  {
    var d := (i + modlen) / modlen - i / modlen - 1;
    assert modlen * d == i % modlen - (i + modlen) % modlen;
  }

  /** `spec.append(timestamp)` on a fresh copy of the row. */
  function Frame(spectrum: seq<real>, timestamp: int): (m: Message)
    ensures |m| == |spectrum| + 1
    ensures m[..|spectrum|] == spectrum
    ensures m[|spectrum|] == timestamp as real
  {
    spectrum + [timestamp as real]
  }

  /** The consumer's view of a message: all but the last element, and the last as a whole number. */
  function Unframe(m: Message): Option<(seq<real>, int)> {
    if |m| == 0 || m[|m| - 1] != m[|m| - 1].Floor as real then None
    else Some((m[..|m| - 1], m[|m| - 1].Floor))
  }

  lemma UnframeFrame(spectrum: seq<real>, timestamp: int)
    ensures Unframe(Frame(spectrum, timestamp)) == Some((spectrum, timestamp))
  {
  }

  lemma FrameUnframe(m: Message)
    requires Unframe(m).Some?
    ensures Frame(Unframe(m).value.0, Unframe(m).value.1) == m
  {
  }

  /** How many passes complete when the transport gives n outcomes: none on an empty
      table, up to the last row of a 'spec' table shorter than 'times', all n otherwise. */
  function Completed(specCount: nat, timeCount: nat, n: nat): (k: nat)
    ensures k <= n
  {
    if timeCount == 0 then 0
    else if specCount < timeCount && specCount < n then specCount
    else n
  }

  /** Pass k read row k % modlen of both tables, sent that row framed with its timestamp,
      and recorded the transport's outcome, whatever the passes before it did. */
  predicate Logged(a: Attempt, k: nat, specs: seq<seq<real>>, times: seq<int>, transport: seq<bool>) {
    && |times| > 0 && k < |transport|
    && a.iteration == k
    && a.row == RowIndex(k, |times|)
    && a.row < |specs|
    && a.msg == Frame(specs[a.row], times[a.row])
    && a.sent == transport[k]
  }

  /** The loop run for as many passes as `transport` has send outcomes. */
  method Produce(specs: seq<seq<real>>, times: seq<int>, transport: seq<bool>)
    returns (log: seq<Attempt>, crash: Option<Crash>)
    ensures |log| == Completed(|specs|, |times|, |transport|)
    ensures forall k :: 0 <= k < |log| ==> Logged(log[k], k, specs, times, transport)
    ensures crash.None? <==> |log| == |transport|
    ensures crash == Some(ZeroDivision) <==> |times| == 0 && |transport| > 0
  {
    var modlen := |times|;
    log := [];
    crash := None;
    var i := 0;
    while i < |transport|
      invariant i <= |transport|
      invariant |log| == i
      invariant i > 0 ==> modlen > 0
      invariant modlen > 0 ==> i <= |specs| || |specs| >= modlen
      invariant forall k :: 0 <= k < i ==> Logged(log[k], k, specs, times, transport)
    {
      if modlen == 0 {
        crash := Some(ZeroDivision);
        break;
      }
      var row := RowIndex(i, modlen);
      if row >= |specs| {
        crash := Some(MissingRow);
        break;
      }
      var spec := specs[row];
      var timestamp := times[row];
      var msg := Frame(spec, timestamp);
      var ok := transport[i];
      log := log + [Attempt(i, row, msg, ok)];
      i := i + 1;
    }
  }
}
