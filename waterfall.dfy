/** The waterfall history: a fixed-height list of rows, oldest first, into which every
    accepted integration is pushed at the newest end while the oldest row is dropped. */
module Waterfall {

  /** One push: `rows.pop(0); rows.append(row)` (or the numpy slice shift and last-row write). */
  function Shift<T>(rows: seq<T>, row: T): (r: seq<T>)
    requires |rows| > 0
    ensures |r| == |rows|
    ensures forall k :: 0 <= k < |r| - 1 ==> r[k] == rows[k + 1]
    ensures r[|r| - 1] == row
  {
    rows[1..] + [row]
  }

  /** The history after pushing `lines` in order, oldest push first. */
  function ShiftAll<T>(rows: seq<T>, lines: seq<T>): (r: seq<T>)
    requires |rows| > 0
    ensures |r| == |rows|
    decreases |lines|
  {
    if lines == [] then rows
    else Shift(ShiftAll(rows, lines[..|lines| - 1]), lines[|lines| - 1])
  }

  /** Pushing one more line is one more shift of the history so far. */
  lemma ShiftAllSnoc<T>(rows: seq<T>, lines: seq<T>, line: T)
    requires |rows| > 0
    ensures ShiftAll(rows, lines + [line]) == Shift(ShiftAll(rows, lines), line)
  {
  }

  /** Row k after n pushes into a history of height H: the initial row k + n while
      that is still inside the history, otherwise push number k + n - H. */
  lemma {:induction false} ShiftAllAt<T>(rows: seq<T>, lines: seq<T>, k: nat)
    requires |rows| > 0 && k < |rows|
    ensures ShiftAll(rows, lines)[k] ==
      if k + |lines| < |rows| then rows[k + |lines|] else lines[k + |lines| - |rows|]
    decreases |lines|
  {
    if lines != [] && k < |rows| - 1 {
      ShiftAllAt(rows, lines[..|lines| - 1], k + 1);
    }
  }

  /** The newest min(n, H) rows are the last min(n, H) pushes, in push order. */
  lemma {:induction false} KeepsNewest<T>(rows: seq<T>, lines: seq<T>)
    requires |rows| > 0
    ensures var m := if |lines| < |rows| then |lines| else |rows|;
      ShiftAll(rows, lines)[|rows| - m..] == lines[|lines| - m..]
  {
    var m := if |lines| < |rows| then |lines| else |rows|;
    var newest, pushed := ShiftAll(rows, lines)[|rows| - m..], lines[|lines| - m..];
    forall j | 0 <= j < m ensures newest[j] == pushed[j] {
      ShiftAllAt(rows, lines, |rows| - m + j);
    }
  }

  /** After at least H pushes nothing of the initial history is left: the history is
      exactly the last H pushes, so after H + 1 pushes the first push is gone. */
  lemma {:induction false} EvictsOldest<T>(rows: seq<T>, lines: seq<T>)
    requires |rows| > 0 && |lines| >= |rows|
    ensures ShiftAll(rows, lines) == lines[|lines| - |rows|..]
  {
    KeepsNewest(rows, lines);
  }
}
