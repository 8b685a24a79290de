/**
 * The controller's event log: a newest-first list that `log_event` grows by
 * `insert(0, entry)` and trims by one `pop()` from the end once it holds more
 * than fifty entries.
 */
module EventLog {

  /** Most entries the log keeps. */
  const Capacity: nat := 50

  /**
   * One log record. Date and time are the strings `log_event` formats; the
   * three readings are kept as numbers and rendered (`:.1f` plus a unit)
   * when the dashboard lists them.
   */
  datatype LogEntry = LogEntry(
    date: string, time: string, event: string,
    temp: real, humidity: real, soil: real)

  /** How `format` renders a number: `str(x)`, or fixed-point with `places` decimals. */
  datatype NumberStyle = Repr | Fixed(places: nat)

  /** The number-to-text step of Python's formatting, left abstract. */
  type Show = (real, NumberStyle) -> string

  /** Unit `log_event` appends to a temperature: the file spells it `Â°F`. */
  const LogTempUnit: string := " \U{00C2}\U{00B0}F"

  /**
   * The six texts `log_event` stores for an entry, in the order the
   * dashboard prints them: date, time, event, then the three readings
   * with one decimal and their units.
   */
  function CellTexts(e: LogEntry, show: Show): (cells: seq<string>)
    ensures |cells| == 6
    ensures cells[0] == e.date && cells[1] == e.time && cells[2] == e.event
  {
    [e.date, e.time, e.event,
     show(e.temp, Fixed(1)) + LogTempUnit,
     show(e.humidity, Fixed(1)) + " %",
     show(e.soil, Fixed(1)) + " %"]
  }

  /**
   * One `log_event` on the list: the entry goes in front, and the oldest
   * entry is dropped only when the list has grown past the capacity.
   */
  function Push<T>(log: seq<T>, e: T): (r: seq<T>)
    ensures |log| < Capacity ==> |r| == |log| + 1
    ensures |log| >= Capacity ==> |r| == |log|
    ensures r[0] == e && r[1..] == log[..|r| - 1]
  {
    var grown := [e] + log;
    if |grown| > Capacity then grown[..|grown| - 1] else grown
  }

  /** A sequence of `log_event` calls, es[0] first. */
  function PushAll<T>(log: seq<T>, es: seq<T>): seq<T> {
    if es == [] then log else Push(PushAll(log, es[..|es| - 1]), es[|es| - 1])
  }

  function Reversed<T>(s: seq<T>): (r: seq<T>)
    ensures |r| == |s|
    ensures forall i :: 0 <= i < |s| ==> r[i] == s[|s| - 1 - i]
  {
    if s == [] then [] else [s[|s| - 1]] + Reversed(s[..|s| - 1])
  }

  function Take<T>(s: seq<T>, n: nat): (r: seq<T>)
    ensures |r| == if |s| < n then |s| else n
  {
    if |s| <= n then s else s[..n]
  }

  /**
   * From a log within capacity, any run of appends leaves the newest entries
   * first, the earlier log after them, cut at the capacity.
   */
  lemma {:induction false} PushAllIsNewestFirst<T>(log: seq<T>, es: seq<T>)
    requires |log| <= Capacity
    ensures PushAll(log, es) == Take(Reversed(es) + log, Capacity)
  {
    if es != [] {
      var front, x := es[..|es| - 1], es[|es| - 1];
      PushAllIsNewestFirst(log, front);
      var before := Reversed(front) + log;
      assert Reversed(es) + log == [x] + before;
      var r := Push(Take(before, Capacity), x);
      var want := Take([x] + before, Capacity);
      assert |r| == |want|;
      forall i | 0 <= i < |r|
        ensures r[i] == want[i]
      {
        if i > 0 {
          assert r[i] == r[1..][i - 1];
        }
      }
    }
  }

  /** The log never holds more than the capacity. */
  lemma {:induction false} PushAllBounded<T>(log: seq<T>, es: seq<T>)
    requires |log| <= Capacity
    ensures |PushAll(log, es)| <= Capacity
  {
    PushAllIsNewestFirst(log, es);
  }

  /**
   * Fifty-one appends to an empty log: the first one is gone and the
   * newest is in front.
   */
  lemma FiftyOneAppends<T>(es: seq<T>)
    requires |es| == Capacity + 1
    ensures var r := PushAll([], es);
      |r| == Capacity && r[0] == es[Capacity] && r == Reversed(es[1..])
  {
    PushAllIsNewestFirst([], es);
    var r := PushAll([], es);
    assert Reversed(es) + [] == Reversed(es);
    forall i | 0 <= i < Capacity
      ensures r[i] == Reversed(es[1..])[i]
    {
    }
  }

  /** Appending two runs one after the other is appending their concatenation. */
  lemma {:induction false} PushAllAppend<T>(log: seq<T>, a: seq<T>, b: seq<T>)
    ensures PushAll(PushAll(log, a), b) == PushAll(log, a + b)
    decreases |b|
  {
    if b != [] {
      var ab := a + b;
      assert ab[..|ab| - 1] == a + b[..|b| - 1];
      assert ab[|ab| - 1] == b[|b| - 1];
      PushAllAppend(log, a, b[..|b| - 1]);
    } else {
      assert a + b == a;
    }
  }
}
