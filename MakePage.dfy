/**
 * `make_page`: the values the dashboard interpolates into its HTML template.
 * The template text itself is static and is not part of this model; the
 * page is the record of the interpolated fields. `localtime()` is an input.
 */
module MakePage {
  import opened Wrappers
  import opened Decimal
  import opened RtcUtils
  import opened EventLog

  /** `fmt(sec)`: hours, minutes and seconds, each zero-padded to two digits. */
  function Fmt(sec: nat): string {
    PaddedTriple(sec / 3600, (sec % 3600) / 60, sec % 60, ':')
  }

  /**
   * Below 100 hours `fmt` has the shape `DD:DD:DD`, and its three fields
   * put back together give the seconds, with minutes and seconds below 60
   * (and hours below 24 for a time of day).
   */
  lemma FmtReadsBack(sec: nat)
    requires sec < 360000
    ensures TripleShape(Fmt(sec), ':')
    ensures var (h, m, s) := ReadTriple(Fmt(sec), ':');
      h * 3600 + m * 60 + s == sec && m < 60 && s < 60 && (sec < 86400 ==> h < 24)
  {
    PaddedTripleReadsBack(sec / 3600, (sec % 3600) / 60, sec % 60, ':');
  }

  /** Every field has at least two columns, so `fmt` is never shorter than 8. */
  lemma FmtAtLeastEight(sec: nat)
    ensures |Fmt(sec)| >= 8
  {
  }

  /** Python truthiness of an optional number: None and zero are false. */
  predicate Truthy(v: Option<real>) {
    v.Some? && v.value != 0.0
  }

  /** `fmt(t) if t else "--"`: a time of 0 (midnight) shows as `--` too. */
  function TimeText(t: Option<nat>): (s: string)
    ensures s == "--" <==> t.None? || t.value == 0
  {
    if t.Some? && t.value != 0 then
      FmtAtLeastEight(t.value);
      Fmt(t.value)
    else "--"
  }

  /** `f"{x}{unit}" if x else "--"` for one reading. */
  function ReadingText(v: Option<real>, style: NumberStyle, unit: string, show: Show): string {
    if Truthy(v) then show(v.value, style) + unit else "--"
  }

  /**
   * With a unit that does not end in `-`, a reading shows as `--` exactly
   * when it is None or zero.
   */
  lemma ReadingTextDashes(v: Option<real>, style: NumberStyle, unit: string, show: Show)
    requires unit != [] && unit[|unit| - 1] != '-'
    ensures ReadingText(v, style, unit, show) == "--" <==> !Truthy(v)
  {
    if Truthy(v) {
      var s := show(v.value, style) + unit;
      assert s[|s| - 1] == unit[|unit| - 1];
    }
  }

  /** `<td>x</td>` for each text, in order. */
  function Cells(texts: seq<string>): string {
    if texts == [] then "" else "<td>" + texts[0] + "</td>" + Cells(texts[1..])
  }

  /** One table row of the log. */
  function RowHtml(e: LogEntry, show: Show): string {
    "<tr>" + Cells(CellTexts(e, show)) + "</tr>"
  }

  /** `"\n".join(xs)`. */
  function JoinLines(xs: seq<string>): string {
    if xs == [] then ""
    else if |xs| == 1 then xs[0]
    else xs[0] + "\n" + JoinLines(xs[1..])
  }

  /** `s.split("\n")`: always at least one piece. */
  function SplitLines(s: string): (pieces: seq<string>)
    ensures |pieces| >= 1
    ensures forall i :: 0 <= i < |pieces| ==> '\n' !in pieces[i]
    decreases |s|
  {
    if '\n' !in s then [s]
    else
      var i := FirstNewline(s);
      [s[..i]] + SplitLines(s[i + 1..])
  }

  function FirstNewline(s: string): (i: nat)
    requires '\n' in s
    ensures i < |s| && s[i] == '\n' && '\n' !in s[..i]
  {
    if s[0] == '\n' then 0
    else
      var j := FirstNewline(s[1..]);
      assert s[1..][..j] == s[1..j + 1];
      assert s[..j + 1] == [s[0]] + s[1..j + 1];
      1 + j
  }

  /** A string whose first newline is at j splits there first. */
  lemma SplitLinesAt(s: string, j: nat)
    requires j < |s| && s[j] == '\n' && '\n' !in s[..j]
    ensures SplitLines(s) == [s[..j]] + SplitLines(s[j + 1..])
  {
    assert s[j] in s;
  }

  /** Splitting a join of newline-free lines gives the lines back. */
  lemma {:induction false} SplitJoin(xs: seq<string>)
    requires |xs| >= 1
    requires forall i :: 0 <= i < |xs| ==> '\n' !in xs[i]
    ensures SplitLines(JoinLines(xs)) == xs
    decreases |xs|
  {
    if |xs| > 1 {
      var x, tail := xs[0], xs[1..];
      var rest := JoinLines(tail);
      var s := x + "\n" + rest;
      assert JoinLines(xs) == s;
      assert s[..|x|] == x && s[|x|] == '\n' && s[|x| + 1..] == rest;
      SplitLinesAt(s, |x|);
      assert forall i :: 0 <= i < |tail| ==> tail[i] == xs[i + 1];
      SplitJoin(tail);
      assert xs == [x] + tail;
    }
  }

  /** `logs` as the page sees it: None is treated as the empty list. */
  function LogsOrEmpty(logs: Option<seq<LogEntry>>): seq<LogEntry> {
    if logs.None? then [] else logs.value
  }

  /** The rows string: one row per entry, in the log's order, joined by newlines. */
  function Rows(logs: Option<seq<LogEntry>>, show: Show): string {
    var entries := LogsOrEmpty(logs);
    JoinLines(seq(|entries|, i requires 0 <= i < |entries| => RowHtml(entries[i], show)))
  }

  /** No log, or an empty log, gives an empty table body. */
  lemma RowsOfNoLogs(show: Show)
    ensures Rows(None, show) == "" && Rows(Some([]), show) == ""
  {
  }

  predicate NewlineFree(e: LogEntry, show: Show) {
    forall c :: c in CellTexts(e, show) ==> '\n' !in c
  }

  lemma {:induction false} CellsNewlineFree(texts: seq<string>)
    requires forall c :: c in texts ==> '\n' !in c
    ensures '\n' !in Cells(texts)
    decreases |texts|
  {
    if texts != [] {
      CellsNewlineFree(texts[1..]);
    }
  }

  /**
   * Splitting the rows string at its newlines gives exactly one row per log
   * entry, in the log's order, provided no cell text holds a newline.
   */
  lemma RowsOnePerEntry(logs: seq<LogEntry>, show: Show)
    requires |logs| >= 1
    requires forall e :: e in logs ==> NewlineFree(e, show)
    ensures var rows := SplitLines(Rows(Some(logs), show));
      |rows| == |logs| && forall i :: 0 <= i < |logs| ==> rows[i] == RowHtml(logs[i], show)
  {
    var xs := seq(|logs|, i requires 0 <= i < |logs| => RowHtml(logs[i], show));
    forall i | 0 <= i < |xs|
      ensures '\n' !in xs[i]
    {
      assert logs[i] in logs;
      CellsNewlineFree(CellTexts(logs[i], show));
    }
    SplitJoin(xs);
  }

  /** The fields `make_page` interpolates into the page. */
  datatype Page = Page(
    currentDate: string, currentTime: string, status: string,
    onStr: string, offStr: string,
    tempStr: string, humStr: string, soilStr: string,
    rows: string)

  /** Unit of the page's temperature reading. */
  const PageTempUnit: string := " \U{00B0}F"

  /**
   * make_page. The temperature and humidity are printed with `str`, the
   * soil reading with two decimals.
   */
  function MakePage(
    now: TimeTuple, status: string, onTime: Option<nat>, offTime: Option<nat>,
    temp: Option<real>, humidity: Option<real>, soil: Option<real>,
    logs: Option<seq<LogEntry>>, show: Show): Page
  {
    Page(
      DateUnpadded(now), Time24h(now), status,
      TimeText(onTime), TimeText(offTime),
      ReadingText(temp, Repr, PageTempUnit, show),
      ReadingText(humidity, Repr, " %", show),
      ReadingText(soil, Fixed(2), " %", show),
      Rows(logs, show))
  }

  /**
   * Every reading field is `--` exactly when its value is None or zero, and
   * no log means no rows.
   */
  lemma PagePlaceholders(
    now: TimeTuple, status: string, onTime: Option<nat>, offTime: Option<nat>,
    temp: Option<real>, humidity: Option<real>, soil: Option<real>,
    logs: Option<seq<LogEntry>>, show: Show)
    ensures var p := MakePage(now, status, onTime, offTime, temp, humidity, soil, logs, show);
      (p.tempStr == "--" <==> !Truthy(temp))
      && (p.humStr == "--" <==> !Truthy(humidity))
      && (p.soilStr == "--" <==> !Truthy(soil))
      && (p.onStr == "--" <==> onTime.None? || onTime.value == 0)
      && (LogsOrEmpty(logs) == [] ==> p.rows == "")
  {
    ReadingTextDashes(temp, Repr, PageTempUnit, show);
    ReadingTextDashes(humidity, Repr, " %", show);
    ReadingTextDashes(soil, Fixed(2), " %", show);
  }
}
