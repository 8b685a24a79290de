/**
 * The grow-box control loop: the light window, the dry-soil pump, the
 * periodic and the humidity fan, the event log they write to, and the
 * routing of one web request. Pins, sensors, clocks and sockets are foreign:
 * readings, clock values and received bytes are inputs, and the pins are
 * fields whose values the methods set. Sleeps are not modelled; a run of an
 * actuator is its switching on and then off.
 *
 * The pure functions below state what one step does to the controller's
 * state; the class `GrowBox` does it in place and is proved to match them.
 */
module Controller {
  import opened Wrappers
  import opened RtcUtils
  import opened EventLog
  import Soil
  import Temp
  import MakePage

  // ------------------------------------------------------------ configuration

  const LedOnHour: nat := 7
  const LedOnMinute: nat := 0
  const LedOffHour: nat := 22
  const LedOffMinute: nat := 0
  /** Seconds between periodic fan runs. */
  const FanInterval: int := 30 * 60
  /** The pump runs when soil moisture is below this percentage. */
  const SoilDryThreshold: real := 35.0
  /** The humidity fan runs when humidity is above this percentage. */
  const HumidityThreshold: real := 60.0

  const LightOnLabel: string := "Light turned ON"
  const LightOffLabel: string := "Light turned OFF"
  const PumpAutoLabel: string := "Pump ran (auto)"
  const FanPeriodicLabel: string := "Fan ran (periodic)"
  const FanHumidityLabel: string := "Fan ran (humidity)"
  const PumpManualLabel: string := "Pump ran (manual)"

  // ------------------------------------------------------------ light window

  function OnSeconds(): nat {
    LedOnHour * 3600 + LedOnMinute * 60
  }

  function OffSeconds(): nat {
    LedOffHour * 3600 + LedOffMinute * 60
  }

  function SecondsOfDay(t: TimeTuple): nat {
    t.hour * 3600 + t.minute * 60 + t.second
  }

  /** update_led_state's test: on inside the half-open window [on_sec, off_sec). */
  predicate LightShouldBeOn(cur: int) {
    OnSeconds() <= cur < OffSeconds()
  }

  /**
   * The window is 07:00:00 (25200 s) up to but not including 22:00:00
   * (79200 s); for a real time of day that is: the hour is 7 to 21.
   */
  lemma LightWindow(t: TimeTuple)
    requires ValidTime(t)
    ensures OnSeconds() == 25200 && OffSeconds() == 79200
    ensures LightShouldBeOn(25200) && !LightShouldBeOn(25199)
    ensures LightShouldBeOn(79199) && !LightShouldBeOn(79200)
    ensures LightShouldBeOn(SecondsOfDay(t)) <==> 7 <= t.hour < 22
  {
    var rest := t.minute * 60 + t.second;
    assert 0 <= rest < 3600;
    if t.hour < 7 {
      assert t.hour * 3600 <= 6 * 3600;
    } else if t.hour >= 22 {
      assert t.hour * 3600 >= 22 * 3600;
    } else {
      assert 7 * 3600 <= t.hour * 3600 <= 21 * 3600;
    }
  }

  // ------------------------------------------------------------ state

  /** What one loop iteration read from the sensors. The soil reading is never None. */
  datatype Readings = Readings(temp: Option<real>, humidity: Option<real>, soil: real)

  predicate Present(r: Readings) {
    r.temp.Some? && r.humidity.Some?
  }

  /**
   * Every clock reading one iteration makes, in program order: the time of
   * day the light test uses, the time each `log_event` stamps, and the two
   * `time()` calls of the periodic fan (the test, and the value stored after
   * the run).
   */
  datatype Clocks = Clocks(
    light: TimeTuple, lightLog: TimeTuple, pumpLog: TimeTuple,
    fanCheck: int, fanLog: TimeTuple, fanDone: int, humidityLog: TimeTuple)

  /** The pins, the periodic-fan timer and the log. */
  datatype State = State(led: bool, fan: bool, pump: bool, lastFanRun: int, logs: seq<LogEntry>)

  /** Between iterations the fan and the pump are off and the log is within capacity. */
  predicate Idle(s: State) {
    !s.fan && !s.pump && |s.logs| <= Capacity
  }

  /** A step ran to its end, or an exception ended the iteration early. */
  datatype Outcome = Completed(state: State) | Aborted(state: State)

  /** The record `log_event` inserts. */
  function Entry(event: string, r: Readings, at: TimeTuple): LogEntry
    requires Present(r)
  {
    LogEntry(DateUnpadded(at), Time24h(at), event, r.temp.value, r.humidity.value, r.soil)
  }

  /**
   * log_event: formatting a None reading with `:.1f` raises before anything
   * is inserted, which ends the iteration.
   */
  function Logged(s: State, event: string, r: Readings, at: TimeTuple): (o: Outcome)
    ensures o.Completed? <==> Present(r)
    ensures o.state.logs == if Present(r) then Push(s.logs, Entry(event, r, at)) else s.logs
    ensures o.state == s.(logs := o.state.logs)
  {
    if Present(r) then Completed(s.(logs := Push(s.logs, Entry(event, r, at)))) else Aborted(s)
  }

  // ------------------------------------------------------------ the rules

  function LightRule(s: State, r: Readings, c: Clocks): Outcome {
    var on := LightShouldBeOn(SecondsOfDay(c.light));
    var s1 := s.(led := on);
    if on && !s.led then Logged(s1, LightOnLabel, r, c.lightLog)
    else if !on && s.led then Logged(s1, LightOffLabel, r, c.lightLog)
    else Completed(s1)
  }

  predicate PumpDue(r: Readings) {
    r.soil < SoilDryThreshold
  }

  function PumpRule(s: State, r: Readings, c: Clocks): Outcome {
    if PumpDue(r) then Logged(s.(pump := false), PumpAutoLabel, r, c.pumpLog) else Completed(s)
  }

  predicate PeriodicFanDue(s: State, c: Clocks) {
    c.fanCheck - s.lastFanRun >= FanInterval
  }

  /** The timer is set from the clock read after the run, not from the test's reading. */
  function PeriodicFanRule(s: State, r: Readings, c: Clocks): Outcome {
    if PeriodicFanDue(s, c) then
      match Logged(s.(fan := false), FanPeriodicLabel, r, c.fanLog)
      case Completed(s1) => Completed(s1.(lastFanRun := c.fanDone))
      case Aborted(s1) => Aborted(s1)
    else Completed(s)
  }

  predicate HumidityFanDue(s: State, r: Readings) {
    r.humidity.Some? && r.humidity.value > HumidityThreshold && !s.fan
  }

  function HumidityFanRule(s: State, r: Readings, c: Clocks): Outcome {
    if HumidityFanDue(s, r) then Logged(s.(fan := false), FanHumidityLabel, r, c.humidityLog) else Completed(s)
  }

  /** The four rules in the loop's order; an exception skips the rest. */
  function Rules(s: State, r: Readings, c: Clocks): Outcome {
    match LightRule(s, r, c)
    case Aborted(s1) => Aborted(s1)
    case Completed(s1) => AfterLight(s1, r, c)
  }

  function AfterLight(s: State, r: Readings, c: Clocks): Outcome {
    match PumpRule(s, r, c)
    case Aborted(s2) => Aborted(s2)
    case Completed(s2) => AfterPump(s2, r, c)
  }

  function AfterPump(s: State, r: Readings, c: Clocks): Outcome {
    match PeriodicFanRule(s, r, c)
    case Aborted(s3) => Aborted(s3)
    case Completed(s3) => HumidityFanRule(s3, r, c)
  }

  // ------------------------------------------------------------ rule properties

  /** A logged event keeps the log within capacity and touches nothing else. */
  lemma LoggedKeepsIdle(s: State, event: string, r: Readings, at: TimeTuple)
    requires Idle(s)
    ensures Idle(Logged(s, event, r, at).state)
  {
    if Present(r) {
      assert |Push(s.logs, Entry(event, r, at))| <= Capacity;
    }
  }

  lemma LightKeepsIdle(s: State, r: Readings, c: Clocks)
    requires Idle(s)
    ensures Idle(LightRule(s, r, c).state)
  {
    var on := LightShouldBeOn(SecondsOfDay(c.light));
    LoggedKeepsIdle(s.(led := on), if on then LightOnLabel else LightOffLabel, r, c.lightLog);
  }

  lemma PumpKeepsIdle(s: State, r: Readings, c: Clocks)
    requires Idle(s)
    ensures Idle(PumpRule(s, r, c).state)
  {
    LoggedKeepsIdle(s, PumpAutoLabel, r, c.pumpLog);
  }

  lemma PeriodicFanKeepsIdle(s: State, r: Readings, c: Clocks)
    requires Idle(s)
    ensures Idle(PeriodicFanRule(s, r, c).state)
  {
    LoggedKeepsIdle(s, FanPeriodicLabel, r, c.fanLog);
  }

  lemma HumidityFanKeepsIdle(s: State, r: Readings, c: Clocks)
    requires Idle(s)
    ensures Idle(HumidityFanRule(s, r, c).state)
  {
    LoggedKeepsIdle(s, FanHumidityLabel, r, c.humidityLog);
  }

  lemma AfterPumpKeepsIdle(s: State, r: Readings, c: Clocks)
    requires Idle(s)
    ensures Idle(AfterPump(s, r, c).state)
  {
    PeriodicFanKeepsIdle(s, r, c);
    if PeriodicFanRule(s, r, c).Completed? {
      HumidityFanKeepsIdle(PeriodicFanRule(s, r, c).state, r, c);
    }
  }

  lemma AfterLightKeepsIdle(s: State, r: Readings, c: Clocks)
    requires Idle(s)
    ensures Idle(AfterLight(s, r, c).state)
  {
    PumpKeepsIdle(s, r, c);
    if PumpRule(s, r, c).Completed? {
      AfterPumpKeepsIdle(PumpRule(s, r, c).state, r, c);
    }
  }

  /**
   * An iteration, whether it completes or is cut short, leaves the fan and
   * the pump off and the log within capacity.
   */
  lemma RulesKeepIdle(s: State, r: Readings, c: Clocks)
    requires Idle(s)
    ensures Idle(Rules(s, r, c).state)
  {
    LightKeepsIdle(s, r, c);
    if LightRule(s, r, c).Completed? {
      AfterLightKeepsIdle(LightRule(s, r, c).state, r, c);
    }
  }

  /**
   * The light follows the window, and an event is logged only on a change:
   * ON when it was off, OFF when it was on, nothing otherwise.
   */
  lemma LightLoggedOnTransition(s: State, r: Readings, c: Clocks)
    requires Present(r)
    ensures var o := LightRule(s, r, c);
      var on := LightShouldBeOn(SecondsOfDay(c.light));
      o.Completed? && o.state.led == on
      && o.state.logs == (if on == s.led then s.logs
                          else Push(s.logs, Entry(if on then LightOnLabel else LightOffLabel, r, c.lightLog)))
      && o.state == s.(led := on, logs := o.state.logs)
  {
  }

  /** The pump runs and logs exactly when soil is below 35; 35 itself does not trigger. */
  lemma PumpRunsWhenDry(s: State, r: Readings, c: Clocks)
    requires Present(r)
    ensures PumpRule(s, r, c) == Completed(
      if r.soil < 35.0 then s.(pump := false, logs := Push(s.logs, Entry(PumpAutoLabel, r, c.pumpLog)))
      else s)
  {
  }

  /**
   * The periodic fan runs exactly when 1800 s have passed since the stored
   * run; it then stores the post-run clock, and otherwise leaves the timer.
   */
  lemma PeriodicFanTimer(s: State, r: Readings, c: Clocks)
    requires Present(r)
    ensures var o := PeriodicFanRule(s, r, c);
      o.Completed?
      && (c.fanCheck - s.lastFanRun >= 1800 ==>
            o.state == s.(fan := false, lastFanRun := c.fanDone,
                           logs := Push(s.logs, Entry(FanPeriodicLabel, r, c.fanLog))))
      && (c.fanCheck - s.lastFanRun < 1800 ==> o.state == s)
  {
  }

  /** The humidity fan runs exactly when humidity is known, above 60, and the fan is off. */
  lemma HumidityFanWhenHumid(s: State, r: Readings, c: Clocks)
    requires Present(r)
    ensures HumidityFanRule(s, r, c) == Completed(
      if r.humidity.value > 60.0 && !s.fan
      then s.(fan := false, logs := Push(s.logs, Entry(FanHumidityLabel, r, c.humidityLog)))
      else s)
  {
  }

  /** The entry the light rule logs, if any. */
  function LightEvents(s: State, r: Readings, c: Clocks): seq<LogEntry>
    requires Present(r)
  {
    var on := LightShouldBeOn(SecondsOfDay(c.light));
    if on && !s.led then [Entry(LightOnLabel, r, c.lightLog)]
    else if !on && s.led then [Entry(LightOffLabel, r, c.lightLog)] else []
  }

  function PumpEvents(r: Readings, c: Clocks): seq<LogEntry>
    requires Present(r)
  {
    if r.soil < 35.0 then [Entry(PumpAutoLabel, r, c.pumpLog)] else []
  }

  function PeriodicFanEvents(s: State, r: Readings, c: Clocks): seq<LogEntry>
    requires Present(r)
  {
    if c.fanCheck - s.lastFanRun >= 1800 then [Entry(FanPeriodicLabel, r, c.fanLog)] else []
  }

  function HumidityFanEvents(r: Readings, c: Clocks): seq<LogEntry>
    requires Present(r)
  {
    if r.humidity.value > 60.0 then [Entry(FanHumidityLabel, r, c.humidityLog)] else []
  }

  /** The events one iteration logs, in order, when both readings are present. */
  function Fired(s: State, r: Readings, c: Clocks): seq<LogEntry>
    requires Present(r)
  {
    LightEvents(s, r, c) + PumpEvents(r, c) + PeriodicFanEvents(s, r, c) + HumidityFanEvents(r, c)
  }

  lemma PushAllOne(log: seq<LogEntry>, es: seq<LogEntry>)
    requires |es| <= 1
    ensures PushAll(log, es) == if es == [] then log else Push(log, es[0])
  {
    if es != [] {
      assert es[..0] == [];
    }
  }

  /** The three rules before the humidity fan, with readings present and the fan off. */
  lemma {:induction false} FirstThreeRules(s: State, r: Readings, c: Clocks)
    requires Present(r) && !s.fan && !s.pump
    ensures var o1 := LightRule(s, r, c);
      var o2 := PumpRule(o1.state, r, c);
      var o3 := PeriodicFanRule(o2.state, r, c);
      o1.Completed? && o2.Completed? && o3.Completed?
      && o3.state == State(LightShouldBeOn(SecondsOfDay(c.light)), false, false,
           if c.fanCheck - s.lastFanRun >= 1800 then c.fanDone else s.lastFanRun,
           PushAll(s.logs, LightEvents(s, r, c) + PumpEvents(r, c) + PeriodicFanEvents(s, r, c)))
  {
    var l, p, f := LightEvents(s, r, c), PumpEvents(r, c), PeriodicFanEvents(s, r, c);
    LightLoggedOnTransition(s, r, c);
    PushAllOne(s.logs, l);
    var s1 := LightRule(s, r, c).state;
    PumpRunsWhenDry(s1, r, c);
    PushAllOne(s1.logs, p);
    PushAllAppend(s.logs, l, p);
    var s2 := PumpRule(s1, r, c).state;
    PeriodicFanTimer(s2, r, c);
    PushAllOne(s2.logs, f);
    PushAllAppend(s.logs, l + p, f);
  }

  /**
   * With both readings present a whole iteration completes: the light
   * follows the window, the fan and the pump end off, the timer moves only
   * when the periodic fan ran, and the log receives exactly the fired
   * events in order. The periodic run leaves the fan off, so the humidity
   * fan can run in the same iteration.
   */
  lemma {:induction false} TickLogsFiredEvents(s: State, r: Readings, c: Clocks)
    requires Present(r) && Idle(s)
    ensures Rules(s, r, c) == Completed(State(
      LightShouldBeOn(SecondsOfDay(c.light)), false, false,
      if c.fanCheck - s.lastFanRun >= 1800 then c.fanDone else s.lastFanRun,
      PushAll(s.logs, Fired(s, r, c))))
  {
    var l, p, f, h := LightEvents(s, r, c), PumpEvents(r, c), PeriodicFanEvents(s, r, c), HumidityFanEvents(r, c);
    FirstThreeRules(s, r, c);
    var s3 := PeriodicFanRule(PumpRule(LightRule(s, r, c).state, r, c).state, r, c).state;
    HumidityFanWhenHumid(s3, r, c);
    PushAllOne(s3.logs, h);
    PushAllAppend(s.logs, l + p + f, h);
  }

  /**
   * A missing reading loses every event of the iteration: the light still
   * switches, but the log and the fan timer are untouched. So while the
   * sensor gives no reading, the periodic fan is due again on every
   * iteration.
   */
  lemma MissingReadingLogsNothing(s: State, r: Readings, c: Clocks)
    requires !Present(r)
    ensures var o := Rules(s, r, c);
      o.state.led == LightShouldBeOn(SecondsOfDay(c.light))
      && o.state.logs == s.logs && o.state.lastFanRun == s.lastFanRun
      && (PeriodicFanDue(s, c) ==> o.Aborted?)
  {
  }

  /** With the timer at its start value 0, the first iteration's fan test passes. */
  lemma FirstIterationRunsFan(c: Clocks, led: bool)
    requires c.fanCheck >= 1800
    ensures PeriodicFanDue(State(led, false, false, 0, []), c)
  {
  }

  // ------------------------------------------------------------ requests

  /** `b"GET /?pump=1"` as bytes. */
  const PumpMarker: seq<Octet> := [71, 69, 84, 32, 47, 63, 112, 117, 109, 112, 61, 49]

  /** `needle in hay` for byte strings. */
  predicate Contains(hay: seq<Octet>, needle: seq<Octet>)
    decreases |hay|
  {
    |needle| <= |hay| && (hay[..|needle|] == needle || Contains(hay[1..], needle))
  }

  /** The needle occurs in hay starting at position i. */
  predicate OccursAt(hay: seq<Octet>, needle: seq<Octet>, i: int) {
    0 <= i <= |hay| - |needle| && hay[i..i + |needle|] == needle
  }

  /** Substring search finds exactly the positions where the needle occurs. */
  lemma {:induction false} ContainsIff(hay: seq<Octet>, needle: seq<Octet>)
    ensures Contains(hay, needle) <==> exists i :: OccursAt(hay, needle, i)
    decreases |hay|
  {
    if |needle| <= |hay| {
      if hay[..|needle|] == needle {
        assert OccursAt(hay, needle, 0);
      } else {
        ContainsIff(hay[1..], needle);
        if Contains(hay[1..], needle) {
          var i :| OccursAt(hay[1..], needle, i);
          assert hay[i + 1..i + 1 + |needle|] == hay[1..][i..i + |needle|];
          assert OccursAt(hay, needle, i + 1);
        }
        if exists i :: OccursAt(hay, needle, i) {
          var i :| OccursAt(hay, needle, i);
          assert i != 0;
          assert hay[1..][i - 1..i - 1 + |needle|] == hay[i..i + |needle|];
          assert OccursAt(hay[1..], needle, i - 1);
        }
      }
    }
  }

  /**
   * The marker anywhere in a request, whatever surrounds it, passes the
   * handler's `in` test; the request reaches that test only if it decodes.
   */
  lemma MarkerAnywhereRoutesToPump(before: seq<Octet>, after: seq<Octet>)
    ensures Contains(before + PumpMarker + after, PumpMarker)
  {
    var req := before + PumpMarker + after;
    assert OccursAt(req, PumpMarker, |before|);
    ContainsIff(req, PumpMarker);
  }

  /**
   * What `accept`/`recv` produced: a timeout, or the received bytes and
   * whether they decode as UTF-8 (the request line is decoded for printing
   * before routing, and a failed decode ends the handler).
   */
  datatype Connection = NoClient | Client(request: seq<Octet>, decodes: bool)

  datatype Response = NoResponse | Redirect | Dashboard(page: MakePage.Page)

  /** A redirect back to the dashboard. */
  const RedirectHead: string := "HTTP/1.1 302 Found\r\nLocation: /\r\n\r\n"

  /** The dashboard's status line and content type. */
  const PageHead: string := "HTTP/1.1 200 OK\r\nContent-Type: text/html\r\n\r\n"

  /** The status line and headers sent for a response. */
  function ResponseHead(resp: Response): string {
    match resp
    case NoResponse => ""
    case Redirect => RedirectHead
    case Dashboard(_) => PageHead
  }

  function StatusText(led: bool): string {
    if led then "ON" else "OFF"
  }

  /**
   * The request handler. A pump request runs the pump and logs it (a missing
   * reading raises inside `log_event`, caught by the handler, and nothing is
   * sent); any other request gets the dashboard.
   */
  function Serve(s: State, conn: Connection, r: Readings, logAt: TimeTuple, pageNow: TimeTuple,
                 show: Show): (Response, State)
  {
    match conn
    case NoClient => (NoResponse, s)
    case Client(request, decodes) =>
      if !decodes then (NoResponse, s)
      else if Contains(request, PumpMarker) then
        match Logged(s.(pump := false), PumpManualLabel, r, logAt)
        case Completed(s1) => (Redirect, s1)
        case Aborted(s1) => (NoResponse, s1)
      else
        (Dashboard(MakePage.MakePage(pageNow, StatusText(s.led), Some(OnSeconds()), Some(OffSeconds()),
                                     r.temp, r.humidity, Some(r.soil), Some(s.logs), show)), s)
  }

  /**
   * A request whose bytes do not decode as UTF-8 raises in the handler
   * before the marker test, which the handler catches: the pump does not
   * run, nothing is sent and nothing is logged, whatever the bytes hold. A
   * request that decodes and holds the marker runs the pump. With both
   * readings present it gets a 302 to `/` and adds exactly one
   * "Pump ran (manual)" entry; with a reading missing, `log_event` raises
   * inside the handler, which catches it, so nothing is sent and nothing is
   * logged, but the pump has run. Any other request that decodes gets the
   * 200 HTML page and leaves the state alone.
   */
  lemma ServeRoutes(s: State, request: seq<Octet>, decodes: bool, r: Readings, logAt: TimeTuple,
                    pageNow: TimeTuple, show: Show)
    ensures var (resp, s') := Serve(s, Client(request, decodes), r, logAt, pageNow, show);
      (!decodes ==>
         resp == NoResponse
         && s' == s)
      && (decodes && Contains(request, PumpMarker) && Present(r) ==>
         resp == Redirect
         && s' == s.(pump := false, logs := Push(s.logs, Entry(PumpManualLabel, r, logAt))))
      && (decodes && Contains(request, PumpMarker) && !Present(r) ==>
         resp == NoResponse
         && s' == s.(pump := false))
      && (decodes && !Contains(request, PumpMarker) ==>
         resp.Dashboard?
         && s' == s)
  {
    if decodes && Contains(request, PumpMarker) {
      if Present(r) {
        assert Logged(s.(pump := false), PumpManualLabel, r, logAt)
            == Completed(s.(pump := false, logs := Push(s.logs, Entry(PumpManualLabel, r, logAt))));
      } else {
        assert Logged(s.(pump := false), PumpManualLabel, r, logAt) == Aborted(s.(pump := false));
      }
    }
  }

  /**
   * The headers a decoded request is answered with: the redirect to `/` for
   * a pump request that logged, nothing for one whose logging raised, and
   * the 200 HTML headers for any other request.
   */
  lemma ServeHeaders(s: State, request: seq<Octet>, r: Readings, logAt: TimeTuple, pageNow: TimeTuple,
                     show: Show)
    ensures ResponseHead(Serve(s, Client(request, true), r, logAt, pageNow, show).0)
      == if !Contains(request, PumpMarker) then PageHead
         else if Present(r) then RedirectHead
         else ""
  {
    ServeRoutes(s, request, true, r, logAt, pageNow, show);
  }

  /**
   * On the dashboard the light times always show (the window's ends are not
   * midnight), and fully dry soil, which reads as 0.0, shows as `--`.
   */
  lemma DashboardOfDrySoil(s: State, request: seq<Octet>, raw: int, temp: Option<real>,
                           humidity: Option<real>, logAt: TimeTuple, pageNow: TimeTuple, show: Show)
    requires !Contains(request, PumpMarker) && raw >= Soil.DryValue
    ensures var r := Readings(temp, humidity, Soil.MoisturePercent(raw));
      var page := Serve(s, Client(request, true), r, logAt, pageNow, show).0.page;
      page.soilStr == "--" && page.onStr != "--" && page.offStr != "--"
  {
  }

  /** The request handler keeps the fan and pump off and the log within capacity. */
  lemma ServeKeepsIdle(s: State, conn: Connection, r: Readings, logAt: TimeTuple, pageNow: TimeTuple,
                       show: Show)
    requires Idle(s)
    ensures Idle(Serve(s, conn, r, logAt, pageNow, show).1)
  {
    LoggedKeepsIdle(s.(pump := false), PumpManualLabel, r, logAt);
  }

  // ------------------------------------------------------------ one iteration

  /**
   * One pass of the main loop: read the sensors, apply the rules, serve one
   * request. An exception from `get_temp` or from a rule's `log_event` ends
   * the pass (the outer handler catches it), so no request is served then.
   */
  function Iteration(s: State, sensor: Temp.Outcome<Temp.Pair>, soilRaw: int, c: Clocks,
                     conn: Connection, logAt: TimeTuple, pageNow: TimeTuple, show: Show): (Response, State)
  {
    match sensor
    case Raised(_) => (NoResponse, s)
    case Returned(p) =>
      var r := Readings(p.temp, p.humidity, Soil.MoisturePercent(soilRaw));
      match Rules(s, r, c)
      case Aborted(s1) => (NoResponse, s1)
      case Completed(s1) => Serve(s1, conn, r, logAt, pageNow, show)
  }

  /** Every pass of the loop, however it ends, keeps the controller idle between passes. */
  lemma IterationKeepsIdle(s: State, sensor: Temp.Outcome<Temp.Pair>, soilRaw: int, c: Clocks,
                           conn: Connection, logAt: TimeTuple, pageNow: TimeTuple, show: Show)
    requires Idle(s)
    ensures Idle(Iteration(s, sensor, soilRaw, c, conn, logAt, pageNow, show).1)
  {
    if sensor.Returned? {
      var r := Readings(sensor.value.temp, sensor.value.humidity, Soil.MoisturePercent(soilRaw));
      RulesKeepIdle(s, r, c);
      if Rules(s, r, c).Completed? {
        ServeKeepsIdle(Rules(s, r, c).state, conn, r, logAt, pageNow, show);
      }
    }
  }

  /**
   * A sensor whose reset raised OSError leaves the whole pass without effect:
   * the light is not even switched, and no request is served.
   */
  lemma SensorResetFailureSkipsPass(s: State, t: Temp.Transfer, soilRaw: int, c: Clocks,
                                    conn: Connection, logAt: TimeTuple, pageNow: TimeTuple, show: Show)
    ensures Iteration(s, Temp.GetTemp(Temp.ResetFailed, t), soilRaw, c, conn, logAt, pageNow, show) == (NoResponse, s)
  {
  }

  /**
   * A sensor that gives no reading, because the I2C transfer failed or the
   * frame's busy bit is set, yields None for both readings. When the
   * periodic fan is due, its `log_event` then raises and ends the pass: the
   * light still switches, but no event is logged, no request is served, and
   * the fan stays due, so it runs again on the next pass.
   */
  lemma BusyReadingKeepsFanDue(s: State, t: Temp.Transfer, soilRaw: int, c: Clocks,
                               conn: Connection, logAt: TimeTuple, pageNow: TimeTuple, show: Show)
    requires t.BusError? || Temp.Busy(t.frame[0])
    requires PeriodicFanDue(s, c)
    ensures var (resp, s') := Iteration(s, Temp.GetTemp(Temp.Ready, t), soilRaw, c, conn, logAt, pageNow, show);
      resp == NoResponse && s'.logs == s.logs && s'.lastFanRun == s.lastFanRun
      && s'.led == LightShouldBeOn(SecondsOfDay(c.light))
  {
    var r := Readings(None, None, Soil.MoisturePercent(soilRaw));
    MissingReadingLogsNothing(s, r, c);
  }

  // ------------------------------------------------------------ the controller

  /** The controller's module-level state: the three pins, the fan timer and the log. */
  class GrowBox {
    var led: bool
    var fan: bool
    var pump: bool
    var lastFanRun: int
    var logs: seq<LogEntry>

    function Snapshot(): State
      reads this
    {
      State(led, fan, pump, lastFanRun, logs)
    }

    ghost predicate Valid()
      reads this
    {
      Idle(Snapshot())
    }

    /** Start-up: all pins off, the fan timer at 0, the log empty. */
    constructor ()
      ensures Valid() && Snapshot() == State(false, false, false, 0, [])
    {
      led, fan, pump := false, false, false;
      lastFanRun := 0;
      logs := [];
    }

    /** log_event with both readings present: the entry goes in front, capped at the capacity. */
    method LogEvent(event: string, r: Readings, at: TimeTuple)
      requires Present(r)
      requires Valid()
      modifies this
      ensures Valid()
      ensures Snapshot() == old(Snapshot()).(logs := Push(old(logs), Entry(event, r, at)))
    {
      logs := [Entry(event, r, at)] + logs;
      if |logs| > Capacity {
        logs := logs[..|logs| - 1];
      }
    }

    /** run_pump: on, then off. */
    method RunPump()
      requires Valid()
      modifies this
      ensures Valid()
      ensures Snapshot() == old(Snapshot()).(pump := false)
    {
      pump := true;
      pump := false;
    }

    /** One fan run: on, then off. */
    method RunFan()
      requires Valid()
      modifies this
      ensures Valid()
      ensures Snapshot() == old(Snapshot()).(fan := false)
    {
      fan := true;
      fan := false;
    }

    /** update_led_state: the pin follows the window, whose ends are returned with its status. */
    method UpdateLedState(now: TimeTuple) returns (status: string, onSec: nat, offSec: nat)
      requires Valid()
      modifies this
      ensures Valid()
      ensures Snapshot() == old(Snapshot()).(led := LightShouldBeOn(SecondsOfDay(now)))
      ensures status == StatusText(led) && onSec == OnSeconds() && offSec == OffSeconds()
    {
      var cur := now.hour * 3600 + now.minute * 60 + now.second;
      onSec := LedOnHour * 3600 + LedOnMinute * 60;
      offSec := LedOffHour * 3600 + LedOffMinute * 60;
      if onSec <= cur < offSec {
        led := true;
        status := "ON";
      } else {
        led := false;
        status := "OFF";
      }
    }

    /** The light part of the loop: switch, and log a change. */
    method LightStep(r: Readings, c: Clocks) returns (completed: bool)
      requires Valid()
      modifies this
      ensures Valid()
      ensures (if completed then Completed(Snapshot()) else Aborted(Snapshot())) == LightRule(old(Snapshot()), r, c)
    {
      var prev := led;
      var status, _, _ := UpdateLedState(c.light);
      completed := true;
      if status == "ON" && !prev {
        if !Present(r) { return false; }
        LogEvent(LightOnLabel, r, c.lightLog);
      } else if status == "OFF" && prev {
        if !Present(r) { return false; }
        LogEvent(LightOffLabel, r, c.lightLog);
      }
    }

    /** The dry-soil pump. */
    method PumpStep(r: Readings, c: Clocks) returns (completed: bool)
      requires Valid()
      modifies this
      ensures Valid()
      ensures (if completed then Completed(Snapshot()) else Aborted(Snapshot())) == PumpRule(old(Snapshot()), r, c)
    {
      completed := true;
      if r.soil < SoilDryThreshold {
        RunPump();
        if !Present(r) { return false; }
        LogEvent(PumpAutoLabel, r, c.pumpLog);
      }
    }

    /** The periodic fan and its timer. */
    method PeriodicFanStep(r: Readings, c: Clocks) returns (completed: bool)
      requires Valid()
      modifies this
      ensures Valid()
      ensures (if completed then Completed(Snapshot()) else Aborted(Snapshot())) == PeriodicFanRule(old(Snapshot()), r, c)
    {
      completed := true;
      if c.fanCheck - lastFanRun >= FanInterval {
        RunFan();
        if !Present(r) { return false; }
        LogEvent(FanPeriodicLabel, r, c.fanLog);
        lastFanRun := c.fanDone;
      }
    }

    /** The humidity fan. */
    method HumidityFanStep(r: Readings, c: Clocks) returns (completed: bool)
      requires Valid()
      modifies this
      ensures Valid()
      ensures (if completed then Completed(Snapshot()) else Aborted(Snapshot())) == HumidityFanRule(old(Snapshot()), r, c)
    {
      completed := true;
      if r.humidity.Some? && r.humidity.value > HumidityThreshold && !fan {
        RunFan();
        if !Present(r) { return false; }
        LogEvent(FanHumidityLabel, r, c.humidityLog);
      }
    }

    /**
     * The rule part of one loop iteration. `completed` is false when a
     * `log_event` raised, which skips the rest of the iteration.
     */
    method Tick(r: Readings, c: Clocks) returns (completed: bool)
      requires Valid()
      modifies this
      ensures Valid()
      ensures (if completed then Completed(Snapshot()) else Aborted(Snapshot())) == Rules(old(Snapshot()), r, c)
    {
      ghost var s0 := Snapshot();
      RulesKeepIdle(s0, r, c);
      completed := LightStep(r, c);
      if !completed { return; }
      ghost var s1 := Snapshot();
      assert Rules(s0, r, c) == AfterLight(s1, r, c);
      completed := PumpStep(r, c);
      if !completed { return; }
      ghost var s2 := Snapshot();
      assert Rules(s0, r, c) == AfterPump(s2, r, c);
      completed := PeriodicFanStep(r, c);
      if !completed { return; }
      assert Rules(s0, r, c) == HumidityFanRule(Snapshot(), r, c);
      completed := HumidityFanStep(r, c);
    }

    /** One pass of the main loop. */
    method Iterate(sensor: Temp.Outcome<Temp.Pair>, soilRaw: int, c: Clocks,
                   conn: Connection, logAt: TimeTuple, pageNow: TimeTuple, show: Show)
      returns (resp: Response)
      requires Valid()
      modifies this
      ensures Valid()
      ensures (resp, Snapshot()) == Iteration(old(Snapshot()), sensor, soilRaw, c, conn, logAt, pageNow, show)
    {
      if sensor.Raised? {
        return NoResponse;
      }
      var soil := Soil.MoisturePercent(soilRaw);
      var r := Readings(sensor.value.temp, sensor.value.humidity, soil);
      var completed := Tick(r, c);
      if !completed {
        return NoResponse;
      }
      resp := HandleRequest(conn, r, logAt, pageNow, show);
    }

    /** The request part of one loop iteration. */
    method HandleRequest(conn: Connection, r: Readings, logAt: TimeTuple, pageNow: TimeTuple, show: Show)
      returns (resp: Response)
      requires Valid()
      modifies this
      ensures Valid()
      ensures (resp, Snapshot()) == Serve(old(Snapshot()), conn, r, logAt, pageNow, show)
    {
      if conn.NoClient? || !conn.decodes {
        return NoResponse;
      }
      if Contains(conn.request, PumpMarker) {
        RunPump();
        if !Present(r) { return NoResponse; }
        LogEvent(PumpManualLabel, r, logAt);
        resp := Redirect;
      } else {
        var page := MakePage.MakePage(pageNow, StatusText(led), Some(OnSeconds()), Some(OffSeconds()),
                                      r.temp, r.humidity, Some(r.soil), Some(logs), show);
        resp := Dashboard(page);
      }
    }
  }
}
