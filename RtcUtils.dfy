/**
 * Time helpers of the controller: the 24-hour, 12-hour and US-date strings
 * built from a `localtime()` tuple, and the arithmetic of the NTP
 * synchronisation (the client request packet, the transmit-timestamp seconds
 * of the reply, the 1900-to-1970 epoch shift with a timezone offset, and the
 * tuple written to the real-time clock). The clock read, the UDP exchange and
 * `localtime(t)` itself are foreign calls: their results are inputs.
 */
module RtcUtils {
  import opened Wrappers
  import opened Decimal

  /** A byte of a UDP datagram, as the integer Python's `bytes` indexing yields. */
  type Octet = x: int | 0 <= x < 256

  /** `time.localtime()`: (year, month, mday, hour, minute, second, weekday, yearday). */
  datatype TimeTuple = TimeTuple(
    year: nat, month: nat, mday: nat,
    hour: nat, minute: nat, second: nat,
    weekday: nat, yearday: nat)

  /** The ranges `localtime()` produces for years 0..9999. */
  predicate ValidTime(t: TimeTuple) {
    t.year < 10000 && 1 <= t.month <= 12 && 1 <= t.mday <= 31
    && t.hour < 24 && t.minute < 60 && t.second < 60
    && t.weekday < 7 && 1 <= t.yearday <= 366
  }

  // ---------------------------------------------------------------- strings

  /** get_time_24h: `HH:MM:SS`. */
  function Time24h(t: TimeTuple): string {
    PaddedTriple(t.hour, t.minute, t.second, ':')
  }

  /** The hour shown on a 12-hour clock: 1..12, congruent to h modulo 12. */
  function Hour12(h: nat): (r: nat)
    ensures 1 <= r <= 12
    ensures r % 12 == h % 12
  {
    var k := h % 12;
    if k == 0 then 12 else k
  }

  function Suffix(h: nat): string {
    if h < 12 then "AM" else "PM"
  }

  /** get_time_12h: `HH:MM:SS AM` or `HH:MM:SS PM`. */
  function Time12h(t: TimeTuple): string {
    PaddedTriple(Hour12(t.hour), t.minute, t.second, ':') + " " + Suffix(t.hour)
  }

  /** get_date_us: `MM/DD/YYYY`, the year padded to four digits. */
  function DateUs(t: TimeTuple): string {
    ZeroPad(t.month, 2) + "/" + ZeroPad(t.mday, 2) + "/" + ZeroPad(t.year, 4)
  }

  /**
   * `f"{now[1]:02}/{now[2]:02}/{now[0]}"`, the date the event log and the
   * dashboard print: like get_date_us, but the year is not padded.
   */
  function DateUnpadded(t: TimeTuple): string {
    ZeroPad(t.month, 2) + "/" + ZeroPad(t.mday, 2) + "/" + Digits(t.year)
  }

  /** For four-digit years the two date formats agree. */
  lemma DateFormatsAgree(t: TimeTuple)
    requires 1000 <= t.year
    ensures DateUnpadded(t) == DateUs(t)
  {
    if |Digits(t.year)| < 4 {
      Pow10Monotone(|Digits(t.year)|, 3);
    }
  }

  /**
   * get_datetime_24h. Each of the two helpers it calls reads the clock
   * itself, so the date and the time come from two readings.
   */
  function DateTime24h(dateAt: TimeTuple, timeAt: TimeTuple): string {
    DateUs(dateAt) + " " + Time24h(timeAt)
  }

  /** get_datetime_12h, built the same way as the 24-hour variant. */
  function DateTime12h(dateAt: TimeTuple, timeAt: TimeTuple): string {
    DateUs(dateAt) + " " + Time12h(timeAt)
  }

  /** Reading a 12-hour clock back: the hour and its suffix give the 24-hour hour. */
  function From12h(h12: nat, suffix: string): nat {
    if suffix == "AM" then h12 % 12 else h12 % 12 + 12
  }

  /** The 12-hour mapping, case by case, and that it loses nothing. */
  lemma Hour12Table(h: nat)
    requires h < 24
    ensures h == 0 ==> Hour12(h) == 12 && Suffix(h) == "AM"
    ensures 1 <= h <= 11 ==> Hour12(h) == h && Suffix(h) == "AM"
    ensures h == 12 ==> Hour12(h) == 12 && Suffix(h) == "PM"
    ensures 13 <= h ==> Hour12(h) == h - 12 && Suffix(h) == "PM"
    ensures Suffix(h) == "AM" <==> h < 12
    ensures From12h(Hour12(h), Suffix(h)) == h
  {
  }

  lemma Time24hReadsBack(t: TimeTuple)
    requires ValidTime(t)
    ensures TripleShape(Time24h(t), ':')
    ensures ReadTriple(Time24h(t), ':') == (t.hour, t.minute, t.second)
  {
    PaddedTripleReadsBack(t.hour, t.minute, t.second, ':');
  }

  /** The 12-hour string is `DD:DD:DD` + a space + the suffix, and it determines the hour. */
  lemma Time12hReadsBack(t: TimeTuple)
    requires ValidTime(t)
    ensures var s := Time12h(t);
      |s| == 11 && TripleShape(s[..8], ':') && s[8] == ' ' && s[9..] == Suffix(t.hour)
      && ReadTriple(s[..8], ':') == (Hour12(t.hour), t.minute, t.second)
      && From12h(Hour12(t.hour), s[9..]) == t.hour
  {
    PaddedTripleReadsBack(Hour12(t.hour), t.minute, t.second, ':');
    var s := Time12h(t);
    assert s[..8] == PaddedTriple(Hour12(t.hour), t.minute, t.second, ':');
    Hour12Table(t.hour);
  }

  /** `MM/DD/YYYY`: ten characters whose three fields read back as the tuple's. */
  lemma DateUsReadsBack(t: TimeTuple)
    requires ValidTime(t)
    ensures var s := DateUs(t);
      |s| == 10 && s[2] == '/' && s[5] == '/'
      && AllDigits(s[0..2]) && AllDigits(s[3..5]) && AllDigits(s[6..10])
      && Value(s[0..2]) == t.month && Value(s[3..5]) == t.mday && Value(s[6..10]) == t.year
  {
    var mm, dd, yyyy := ZeroPad(t.month, 2), ZeroPad(t.mday, 2), ZeroPad(t.year, 4);
    ZeroPadWidth(t.month, 2);
    ZeroPadWidth(t.mday, 2);
    ZeroPadWidth(t.year, 4);
    assert |mm| == 2 && |dd| == 2 && |yyyy| == 4;
    var s := DateUs(t);
    assert s == mm + "/" + dd + "/" + yyyy;
    assert s[0..2] == mm by {
      assert forall i :: 0 <= i < 2 ==> s[i] == mm[i];
    }
    assert s[3..5] == dd by {
      assert forall i :: 0 <= i < 2 ==> s[3 + i] == dd[i];
    }
    assert s[6..10] == yyyy by {
      assert forall i :: 0 <= i < 4 ==> s[6 + i] == yyyy[i];
    }
  }

  /** The combined 24-hour string splits at column 10 into the date and the time. */
  lemma DateTime24hSplits(dateAt: TimeTuple, timeAt: TimeTuple)
    requires ValidTime(dateAt) && ValidTime(timeAt)
    ensures var s := DateTime24h(dateAt, timeAt);
      |s| == 19 && s[..10] == DateUs(dateAt) && s[10] == ' ' && s[11..] == Time24h(timeAt)
  {
    DateUsReadsBack(dateAt);
    Time24hReadsBack(timeAt);
    var s := DateTime24h(dateAt, timeAt);
    assert s[11..] == Time24h(timeAt);
  }

  /** The combined 12-hour string splits at column 10 into the date and the 12-hour time. */
  lemma DateTime12hSplits(dateAt: TimeTuple, timeAt: TimeTuple)
    requires ValidTime(dateAt) && ValidTime(timeAt)
    ensures var s := DateTime12h(dateAt, timeAt);
      |s| == 22 && s[..10] == DateUs(dateAt) && s[10] == ' ' && s[11..] == Time12h(timeAt)
  {
    DateUsReadsBack(dateAt);
    Time12hReadsBack(timeAt);
    var s := DateTime12h(dateAt, timeAt);
    assert s[11..] == Time12h(timeAt);
  }

  // ------------------------------------------------------------------- NTP

  /** Seconds from 1900-01-01 (the NTP era origin) to 1970-01-01 (the Unix epoch). */
  const NtpDelta: int := 2208988800

  /** Length of an NTP packet without extension fields. */
  const NtpPacketLength: nat := 48

  /** `b'\x1b' + 47 * b'\0'`: the client request. */
  function NtpRequest(): (msg: seq<Octet>)
    ensures |msg| == NtpPacketLength
    ensures msg[0] == 0x1b && forall i :: 1 <= i < |msg| ==> msg[i] == 0
  {
    [0x1b] + seq(47, _ => 0)
  }

  /** The first byte of an NTP header: LI in bits 7-6, VN in bits 5-3, Mode in bits 2-0. */
  function LeapIndicator(b: Octet): nat { b / 64 }
  function VersionNumber(b: Octet): nat { b / 8 % 8 }
  function Mode(b: Octet): nat { b % 8 }

  /** The request says: no leap warning, version 3, mode 3 (client). */
  lemma NtpRequestHeader()
    ensures LeapIndicator(NtpRequest()[0]) == 0
    ensures VersionNumber(NtpRequest()[0]) == 3
    ensures Mode(NtpRequest()[0]) == 3
  {
  }

  function Pow256(n: nat): (p: nat)
    ensures p >= 1
  {
    if n == 0 then 1 else 256 * Pow256(n - 1)
  }

  /** Unsigned big-endian value of a byte string (`struct.unpack("!I", …)` for four bytes). */
  function BigEndian(s: seq<Octet>): (v: nat)
    ensures v < Pow256(|s|)
  {
    if s == [] then 0 else BigEndian(s[..|s| - 1]) * 256 + s[|s| - 1]
  }

  /** The n-byte big-endian encoding of v, as a server writes a timestamp field. */
  function BigEndianBytes(v: nat, n: nat): (s: seq<Octet>)
    requires v < Pow256(n)
    ensures |s| == n
  {
    if n == 0 then [] else BigEndianBytes(v / 256, n - 1) + [v % 256]
  }

  lemma {:induction false} BigEndianRoundTrip(v: nat, n: nat)
    requires v < Pow256(n)
    ensures BigEndian(BigEndianBytes(v, n)) == v
  {
    if n > 0 {
      var s := BigEndianBytes(v, n);
      assert s[..|s| - 1] == BigEndianBytes(v / 256, n - 1);
      BigEndianRoundTrip(v / 256, n - 1);
    }
  }

  /**
   * `struct.unpack("!I", msg[40:44])[0]`: the seconds of the transmit
   * timestamp. A reply shorter than 44 bytes makes the slice short and
   * `unpack` raise, which is None here.
   */
  function TransmitSeconds(reply: seq<Octet>): (r: Option<nat>)
    ensures r.Some? <==> |reply| >= 44
    ensures r.Some? ==> r.value < 0x1_0000_0000
  {
    if |reply| < 44 then None
    else
      assert Pow256(4) == 0x1_0000_0000;
      Some(BigEndian(reply[40..44]))
  }

  /** Whatever 32-bit value the server put at bytes 40..43 is the value read. */
  lemma TransmitSecondsReadsField(reply: seq<Octet>, v: nat)
    requires |reply| >= 44 && v < 0x1_0000_0000
    requires reply[40..44] == BigEndianBytes(v, 4)
    ensures TransmitSeconds(reply) == Some(v)
  {
    BigEndianRoundTrip(v, 4);
  }

  /** `t = val - NTP_DELTA + timezone_offset`: local Unix seconds. */
  function LocalEpoch(val: int, timezoneOffset: int): int {
    val - NtpDelta + timezoneOffset
  }

  /**
   * Local time moves with the NTP seconds one for one, the Unix epoch maps to
   * the offset itself, and a 32-bit NTP value cannot reach past the era-0
   * rollover (2^32 - NTP_DELTA = 2085978496 Unix seconds, February 2036).
   */
  lemma LocalEpochRange(reply: seq<Octet>, timezoneOffset: int)
    requires TransmitSeconds(reply).Some?
    ensures var t := LocalEpoch(TransmitSeconds(reply).value, timezoneOffset);
      timezoneOffset - NtpDelta <= t < timezoneOffset + 2085978496
    ensures LocalEpoch(NtpDelta, timezoneOffset) == timezoneOffset
  {
  }

  /** The tuple `RTC.datetime()` takes: weekday 1..7 and a subsecond field. */
  datatype RtcDatetime = RtcDatetime(
    year: nat, month: nat, day: nat, weekday: nat,
    hours: nat, minutes: nat, seconds: nat, subseconds: nat)

  /** `(tm[0], tm[1], tm[2], tm[6] + 1, tm[3], tm[4], tm[5], 0)`. */
  function RtcSetting(tm: TimeTuple): RtcDatetime {
    RtcDatetime(tm.year, tm.month, tm.mday, tm.weekday + 1, tm.hour, tm.minute, tm.second, 0)
  }

  /**
   * The setting keeps the date and the time of day, zeroes the subseconds,
   * and shifts the weekday from 0..6 to 1..7 without merging two days.
   */
  lemma RtcSettingKeepsTime(tm: TimeTuple, other: TimeTuple)
    requires ValidTime(tm) && ValidTime(other)
    ensures var d := RtcSetting(tm);
      1 <= d.weekday <= 7 && d.subseconds == 0
      && (d.year, d.month, d.day) == (tm.year, tm.month, tm.mday)
      && (d.hours, d.minutes, d.seconds) == (tm.hour, tm.minute, tm.second)
    ensures RtcSetting(tm).weekday == RtcSetting(other).weekday <==> tm.weekday == other.weekday
  {
  }
}
