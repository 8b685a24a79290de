/**
 * The AHT21 temperature/humidity sensor: decoding of the 6-byte measurement
 * frame, the busy check, the I2C error paths of `aht21_read`, and the None
 * propagation and Celsius-to-Fahrenheit step of `get_temp`. The I2C bus is a
 * foreign driver: what its transfer returned (or that it raised OSError) is
 * an input.
 */
module Temp {
  import opened Wrappers

  type Byte = bv8

  /** The six bytes `i2c.readfrom(AHT21_ADDRESS, 6)` returns. */
  type Frame = s: seq<Byte> | |s| == 6 witness [0, 0, 0, 0, 0, 0]

  /** Outcome of the trigger-and-read transfer on the bus. */
  datatype Transfer = Received(frame: Frame) | BusError

  /** The two exceptions these functions can raise. */
  datatype Exception = RuntimeError | OSError

  datatype Outcome<T> = Returned(value: T) | Raised(exc: Exception)

  /** A `(temperature, humidity)` pair in which either may be None. */
  datatype Pair = Pair(temp: Option<real>, humidity: Option<real>)

  /** Bit 7 of the status byte: the sensor is still measuring. */
  predicate Busy(status: Byte) {
    status & 0x80 != 0
  }

  /** `((data[1] << 8) | data[2]) >> 4`: the 12 high bits of bytes 1 and 2. */
  function RawHumidity(f: Frame): nat {
    ((((f[1] as bv32) << 8) | f[2] as bv32) >> 4) as int
  }

  /** `((data[3] & 0x0F) << 16) | (data[4] << 8) | data[5]`: 20 bits. */
  function RawTemperature(f: Frame): nat {
    ((((f[3] & 0x0F) as bv32) << 16) | ((f[4] as bv32) << 8) | f[5] as bv32) as int
  }

  /** The humidity field is the top 12 of the 16 bits in bytes 1 and 2. */
  lemma RawHumidityArith(f: Frame)
    ensures RawHumidity(f) == ((f[1] as int) * 256 + f[2] as int) / 16
  {
  }

  /** The temperature field is the low nibble of byte 3, then bytes 4 and 5. */
  lemma RawTemperatureArith(f: Frame)
    ensures RawTemperature(f) == ((f[3] as int) % 16) * 65536 + (f[4] as int) * 256 + f[5] as int
  {
  }

  lemma RawHumidityRange(f: Frame)
    ensures RawHumidity(f) < 4096
  {
    RawHumidityArith(f);
  }

  lemma RawTemperatureRange(f: Frame)
    ensures RawTemperature(f) < 0x10_0000
  {
    RawTemperatureArith(f);
  }

  /** The high nibble of byte 3 (the humidity field's low bits) does not reach the temperature. */
  lemma RawTemperatureIgnoresHighNibble(f: Frame, g: Frame)
    requires f[3] & 0x0F == g[3] & 0x0F && f[4] == g[4] && f[5] == g[5]
    ensures RawTemperature(f) == RawTemperature(g)
  {
  }

  /** `raw / (1 << 12) * 100.0`. */
  function HumidityPercent(raw: nat): real {
    raw as real / 4096.0 * 100.0
  }

  /** `raw / (1 << 20) * 200.0 - 50.0`. */
  function TemperatureC(raw: nat): real {
    raw as real / 1048576.0 * 200.0 - 50.0
  }

  lemma HumidityRange(f: Frame)
    ensures 0.0 <= HumidityPercent(RawHumidity(f)) < 100.0
  {
    RawHumidityRange(f);
  }

  lemma TemperatureRange(f: Frame)
    ensures -50.0 <= TemperatureC(RawTemperature(f)) < 150.0
  {
    RawTemperatureRange(f);
  }

  /**
   * aht21_read: RuntimeError when the bus was never set up, `(None, None)`
   * on a bus error or a busy sensor, otherwise the decoded frame.
   */
  function Aht21Read(initialised: bool, t: Transfer): (o: Outcome<Pair>)
    ensures o.Raised? <==> !initialised
    ensures o.Raised? ==> o.exc == RuntimeError
    ensures o.Returned? ==> (o.value.temp.Some? <==> o.value.humidity.Some?)
    ensures o.Returned? && o.value.temp.Some? ==>
      -50.0 <= o.value.temp.value < 150.0 && 0.0 <= o.value.humidity.value < 100.0
  {
    if !initialised then Raised(RuntimeError)
    else match t
      case BusError => Returned(Pair(None, None))
      case Received(f) =>
        if Busy(f[0]) then Returned(Pair(None, None))
        else
          HumidityRange(f);
          TemperatureRange(f);
          Returned(Pair(Some(TemperatureC(RawTemperature(f))), Some(HumidityPercent(RawHumidity(f)))))
  }

  /** A frame is decoded exactly when it arrived and its busy bit is clear. */
  lemma ReadDecodesIffReady(t: Transfer)
    ensures var o := Aht21Read(true, t);
      o.Returned? && (o.value.temp.Some? <==> t.Received? && !Busy(t.frame[0]))
    ensures t.Received? && !Busy(t.frame[0]) ==>
      Aht21Read(true, t).value == Pair(Some(TemperatureC(RawTemperature(t.frame))),
                                       Some(HumidityPercent(RawHumidity(t.frame))))
  {
  }

  function CelsiusToFahrenheit(c: real): real {
    c * 9.0 / 5.0 + 32.0
  }

  /** What `aht21_init` did: set up the bus, or re-raise the soft reset's OSError. */
  datatype InitResult = Ready | ResetFailed

  /**
   * get_temp: initialise, read, and convert to Fahrenheit when both values
   * are present. Only RuntimeError is caught, so the OSError that
   * aht21_init re-raises leaves get_temp.
   */
  function GetTemp(init: InitResult, t: Transfer): (o: Outcome<Pair>)
    ensures o.Raised? <==> init == ResetFailed
    ensures o.Raised? ==> o.exc == OSError
    ensures o.Returned? ==> (o.value.temp.Some? <==> o.value.humidity.Some?)
    ensures o.Returned? && o.value.temp.Some? ==>
      -58.0 <= o.value.temp.value < 302.0 && 0.0 <= o.value.humidity.value < 100.0
  {
    if init == ResetFailed then Raised(OSError)
    else
      var read := Aht21Read(true, t);
      match read.value
      case Pair(Some(c), Some(h)) => Returned(Pair(Some(CelsiusToFahrenheit(c)), Some(h)))
      case _ => Returned(Pair(None, None))
  }

  /** get_temp reports the sensor's Celsius reading converted, and the humidity unchanged. */
  lemma GetTempConverts(t: Transfer)
    ensures var c := Aht21Read(true, t).value;
      GetTemp(Ready, t) == Returned(
        if c.temp.Some? then Pair(Some(c.temp.value * 9.0 / 5.0 + 32.0), c.humidity)
        else Pair(None, None))
  {
  }
}
