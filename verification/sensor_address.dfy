/**
  The one-byte sensor device address built in `application_init`:
  `(bus << 7) | i2c`, where `bus` is the I2C channel of the core module
  (0 or 1) and `i2c` the tag's 7-bit slave address. The byte travels with
  every sensor publication, so consumers must be able to recover both parts.
*/
module SensorAddress {
  import opened Wrappers

  /** The two I2C channels of the core module (`BC_I2C_I2C0 = 0`, `BC_I2C_I2C1 = 1`). */
  datatype I2cChannel = I2C0 | I2C1

  /** A 7-bit I2C slave address. */
  type I2cAddress = a: byte | a < 0x80

  /** A physical sensor: the channel it hangs on and its address there. */
  datatype Device = Device(channel: I2cChannel, address: I2cAddress)

  /** The numeric value of the channel enumerator. */
  function ChannelIndex(c: I2cChannel): byte
  {
    match c
    case I2C0 => 0
    case I2C1 => 1
  }

  /** `(bus << 7) | i2c`: the bus lands in the top bit, the address in the low seven. */
  function Encode(d: Device): (b: byte)
    ensures b >> 7 == ChannelIndex(d.channel)
    ensures b & 0x7F == d.address
    ensures b as int == 128 * ChannelIndex(d.channel) as int + d.address as int
  {
    (ChannelIndex(d.channel) << 7) | d.address
  }

  /** Splits a device byte back into channel and address. */
  function Decode(b: byte): (d: Device)
    ensures Encode(d) == b
    ensures d.channel == I2C1 <==> b >= 0x80
    ensures d.address as int == b as int % 128
  {
    Device(if b >> 7 == 0 then I2C0 else I2C1, b & 0x7F)
  }

  /** Decoding an encoded address gives back exactly the channel and address. */
  lemma DecodeEncode(d: Device)
    ensures Decode(Encode(d)) == d
  {
  }

  /** Two different sensors never share a device byte. */
  lemma EncodeInjective(d1: Device, d2: Device)
    requires Encode(d1) == Encode(d2)
    ensures d1 == d2
  {
  }

  /** The sensor kinds `application_init` registers. */
  datatype SensorKind = Thermometer | HumiditySensor | LuxMeter | Barometer

  /** One row of the fixed sensor configuration. */
  datatype SensorTag = SensorTag(kind: SensorKind, device: Device)

  /** The addresses the tags are registered under. */
  const TemperatureDefault: I2cAddress := 0x48
  const TemperatureAlternate: I2cAddress := 0x49
  const HumidityR2Default: I2cAddress := 0x40
  const HumidityR2Alternate: I2cAddress := 0x41
  const HumidityR1: I2cAddress := 0x5f
  const LuxMeterDefault: I2cAddress := 0x44
  const LuxMeterAlternate: I2cAddress := 0x45
  const BarometerAddress: I2cAddress := 0x60

  /** Every tag `application_init` creates, in order, with the address its byte is built from. */
  const SensorTable: seq<SensorTag> := [
    SensorTag(Thermometer, Device(I2C0, TemperatureDefault)),
    SensorTag(Thermometer, Device(I2C0, TemperatureAlternate)),
    SensorTag(Thermometer, Device(I2C1, TemperatureDefault)),
    SensorTag(Thermometer, Device(I2C1, TemperatureAlternate)),
    SensorTag(HumiditySensor, Device(I2C0, HumidityR2Default)),
    SensorTag(HumiditySensor, Device(I2C0, HumidityR2Alternate)),
    SensorTag(HumiditySensor, Device(I2C0, HumidityR1)),
    SensorTag(HumiditySensor, Device(I2C1, HumidityR2Default)),
    SensorTag(HumiditySensor, Device(I2C1, HumidityR2Alternate)),
    SensorTag(HumiditySensor, Device(I2C1, HumidityR1)),
    SensorTag(LuxMeter, Device(I2C0, LuxMeterDefault)),
    SensorTag(LuxMeter, Device(I2C0, LuxMeterAlternate)),
    SensorTag(LuxMeter, Device(I2C1, LuxMeterDefault)),
    SensorTag(LuxMeter, Device(I2C1, LuxMeterAlternate)),
    SensorTag(Barometer, Device(I2C0, BarometerAddress)),
    SensorTag(Barometer, Device(I2C1, BarometerAddress))
  ]

  /** The device byte handed to a tag's event handler. */
  function TagByte(t: SensorTag): byte
  {
    Encode(t.device)
  }

  /**
    Every tag's byte decodes to the tag's own channel and address, and no two
    tags share a byte, so the byte identifies the physical sensor.
  */
  lemma SensorTableBytesIdentifyTags()
    ensures forall i :: 0 <= i < |SensorTable| ==> Decode(TagByte(SensorTable[i])) == SensorTable[i].device
    ensures forall i, j :: 0 <= i < j < |SensorTable| ==> TagByte(SensorTable[i]) != TagByte(SensorTable[j])
  {
  }
}
