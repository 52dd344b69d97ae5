/**
 * The DHT22 sensor as the logger sees it: the driver's answer for one read is an input,
 * and `readPin` either passes the pair on or rethrows with its own message.
 */
module Sensor {

  /**
   * A number as JavaScript renders it in a template literal (`${n}`): digits, sign,
   * point or exponent, never a comma or a newline. Arithmetic on it is not modelled.
   */
  type Numeral = s: string | |s| > 0 && ',' !in s && '\n' !in s witness "0"

  datatype Reading = Reading(temperature: Numeral, humidity: Numeral)

  /** What `sensor.read(22, pin)` settles to: a reading, or a rejection whose text is `cause`. */
  datatype SensorResult = Measured(reading: Reading) | DriverFailed(cause: string)

  datatype ReadResult = Read(reading: Reading) | ReadFailed(message: string)

  const READ_FAILURE_PREFIX := "Failed to read from DHT22: "

  /** `readPin`: the driver's pair unchanged, or a failure naming the driver's error. */
  function ReadPin(driver: SensorResult): (r: ReadResult)
    ensures r.Read? <==> driver.Measured?
    ensures driver.Measured? ==> r.reading == driver.reading
    ensures driver.DriverFailed? ==>
      && |r.message| == |READ_FAILURE_PREFIX| + |driver.cause|
      && r.message[..|READ_FAILURE_PREFIX|] == READ_FAILURE_PREFIX
      && r.message[|READ_FAILURE_PREFIX|..] == driver.cause
  {
    match driver
    case Measured(reading) => Read(reading)
    case DriverFailed(cause) => ReadFailed(READ_FAILURE_PREFIX + cause)
  }
}
