/** Values shared by both session models: accelerometer samples and the
    outcome of a file write. */
module Samples {

  datatype Option<T> = None | Some(value: T)

  /** CMAcceleration: one 3-axis reading, in g. Doubles are modelled as reals. */
  datatype Acceleration = Acceleration(x: real, y: real, z: real)

  /** CMAccelerometerData: a reading with the sensor's timestamp in seconds. */
  datatype Sample = Sample(acceleration: Acceleration, timestamp: real)

  type Byte = bv8
  type Bytes = seq<Byte>

  /** What `Data.write(to:)` did: wrote the file, or threw an error whose
      localized description is given. */
  datatype WriteOutcome = Written | WriteFailed(description: string)
}
