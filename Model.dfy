/** The start/stop recorder: samples are buffered in memory while the
    sensor runs, and one stop writes the whole buffer to one file. */
module Recorder {
  import opened Samples
  import Format
  import Csv

  class Model {
    var started: bool
    var acceleration: Option<Acceleration>
    var showError: bool
    var errorString: string
    var fileIndex: nat
    var accelerations: seq<Sample>
    /** The contents of the session directory, by file name. */
    var files: map<string, Bytes>
    const platform: Csv.Platform

    /** A model over a freshly created, empty session directory. */
    constructor (platform: Csv.Platform)
      ensures this.platform == platform
      ensures !started && acceleration == None && !showError && errorString == ""
      ensures fileIndex == 0 && accelerations == [] && files == map[]
    {
      this.platform := platform;
      started := false;
      acceleration := None;
      showError := false;
      errorString := "";
      fileIndex := 0;
      accelerations := [];
      files := map[];
    }

    method SetError(message: string)
      modifies this
      ensures errorString == message && showError
      ensures started == old(started) && acceleration == old(acceleration)
      ensures fileIndex == old(fileIndex) && accelerations == old(accelerations) && files == old(files)
    {
      errorString := message;
      showError := true;
    }

    /** Empties the message; the alert flag is left to the view. */
    method ClearError()
      modifies this
      ensures errorString == "" && showError == old(showError)
      ensures started == old(started) && acceleration == old(acceleration)
      ensures fileIndex == old(fileIndex) && accelerations == old(accelerations) && files == old(files)
    {
      errorString := "";
    }

    method StartAccelSensor()
      modifies this
      ensures started
      ensures acceleration == old(acceleration) && showError == old(showError) && errorString == old(errorString)
      ensures fileIndex == old(fileIndex) && accelerations == old(accelerations) && files == old(files)
    {
      started := true;
    }

    /** The accelerometer callback: an error is reported and nothing is
        recorded; otherwise a delivered sample becomes the current
        acceleration and is appended to the buffer. */
    method AccelerometerUpdate(data: Option<Sample>, error: Option<string>)
      modifies this
      ensures error.Some? ==>
        errorString == "Accelerometer error: " + error.value && showError &&
        acceleration == old(acceleration) && accelerations == old(accelerations)
      ensures error.None? && data.None? ==>
        errorString == old(errorString) && showError == old(showError) &&
        acceleration == old(acceleration) && accelerations == old(accelerations)
      ensures error.None? && data.Some? ==>
        errorString == old(errorString) && showError == old(showError) &&
        acceleration == Some(data.value.acceleration) &&
        accelerations == old(accelerations) + [data.value]
      ensures started == old(started) && fileIndex == old(fileIndex) && files == old(files)
    {
      if error.Some? {
        SetError("Accelerometer error: " + error.value);
        return;
      }
      if data.None? {
        return;
      }
      acceleration := Some(data.value.acceleration);
      accelerations := accelerations + [data.value];
    }

    /** Stops the sensor and writes the buffer to the file named by the
        zero-padded file index. The index advances whatever happens; the
        buffer is emptied only when the write succeeded. */
    method StopAccelSensor(outcome: WriteOutcome)
      modifies this
      ensures !started && fileIndex == old(fileIndex) + 1
      ensures acceleration == old(acceleration)
      ensures Csv.Encoded(platform, old(accelerations)).None? ==>
        errorString == Csv.EncodingError && showError &&
        accelerations == old(accelerations) && files == old(files)
      ensures Csv.Encoded(platform, old(accelerations)).Some? && outcome.Written? ==>
        files == old(files)[Format.Pad5(old(fileIndex)) := Csv.Encoded(platform, old(accelerations)).value] &&
        accelerations == [] &&
        errorString == old(errorString) && showError == old(showError)
      ensures Csv.Encoded(platform, old(accelerations)).Some? && outcome.WriteFailed? ==>
        errorString == "Writing error: " + outcome.description && showError &&
        accelerations == old(accelerations) && files == old(files)
    {
      started := false;
      var fileName := Format.Pad5(fileIndex);
      fileIndex := fileIndex + 1;

      var csvData := Csv.Encoded(platform, accelerations);
      if csvData.None? {
        SetError(Csv.EncodingError);
        return;
      }

      match outcome
      case Written =>
        files := files[fileName := csvData.value];
        accelerations := [];
      case WriteFailed(description) =>
        SetError("Writing error: " + description);
    }
  }
}
