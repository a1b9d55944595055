# Sensors: accelerometer session models

This project models the two session models of the Sensors app, which
records 3-axis accelerometer samples and writes them as tab-separated
text files into a session directory.

- `Recorder.Model` (Sensors/Model.swift) is a start/stop recorder. While
  the sensor runs, the callback appends every sample to an in-memory
  buffer. Stopping writes the whole buffer to one file named by a
  zero-padded counter. The buffer is emptied only when that write succeeds.
- `Reactive.ReactiveModel` (Sensors/ReactiveModel.swift) does the same job
  through a stream. Samples arrive in timed chunks. A `scan` numbers the
  chunks 1, 2, 3, …. A persistence loop writes each chunk to
  `<index %05d>.csv` and stops at the first thrown error. A display loop
  copies each sample's acceleration to the model. `started` is derived from
  the presence of the task handle.

Shared pieces:

- `Samples`: the sample and write-outcome datatypes.
- `Format`: `String(format: "%05d", n)`, following the `0` flag and field
  width of section 7.21.6.1 of ISO/IEC 9899:2011. Its partner is the
  digit reader `Format.Value`.
- `Csv`: the record and payload serialiser. Its partner is the reader-side
  `Csv.Split` / `Csv.Lines`.

The pure functions the methods are stated through:

- `Format.Pad5` is `String(format: "%05d", n)` (Sensors/Model.swift:77,
  Sensors/ReactiveModel.swift:123).
- `Csv.Record` is one sample's record line (Sensors/Model.swift:83-92,
  Sensors/ReactiveModel.swift:129-138).
- `Csv.Payload` is the newline-joined records (Sensors/Model.swift:80-94,
  Sensors/ReactiveModel.swift:126-140).
- `Reactive.WriteStep` is `write(indexedChunk:)` on the fields it changes
  (Sensors/ReactiveModel.swift:121-151). `Reactive.Persist` is the
  persistence loop built on it (Sensors/ReactiveModel.swift:101-110).
- `Csv.Join` is `joined(separator:)` (Sensors/Model.swift:94,
  Sensors/ReactiveModel.swift:140).
- `Csv.Encoded` is `.data(using: .utf8)` of the payload
  (Sensors/Model.swift:95, Sensors/ReactiveModel.swift:141).
- `Reactive.NextIndexed` is the scan's closure, and `Reactive.Scan` is the
  fold that emits each accumulated value.
  `Reactive.IndexChunks` is that fold from the seed `(0, [])`
  (Sensors/ReactiveModel.swift:94-97).
- `Reactive.FileName` is `String(format: "%05d.csv", fileIndex)` of the
  chunk's own index (Sensors/ReactiveModel.swift:122-123).
- `Reactive.ReactiveModel.Started` is the computed `started` property, true
  iff a task handle is present (Sensors/ReactiveModel.swift:16).
- `Reactive.SessionTask` is the `Task` handle held in `accelerometerTasks`
  (Sensors/ReactiveModel.swift:22, 99). The model observes only its
  cancellation (Sensors/ReactiveModel.swift:154).

Environment and I/O are explicit:

- The session directory is a field `files: map<string, Bytes>`.
- Every file write takes a `WriteOutcome`: `Written`, or
  `WriteFailed(description)`, which models the thrown error.
- Float rendering, Double rendering and UTF-8 encoding are the three
  functions of a `Csv.Platform`. The serialiser calls them and otherwise
  leaves them uninterpreted. The lemmas that read a payload back assume
  only that rendered numbers contain no tab and no newline (`Csv.Plain`).
- The reactive session's chunks, the per-write outcomes and the stream's
  terminal error are inputs to the loop methods.

Behaviour worth noting:

- Chunks are numbered from 1: the scan's seed `(0, [])` is never emitted
  and each step adds one to the previous index.
- `acceleration` is assigned from each sample as is
  (`Reactive.ReactiveModel.DisplayUpdates`,
  `Recorder.Model.AccelerometerUpdate`).
- The session directory is fixed once, when the model is initialised.
  Chunk numbering restarts at 1 on every start, and a write replaces an
  existing file. So a second session of the same `ReactiveModel` writes
  `00001.csv` again and replaces the first session's file. The model shows
  this through `Reactive.SessionFiles`, whose file names depend only on the
  chunk's position in its own session.
- An error that ends the persistence loop does not end the session.
  `started` stays true until `StopAccelSensor` drops the task handle:
  `Reactive.ReactiveModel.PersistChunks` keeps `accelerometerTasks` as it
  was.

## Model

| member | source | states |
|---|---|---|
| `Format.Pad5NonNegative` | Sensors/Model.swift:77 | For n ≥ 0, "%05d" gives only digits, reads back as n, and has at least 5 characters. It has exactly 5 iff n < 100000; from 100000 on it is the plain decimal. |
| `Format.Pad5Negative` | Sensors/ReactiveModel.swift:123 | For n < 0, "%05d" gives '-' then zero-padded digits that read back as -n. It is 5 characters in all iff -n has at most 4 digits. |
| `Format.Pad5Injective` | Sensors/Model.swift:77 | Distinct indices give distinct "%05d" names. |
| `Format.DecimalValue` | Sensors/Model.swift:77 | The unpadded decimal digits of n read back as n. |
| `Format.LeadingZerosValue` | Sensors/Model.swift:77 | Zero padding does not change the value a digit string denotes. |
| `Csv.SplitJoin` | Sensors/Model.swift:94 | `joined(separator:)` is undone by splitting at the separator, when no part contains it. |
| `Csv.RecordFields` | Sensors/Model.swift:83-92 | A record splits at its tabs into exactly four fields: the x, y and z text, each scaled by 9.81, then the timestamp text. A record has no newline. |
| `Csv.PayloadLines` | Sensors/Model.swift:80-95 | Read back, the payload has one line per buffered sample, in buffer order. Each line splits into that sample's four fields. An empty buffer gives an empty text. The text never ends with a newline. |
| `Recorder.Model.constructor` | Sensors/Model.swift:14-22 | A new model is not started and has no acceleration, no error, file index 0, an empty buffer and an empty directory. |
| `Recorder.Model.SetError` | Sensors/Model.swift:49-53 | Sets the message and raises `showError`. Nothing else changes. |
| `Recorder.Model.ClearError` | Sensors/Model.swift:55-57 | Empties the message and leaves `showError` and everything else as they were. |
| `Recorder.Model.StartAccelSensor` | Sensors/Model.swift:59-61 | `started` becomes true. Nothing else changes. |
| `Recorder.Model.AccelerometerUpdate` | Sensors/Model.swift:62-71 | An error sets "Accelerometer error: …" and leaves the buffer and the acceleration unchanged. Otherwise a delivered sample is appended at the end of the buffer and becomes the acceleration. No data and no error changes nothing. |
| `Recorder.Model.StopAccelSensor` | Sensors/Model.swift:74-110 | `started` becomes false and `fileIndex` grows by exactly 1 in every case. If encoding fails, the fixed encoding error is set. If the write succeeds, the encoded payload of the whole buffer is stored under the pre-increment index with "%05d" and no extension, and the buffer is emptied. If the write fails, "Writing error: …" is set. In both failure cases the buffer and the directory are kept. |
| `Reactive.ScanNumbers` | Sensors/ReactiveModel.swift:94-97 | Scanning from a seed with index i numbers the k-th chunk i + k + 1 and keeps its samples. |
| `Reactive.IndexChunksNumbering` | Sensors/ReactiveModel.swift:94-97 | From the seed (0, []), the k-th chunk (from 0) is numbered k + 1 and passed through unchanged. Numbering starts at 1, has no gaps and strictly increases. |
| `Reactive.Completed` | Sensors/ReactiveModel.swift:102-109 | The loop's stopping point: no write before it throws, and the write at it throws. |
| `Reactive.FileNameInjective` | Sensors/ReactiveModel.swift:122-123 | Different chunk indices give different "%05d.csv" names. |
| `Reactive.PersistCountsWrites` | Sensors/ReactiveModel.swift:101-110 | `fileIndex` grows by the number of writes attempted, including the one that throws. |
| `Reactive.PersistKeepsOtherFiles` | Sensors/ReactiveModel.swift:102-109 | A persistence run never touches a file whose name it does not write. Files present before the run, and files of chunks after a failing write, are unaffected. |
| `Reactive.PersistWritesChunks` | Sensors/ReactiveModel.swift:103-105 | Each chunk before the first throwing write that can be encoded ends in the file named by its own index and holds its payload. Later writes never overwrite it. |
| `Reactive.PersistReportsError` | Sensors/ReactiveModel.swift:102-109 | A thrown write error is caught and ends the loop, and its description is the error shown. A stream failure at the end is shown the same way. With no failure and every chunk encodable, the error state is unchanged. |
| `Reactive.SessionFiles` | Sensors/ReactiveModel.swift:94-109 | In a session, the k-th chunk (from 0) written before the loop stops is stored as "%05d.csv" of k + 1. The name comes from the chunk's index, not from `fileIndex`. |
| `Reactive.ReactiveModel.constructor` | Sensors/ReactiveModel.swift:16-25 | A new model has no task (so it is not started), no acceleration, no error, file index 0 and an empty directory. |
| `Reactive.ReactiveModel.SetError` | Sensors/ReactiveModel.swift:81-85 | Sets both the message and `showError`. Nothing else changes. |
| `Reactive.ReactiveModel.ClearError` | Sensors/ReactiveModel.swift:87-89 | Resets only the message. |
| `Reactive.ReactiveModel.StartAccelSensor` | Sensors/ReactiveModel.swift:91-119 | A fresh, uncancelled task handle is installed, so `Started()` holds. No other field changes. |
| `Reactive.ReactiveModel.StopAccelSensor` | Sensors/ReactiveModel.swift:153-156 | Cancels the current task, if any, and drops the handle, so `Started()` is false. With no task it changes nothing else, so stopping twice is harmless. |
| `Reactive.ReactiveModel.Write` | Sensors/ReactiveModel.swift:121-151 | `fileIndex` grows by 1 before any failure. If encoding fails, the fixed error is set, nothing is written and nothing is thrown. Otherwise a successful write stores the payload under "%05d.csv" of the chunk's own index. A failed write throws its error and leaves the directory as it was. |
| `Reactive.ReactiveModel.PersistChunks` | Sensors/ReactiveModel.swift:94-110 | The persistence task: it numbers the chunks from 1 and writes each in order. The first thrown error, or the stream's terminal error, is caught and shown, and it ends the loop. The resulting state is `Reactive.Persist` of the numbered chunks. |
| `Reactive.ReactiveModel.DisplayUpdates` | Sensors/ReactiveModel.swift:112-116 | The display task: afterwards `acceleration` is the last sample's acceleration, unfiltered, or unchanged if no sample came. Nothing else changes. |

## Left out

- Hardware: the `CMMotionManager` subscription (`startAccelerometerUpdates`, `stopAccelerometerUpdates`, the 0.02 s interval). The recorder's callback is modelled as a method that receives the callback's arguments.
- The callback-to-stream bridge (`accelerationUpdates`, in both Sensors/CMMotionManager_Extension.swift and the extension in Sensors/ReactiveModel.swift). Its single-slot buffering, `finish(throwing:)` and `onTermination` are library stream semantics.
- `share()` and `chunked(by: .repeating(every: .seconds(5)))` are foreign, wall-clock-driven operators. The chunks are an input sequence, so what the last, partial chunk holds on stop is not modelled.
- Concurrency: the `Task`, the task group, and what cancellation does to the running loops. The two child loops are modelled as separate methods over finite inputs. An error that ends the display loop is dropped by the task group; the model does not show it.
- File system and clock: resolving and creating the session directory and its date-stamped name in both `init?`, and the `init?` failure path. The directory is modelled as an initially empty map.
- Floating point: Double arithmetic and Float rounding of `x*9.81`, and Swift's number-to-text rendering. Samples are reals, and the scaling is exact. Rendering and UTF-8 encoding are `Csv.Platform` functions.
- `Recorder.Model.AccelerometerUpdate` and `Recorder.Model.StopAccelSensor`: each call is modelled as atomic. The callback runs on a background `OperationQueue` and can interleave with a stop. A sample appended after the payload snapshot and before the buffer is emptied is lost from both the file and the buffer. Callbacks still queued when updates stop append afterwards, so their samples go into the next file. These interleavings are not captured.
- A failed write is modelled as leaving the directory unchanged. A non-atomic `Data.write(to:)` that fails part way can leave a truncated file under its name. So `Reactive.PersistKeepsOtherFiles`, `Reactive.ReactiveModel.Write` and `Recorder.Model.StopAccelSensor` state that the directory is unchanged after a failed write, including under the failing write's own name; a partial write is not captured.
- Integer width: `fileIndex` and chunk indices are unbounded integers. The overflow trap of `+= 1` at `Int.max`, and the 32-bit reading of `%d`, are not modelled.
- Logging through `defaultLog`, the unused `accelerations` and `continuation` fields of `ReactiveModel`, and the commented-out block in its initialiser.
- The SwiftUI view (Sensors/ContentView.swift) and the app entry point (Sensors/SensorsApp.swift).
