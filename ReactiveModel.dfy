/** The stream-based session model: samples arrive in timed chunks, each
    chunk is numbered by a scan and written to its own file while a second
    loop shows the latest acceleration. The chunks and the sample stream are
    given as finite sequences. */
module Reactive {
  import opened Samples
  import Format
  import Csv

  datatype IndexedChunk = IndexedChunk(index: int, chunk: seq<Sample>)

  /** The scan's combining closure: the previous index plus one, paired
      with the new chunk. */
  function NextIndexed(previous: IndexedChunk, chunk: seq<Sample>): IndexedChunk
  {
    IndexedChunk(previous.index + 1, chunk)
  }

  /** `chunks.scan(acc, NextIndexed)`: emits each accumulated value, never
      the seed itself. */
  function Scan(acc: IndexedChunk, chunks: seq<seq<Sample>>): (r: seq<IndexedChunk>)
    ensures |r| == |chunks|
    decreases |chunks|
  {
    if chunks == [] then []
    else
      var next := NextIndexed(acc, chunks[0]);
      [next] + Scan(next, chunks[1..])
  }

  /** The numbered chunks a session persists, scanned from (0, []). */
  function IndexChunks(chunks: seq<seq<Sample>>): (r: seq<IndexedChunk>)
    ensures |r| == |chunks|
  {
    Scan(IndexedChunk(0, []), chunks)
  }

  lemma {:induction false} ScanNumbers(acc: IndexedChunk, chunks: seq<seq<Sample>>)
    ensures forall k :: 0 <= k < |chunks| ==>
      Scan(acc, chunks)[k] == IndexedChunk(acc.index + k + 1, chunks[k])
    decreases |chunks|
  {
    if chunks != [] {
      ScanNumbers(NextIndexed(acc, chunks[0]), chunks[1..]);
    }
  }

  /** The k-th chunk (counting from 0) is numbered k + 1 and passed on
      unchanged: numbering starts at 1, is gapless and strictly increasing. */
  lemma IndexChunksNumbering(chunks: seq<seq<Sample>>)
    ensures var r := IndexChunks(chunks);
      (forall k :: 0 <= k < |chunks| ==> r[k].index == k + 1 && r[k].chunk == chunks[k]) &&
      (|chunks| > 0 ==> r[0].index == 1) &&
      (forall j, k :: 0 <= j < k < |chunks| ==> r[j].index < r[k].index) &&
      (forall k :: 0 < k < |chunks| ==> r[k].index == r[k - 1].index + 1)
  {
    ScanNumbers(IndexedChunk(0, []), chunks);
  }

  /** The file a chunk goes to: its own index with "%05d", then ".csv". */
  function FileName(index: int): string
  {
    Format.Pad5(index) + ".csv"
  }

  /** The fields `write(indexedChunk:)` and the persistence loop change. */
  datatype Persistence = Persistence(
    fileIndex: nat,
    files: map<string, Bytes>,
    errorString: string,
    showError: bool)

  function WithError(st: Persistence, message: string): Persistence
  {
    st.(errorString := message, showError := true)
  }

  /** `write(indexedChunk:)`: the new state and the error it throws, if any. */
  function WriteStep(p: Csv.Platform, st: Persistence, ic: IndexedChunk, outcome: WriteOutcome)
    : (Persistence, Option<string>)
  {
    var counted := st.(fileIndex := st.fileIndex + 1);
    match Csv.Encoded(p, ic.chunk)
    case None => (WithError(counted, Csv.EncodingError), None)
    case Some(bytes) =>
      match outcome
      case Written => (counted.(files := counted.files[FileName(ic.index) := bytes]), None)
      case WriteFailed(description) => (counted, Some(description))
  }

  /** True when writing ic throws. */
  predicate Throws(p: Csv.Platform, ic: IndexedChunk, outcome: WriteOutcome)
  {
    Csv.Encoded(p, ic.chunk).Some? && outcome.WriteFailed?
  }

  /** The persistence task: write every chunk in order; the first thrown
      error, or the stream's own failure at its end, is caught, reported and
      ends the loop. */
  function Persist(p: Csv.Platform, st: Persistence, indexed: seq<IndexedChunk>,
                   outcomes: seq<WriteOutcome>, failure: Option<string>): Persistence
    requires |outcomes| == |indexed|
    decreases |indexed|
  {
    if indexed == [] then
      (match failure case None => st case Some(description) => WithError(st, description))
    else
      var (next, thrown) := WriteStep(p, st, indexed[0], outcomes[0]);
      match thrown
      case Some(description) => WithError(next, description)
      case None => Persist(p, next, indexed[1..], outcomes[1..], failure)
  }

  /** How many chunks the loop writes before it stops: the position of the
      first write that throws, or all of them. */
  function Completed(p: Csv.Platform, indexed: seq<IndexedChunk>, outcomes: seq<WriteOutcome>): (n: nat)
    requires |outcomes| == |indexed|
    ensures n <= |indexed|
    ensures forall j :: 0 <= j < n ==> !Throws(p, indexed[j], outcomes[j])
    ensures n < |indexed| ==> Throws(p, indexed[n], outcomes[n])
  {
    if indexed == [] || Throws(p, indexed[0], outcomes[0]) then 0
    else 1 + Completed(p, indexed[1..], outcomes[1..])
  }

  /** The names of the files the loop writes before it stops. */
  function WrittenNames(p: Csv.Platform, indexed: seq<IndexedChunk>, n: nat): set<string>
    requires n <= |indexed|
  {
    set j | 0 <= j < n && Csv.Encoded(p, indexed[j].chunk).Some? :: FileName(indexed[j].index)
  }

  predicate Increasing(indexed: seq<IndexedChunk>)
  {
    forall j, k :: 0 <= j < k < |indexed| ==> indexed[j].index < indexed[k].index
  }

  /** Every write the loop attempts advances fileIndex by one, including
      the one that throws. */
  lemma {:induction false} PersistCountsWrites(p: Csv.Platform, st: Persistence, indexed: seq<IndexedChunk>,
                                               outcomes: seq<WriteOutcome>, failure: Option<string>)
    requires |outcomes| == |indexed|
    ensures var n := Completed(p, indexed, outcomes);
      Persist(p, st, indexed, outcomes, failure).fileIndex ==
        st.fileIndex + (if n < |indexed| then n + 1 else n)
    decreases |indexed|
  {
    if indexed != [] && !Throws(p, indexed[0], outcomes[0]) {
      PersistCountsWrites(p, WriteStep(p, st, indexed[0], outcomes[0]).0, indexed[1..], outcomes[1..], failure);
    }
  }

  lemma WrittenNamesTail(p: Csv.Platform, indexed: seq<IndexedChunk>, n: nat, name: string)
    requires 1 <= n <= |indexed|
    requires name in WrittenNames(p, indexed[1..], n - 1)
    ensures name in WrittenNames(p, indexed, n)
  {
  }

  /** A file whose name the loop does not write is left as it was:
      in particular every file written before the failing write. */
  lemma {:induction false} PersistKeepsOtherFiles(p: Csv.Platform, st: Persistence, indexed: seq<IndexedChunk>,
                                                  outcomes: seq<WriteOutcome>, failure: Option<string>, name: string)
    requires |outcomes| == |indexed|
    requires name !in WrittenNames(p, indexed, Completed(p, indexed, outcomes))
    ensures var r := Persist(p, st, indexed, outcomes, failure);
      (name in r.files <==> name in st.files) &&
      (name in st.files ==> r.files[name] == st.files[name])
    decreases |indexed|
  {
    if indexed != [] && !Throws(p, indexed[0], outcomes[0]) {
      var n := Completed(p, indexed, outcomes);
      if name in WrittenNames(p, indexed[1..], n - 1) {
        WrittenNamesTail(p, indexed, n, name);
      }
      if Csv.Encoded(p, indexed[0].chunk).Some? {
        assert FileName(indexed[0].index) in WrittenNames(p, indexed, n);
      }
      PersistKeepsOtherFiles(p, WriteStep(p, st, indexed[0], outcomes[0]).0, indexed[1..], outcomes[1..], failure, name);
    }
  }

  /** Every chunk before the first throwing write that could be encoded
      ends up in the file named by its own index, holding its payload:
      later writes never overwrite it, because indices increase. */
  lemma {:induction false} PersistWritesChunks(p: Csv.Platform, st: Persistence, indexed: seq<IndexedChunk>,
                                               outcomes: seq<WriteOutcome>, failure: Option<string>, j: nat)
    requires |outcomes| == |indexed| && Increasing(indexed)
    requires j < Completed(p, indexed, outcomes) && Csv.Encoded(p, indexed[j].chunk).Some?
    ensures var r := Persist(p, st, indexed, outcomes, failure);
      FileName(indexed[j].index) in r.files &&
      r.files[FileName(indexed[j].index)] == Csv.Encoded(p, indexed[j].chunk).value
    decreases |indexed|
  {
    var rest := indexed[1..];
    var next := WriteStep(p, st, indexed[0], outcomes[0]).0;
    assert Increasing(rest);
    if j == 0 {
      var name := FileName(indexed[0].index);
      var n := Completed(p, rest, outcomes[1..]);
      if name in WrittenNames(p, rest, n) {
        var i :| 0 <= i < n && Csv.Encoded(p, rest[i].chunk).Some? && name == FileName(rest[i].index);
        assert indexed[i + 1] == rest[i];
        FileNameInjective(indexed[0].index, rest[i].index);
      }
      PersistKeepsOtherFiles(p, next, rest, outcomes[1..], failure, name);
    } else {
      assert indexed[j] == rest[j - 1];
      PersistWritesChunks(p, next, rest, outcomes[1..], failure, j - 1);
    }
  }

  /** The error left showing: the first thrown write error; else the
      stream's failure; and with no failure and every chunk encodable, the
      error state is left alone. */
  lemma {:induction false} PersistReportsError(p: Csv.Platform, st: Persistence, indexed: seq<IndexedChunk>,
                                               outcomes: seq<WriteOutcome>, failure: Option<string>)
    requires |outcomes| == |indexed|
    ensures var r := Persist(p, st, indexed, outcomes, failure);
      var n := Completed(p, indexed, outcomes);
      (n < |indexed| ==> r.errorString == outcomes[n].description && r.showError) &&
      (n == |indexed| && failure.Some? ==> r.errorString == failure.value && r.showError) &&
      (n == |indexed| && failure.None? &&
       (forall k :: 0 <= k < |indexed| ==> Csv.Encoded(p, indexed[k].chunk).Some?) ==>
         r.errorString == st.errorString && r.showError == st.showError)
    decreases |indexed|
  {
    if indexed != [] && !Throws(p, indexed[0], outcomes[0]) {
      var rest := indexed[1..];
      PersistReportsError(p, WriteStep(p, st, indexed[0], outcomes[0]).0, rest, outcomes[1..], failure);
      if forall k :: 0 <= k < |indexed| ==> Csv.Encoded(p, indexed[k].chunk).Some? {
        assert forall k :: 0 <= k < |rest| ==> rest[k] == indexed[k + 1];
      }
    }
  }

  /** In a session, the k-th chunk (counting from 0) that is written before
      the loop stops lands in the file "%05d.csv" of k + 1, holding that
      chunk's payload. */
  lemma SessionFiles(p: Csv.Platform, st: Persistence, chunks: seq<seq<Sample>>,
                     outcomes: seq<WriteOutcome>, failure: Option<string>, k: nat)
    requires |outcomes| == |chunks|
    requires k < Completed(p, IndexChunks(chunks), outcomes) && Csv.Encoded(p, chunks[k]).Some?
    ensures var r := Persist(p, st, IndexChunks(chunks), outcomes, failure);
      FileName(k + 1) in r.files && r.files[FileName(k + 1)] == Csv.Encoded(p, chunks[k]).value
  {
    IndexChunksNumbering(chunks);
    PersistWritesChunks(p, st, IndexChunks(chunks), outcomes, failure, k);
  }

  lemma FileNameInjective(m: int, n: int)
    requires FileName(m) == FileName(n)
    ensures m == n
  {
    var a, b := Format.Pad5(m), Format.Pad5(n);
    assert a == FileName(m)[..|FileName(m)| - 4];
    assert b == FileName(n)[..|FileName(n)| - 4];
    Format.Pad5Injective(m, n);
  }

  /** A session task handle; cancelling it is all the model observes. */
  class SessionTask {
    var cancelled: bool

    constructor ()
      ensures !cancelled
    {
      cancelled := false;
    }

    method Cancel()
      modifies this
      ensures cancelled
    {
      cancelled := true;
    }
  }

  class ReactiveModel {
    var acceleration: Option<Acceleration>
    var showError: bool
    var errorString: string
    var accelerometerTasks: SessionTask?
    var fileIndex: nat
    /** The contents of the session directory, by file name. */
    var files: map<string, Bytes>
    const platform: Csv.Platform

    /** `started` is a projection of the task handle, never stored. */
    function Started(): bool
      reads this
    {
      accelerometerTasks != null
    }

    function State(): Persistence
      reads this
    {
      Persistence(fileIndex, files, errorString, showError)
    }

    /** A model over a freshly created, empty session directory. */
    constructor (platform: Csv.Platform)
      ensures this.platform == platform
      ensures !Started() && acceleration == None && !showError && errorString == ""
      ensures fileIndex == 0 && files == map[]
    {
      this.platform := platform;
      acceleration := None;
      showError := false;
      errorString := "";
      accelerometerTasks := null;
      fileIndex := 0;
      files := map[];
    }

    method SetError(message: string)
      modifies this
      ensures State() == WithError(old(State()), message)
      ensures errorString == message && showError
      ensures acceleration == old(acceleration) && accelerometerTasks == old(accelerometerTasks)
    {
      errorString := message;
      showError := true;
    }

    /** Empties the message; the alert flag is left to the view. */
    method ClearError()
      modifies this
      ensures errorString == "" && showError == old(showError)
      ensures fileIndex == old(fileIndex) && files == old(files)
      ensures acceleration == old(acceleration) && accelerometerTasks == old(accelerometerTasks)
    {
      errorString := "";
    }

    /** Launches a session: a fresh, running task handle replaces the
        current one (which is not cancelled). */
    method StartAccelSensor()
      modifies this
      ensures Started() && fresh(accelerometerTasks) && !accelerometerTasks.cancelled
      ensures State() == old(State()) && acceleration == old(acceleration)
    {
      accelerometerTasks := new SessionTask();
    }

    /** Cancels the running session, if any. With no session it changes
        nothing but the (already absent) handle, so stopping twice is
        harmless. */
    method StopAccelSensor()
      modifies this, accelerometerTasks
      ensures !Started()
      ensures old(accelerometerTasks) != null ==> old(accelerometerTasks).cancelled
      ensures State() == old(State()) && acceleration == old(acceleration)
    {
      if accelerometerTasks != null {
        accelerometerTasks.Cancel();
      }
      accelerometerTasks := null;
    }

    /** `write(indexedChunk:)`: returns the error it throws, if any. */
    method Write(ic: IndexedChunk, outcome: WriteOutcome) returns (thrown: Option<string>)
      modifies this
      ensures (State(), thrown) == WriteStep(platform, old(State()), ic, outcome)
      ensures fileIndex == old(fileIndex) + 1
      ensures thrown.Some? <==> Throws(platform, ic, outcome)
      ensures Csv.Encoded(platform, ic.chunk).None? ==>
        errorString == Csv.EncodingError && showError && files == old(files)
      ensures Csv.Encoded(platform, ic.chunk).Some? && outcome.Written? ==>
        files == old(files)[FileName(ic.index) := Csv.Encoded(platform, ic.chunk).value]
      ensures acceleration == old(acceleration) && accelerometerTasks == old(accelerometerTasks)
    {
      var fileName := FileName(ic.index);
      fileIndex := fileIndex + 1;

      var csvData := Csv.Encoded(platform, ic.chunk);
      if csvData.None? {
        SetError(Csv.EncodingError);
        return None;
      }

      match outcome
      case Written =>
        files := files[fileName := csvData.value];
        thrown := None;
      case WriteFailed(description) =>
        thrown := Some(description);
    }

    /** The persistence task: numbers the chunks from 1 and writes each;
        `outcomes[k]` is what the k-th file write does and `failure` is the
        error the stream ends with, if any. */
    method PersistChunks(chunks: seq<seq<Sample>>, outcomes: seq<WriteOutcome>, failure: Option<string>)
      requires |outcomes| == |chunks|
      modifies this
      ensures State() == Persist(platform, old(State()), IndexChunks(chunks), outcomes, failure)
      ensures acceleration == old(acceleration) && accelerometerTasks == old(accelerometerTasks)
    {
      var indexed := IndexChunks(chunks);
      var i := 0;
      while i < |indexed|
        invariant 0 <= i <= |indexed|
        invariant Persist(platform, old(State()), indexed, outcomes, failure)
               == Persist(platform, State(), indexed[i..], outcomes[i..], failure)
        invariant acceleration == old(acceleration) && accelerometerTasks == old(accelerometerTasks)
      {
        var thrown := Write(indexed[i], outcomes[i]);
        if thrown.Some? {
          SetError(thrown.value);
          return;
        }
        i := i + 1;
      }
      if failure.Some? {
        SetError(failure.value);
      }
    }

    /** The display task: every sample of the shared stream becomes the
        current acceleration in turn, unfiltered. */
    method DisplayUpdates(samples: seq<Sample>)
      modifies this
      ensures acceleration == if samples == [] then old(acceleration)
                              else Some(samples[|samples| - 1].acceleration)
      ensures State() == old(State()) && accelerometerTasks == old(accelerometerTasks)
    {
      var i := 0;
      while i < |samples|
        invariant 0 <= i <= |samples|
        invariant acceleration == if i == 0 then old(acceleration) else Some(samples[i - 1].acceleration)
        invariant State() == old(State()) && accelerometerTasks == old(accelerometerTasks)
      {
        acceleration := Some(samples[i].acceleration);
        i := i + 1;
      }
    }
  }
}
