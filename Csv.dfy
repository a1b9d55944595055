/** The tab-separated payload both session models write: one record per
    sample, `x \t y \t z \t timestamp`, records joined by a newline. */
module Csv {
  import opened Samples

  /** The message both models report when the payload cannot be encoded. */
  const EncodingError: string := "Cannot create data with accelerations"

  /** Standard gravity, m/s^2 per g. */
  const StandardGravity: real := 9.81

  /** The platform services the serialiser uses and this model leaves
      uninterpreted: the text of `Float(v)` for a Double v (rounding to single
      precision, then Swift's description), the text of a Double, and
      `String.data(using: .utf8)`. */
  datatype Platform = Platform(
    singleText: real -> string,
    doubleText: real -> string,
    utf8: string -> Option<Bytes>)

  predicate NoSeparator(s: string) { '\t' !in s && '\n' !in s }

  /** Swift renders numbers without tabs or line breaks. */
  ghost predicate Plain(p: Platform)
  {
    (forall v: real :: NoSeparator(p.singleText(v))) &&
    (forall v: real :: NoSeparator(p.doubleText(v)))
  }

  /** g to m/s^2, before rounding to Float. */
  function Ms2(g: real): real { g * StandardGravity }

  /** One record: "\(x)\t\(y)\t\(z)\t\(timestamp)". */
  function Record(p: Platform, s: Sample): string
  {
    p.singleText(Ms2(s.acceleration.x)) + "\t" +
    p.singleText(Ms2(s.acceleration.y)) + "\t" +
    p.singleText(Ms2(s.acceleration.z)) + "\t" +
    p.doubleText(s.timestamp)
  }

  /** The four fields a reader expects in the record of s. */
  function Fields(p: Platform, s: Sample): seq<string>
  {
    [p.singleText(Ms2(s.acceleration.x)),
     p.singleText(Ms2(s.acceleration.y)),
     p.singleText(Ms2(s.acceleration.z)),
     p.doubleText(s.timestamp)]
  }

  /** `Array.joined(separator:)`: no separator before the first or after the last part. */
  function Join(parts: seq<string>, sep: char): string
  {
    if |parts| == 0 then ""
    else if |parts| == 1 then parts[0]
    else parts[0] + [sep] + Join(parts[1..], sep)
  }

  /** `samples.map(record)`. */
  function Records(p: Platform, samples: seq<Sample>): (r: seq<string>)
    ensures |r| == |samples|
  {
    seq(|samples|, i requires 0 <= i < |samples| => Record(p, samples[i]))
  }

  function Payload(p: Platform, samples: seq<Sample>): string
  {
    Join(Records(p, samples), '\n')
  }

  /** The bytes of the payload, or None when encoding fails. */
  function Encoded(p: Platform, samples: seq<Sample>): Option<Bytes>
  {
    p.utf8(Payload(p, samples))
  }

  /** The reader's side: cut a text at every separator, keeping empty parts. */
  function Split(s: string, sep: char): (parts: seq<string>)
    ensures |parts| >= 1
  {
    if s == [] then [""]
    else
      var rest := Split(s[1..], sep);
      if s[0] == sep then [""] + rest
      else [[s[0]] + rest[0]] + rest[1..]
  }

  /** The lines of a text file: none in an empty file. */
  function Lines(text: string): seq<string>
  {
    if text == [] then [] else Split(text, '\n')
  }

  lemma {:induction false} SplitWithout(a: string, sep: char)
    requires sep !in a
    ensures Split(a, sep) == [a]
  {
    if a != [] {
      SplitWithout(a[1..], sep);
      assert [a[0]] + a[1..] == a;
    }
  }

  lemma {:induction false} SplitCons(a: string, sep: char, b: string)
    requires sep !in a
    ensures Split(a + [sep] + b, sep) == [a] + Split(b, sep)
  {
    var s := a + [sep] + b;
    if a == [] {
      assert s[1..] == b;
    } else {
      SplitCons(a[1..], sep, b);
      assert s[1..] == a[1..] + [sep] + b;
      assert [a[0]] + a[1..] == a;
    }
  }

  /** Splitting a join recovers the parts when no part holds the separator. */
  lemma {:induction false} SplitJoin(parts: seq<string>, sep: char)
    requires |parts| >= 1
    requires forall i :: 0 <= i < |parts| ==> sep !in parts[i]
    ensures Split(Join(parts, sep), sep) == parts
  {
    if |parts| == 1 {
      SplitWithout(parts[0], sep);
    } else {
      SplitJoin(parts[1..], sep);
      SplitCons(parts[0], sep, Join(parts[1..], sep));
      assert [parts[0]] + parts[1..] == parts;
    }
  }

  /** A record splits at its tabs into exactly its four fields, in order
      x, y, z (each scaled to m/s^2) and the timestamp. */
  lemma RecordFields(p: Platform, s: Sample)
    requires Plain(p)
    ensures Split(Record(p, s), '\t') == Fields(p, s)
    ensures |Fields(p, s)| == 4
    ensures '\n' !in Record(p, s) && |Record(p, s)| >= 3
  {
    var f := Fields(p, s);
    assert NoSeparator(f[0]) && NoSeparator(f[1]) && NoSeparator(f[2]) && NoSeparator(f[3]);
    assert Record(p, s) == f[0] + ['\t'] + (f[1] + ['\t'] + (f[2] + ['\t'] + f[3]));
    SplitWithout(f[3], '\t');
    SplitCons(f[2], '\t', f[3]);
    SplitCons(f[1], '\t', f[2] + ['\t'] + f[3]);
    SplitCons(f[0], '\t', f[1] + ['\t'] + (f[2] + ['\t'] + f[3]));
  }

  lemma {:induction false} JoinLast(parts: seq<string>, sep: char)
    requires |parts| >= 1 && |parts[|parts| - 1]| >= 1
    ensures var j := Join(parts, sep);
      |j| >= 1 && j[|j| - 1] == parts[|parts| - 1][|parts[|parts| - 1]| - 1]
  {
    if |parts| > 1 {
      JoinLast(parts[1..], sep);
    }
  }

  lemma RecordsReadBack(p: Platform, samples: seq<Sample>)
    requires Plain(p)
    ensures forall k :: 0 <= k < |samples| ==>
      '\n' !in Records(p, samples)[k] && |Records(p, samples)[k]| >= 3 &&
      Split(Records(p, samples)[k], '\t') == Fields(p, samples[k])
  {
    forall k | 0 <= k < |samples|
      ensures '\n' !in Records(p, samples)[k] && |Records(p, samples)[k]| >= 3 &&
              Split(Records(p, samples)[k], '\t') == Fields(p, samples[k])
    {
      RecordFields(p, samples[k]);
    }
  }

  lemma PayloadEnd(p: Platform, samples: seq<Sample>)
    requires Plain(p)
    ensures var text := Payload(p, samples);
      text == [] || text[|text| - 1] != '\n'
  {
    if |samples| > 0 {
      var recs := Records(p, samples);
      var last := recs[|recs| - 1];
      RecordFields(p, samples[|samples| - 1]);
      JoinLast(recs, '\n');
      assert last[|last| - 1] in last;
    }
  }

  /** The payload read back line by line gives one record per sample, in
      buffer order, each record splitting into its sample's four fields;
      and the payload never ends with a newline. */
  lemma PayloadLines(p: Platform, samples: seq<Sample>)
    requires Plain(p)
    ensures var lines := Lines(Payload(p, samples));
      lines == Records(p, samples) &&
      |lines| == |samples| &&
      (forall k :: 0 <= k < |samples| ==> Split(lines[k], '\t') == Fields(p, samples[k]))
    ensures var text := Payload(p, samples);
      text == [] || text[|text| - 1] != '\n'
  {
    RecordsReadBack(p, samples);
    PayloadEnd(p, samples);
    if |samples| > 0 {
      var recs := Records(p, samples);
      JoinLast(recs, '\n');
      SplitJoin(recs, '\n');
    }
  }
}
