/** The input file as the reads of server.c see it, and the output file as the writes of rcopy.c build it. */
module Files {
  import opened Packets
  import opened Server
  import opened Rcopy

  /** The chunks that successive reads with a buffer of bufSize return. */
  function Split(file: seq<byte>, bufSize: nat): (chunks: seq<seq<byte>>)
    requires bufSize >= 1
    ensures (chunks == []) <==> (file == [])
    ensures forall i :: 0 <= i < |chunks| ==> 1 <= |chunks[i]| <= bufSize
    ensures forall i :: 0 <= i < |chunks| - 1 ==> |chunks[i]| == bufSize
    decreases |file|
  {
    if file == [] then []
    else var n := ReadLength(file, bufSize); [file[..n]] + Split(file[n..], bufSize)
  }

  function Flatten(parts: seq<seq<byte>>): seq<byte> {
    if parts == [] then [] else parts[0] + Flatten(parts[1..])
  }

  lemma {:induction false} FlattenSplit(file: seq<byte>, bufSize: nat)
    requires bufSize >= 1
    ensures Flatten(Split(file, bufSize)) == file
    decreases |file|
  {
    if file != [] {
      var n := ReadLength(file, bufSize);
      FlattenSplit(file[n..], bufSize);
      assert Split(file, bufSize)[1..] == Split(file[n..], bufSize);
    }
  }

  lemma {:induction false} FlattenAppend(parts: seq<seq<byte>>, last: seq<byte>)
    ensures Flatten(parts + [last]) == Flatten(parts) + last
  {
    if parts == [] {
      assert (parts + [last])[1..] == [];
    } else {
      FlattenAppend(parts[1..], last);
      assert (parts + [last])[1..] == parts[1..] + [last];
    }
  }

  /** The bytes one write puts in the file: deconstruct has zeroed the payload array beyond the payload. */
  function WrittenBytes(w: Write): (b: seq<byte>)
    ensures |b| == w.len
  {
    if w.len <= |w.payload| then w.payload[..w.len] else w.payload + Zeros(w.len - |w.payload|)
  }

  /** One write call takes its bytes from the front of the payload array, whether the payload fills them or not. */
  lemma WritesFromArray(w: Write)
    requires |w.payload| <= 1400 && w.len <= 1400
    ensures WrittenBytes(w) == (w.payload + Zeros(1400 - |w.payload|))[..w.len]
  {
  }

  function OutputFile(log: seq<Write>): seq<byte> {
    if log == [] then [] else OutputFile(log[..|log| - 1]) + WrittenBytes(log[|log| - 1])
  }
}
