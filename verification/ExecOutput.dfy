/** Collecting one output stream of a `command/exec` process, up to a cap. */
module ExecOutput {
  import opened Wrappers
  import ExecTable

  const OUTPUT_CHUNK_SIZE_HINT: nat := 64 * 1024

  type Bytes = seq<bv8>

  /**
   * A chunk of output; `ready` says that it is there already when the one before it was taken, and
   * `late` that the drain timeout strikes while it is waited for.
   */
  datatype Chunk = Chunk(bytes: Bytes, ready: bool, late: bool)

  datatype Delta = Delta(bytes: Bytes, capReached: bool)

  function Flatten(chunks: seq<Chunk>): Bytes {
    if chunks == [] then [] else Flatten(chunks[..|chunks| - 1]) + chunks[|chunks| - 1].bytes
  }

  function Concat(deltas: seq<Delta>): Bytes {
    if deltas == [] then [] else Concat(deltas[..|deltas| - 1]) + deltas[|deltas| - 1].bytes
  }

  /** As much of the stream as the cap allows. */
  function Capped(stream: Bytes, cap: Option<nat>): Bytes {
    if cap.Some? && cap.value < |stream| then stream[..cap.value] else stream
  }

  predicate AtCap(bytes: Bytes, cap: Option<nat>) {
    cap == Some(|bytes|)
  }

  lemma FlattenAppend(chunks: seq<Chunk>, n: nat)
    requires n < |chunks|
    ensures Flatten(chunks[..n + 1]) == Flatten(chunks[..n]) + chunks[n].bytes
  {
    assert chunks[..n + 1][..n] == chunks[..n];
  }

  lemma ConcatAppend(deltas: seq<Delta>, delta: Delta)
    ensures Concat(deltas + [delta]) == Concat(deltas) + delta.bytes
  {
    assert (deltas + [delta])[..|deltas|] == deltas;
  }

  /** What a further chunk adds below the cap. */
  lemma CappedAppend(stream: Bytes, chunk: Bytes, cap: Option<nat>)
    requires cap.Some? ==> |stream| < cap.value
    ensures Capped(stream, cap) == stream
    ensures Capped(stream + chunk, cap) == stream +
      if cap.Some? && cap.value - |stream| < |chunk| then chunk[..cap.value - |stream|] else chunk
  {
  }

  /** One chunk, and all that is there already unless it is large enough. */
  method ReceiveChunk(chunks: seq<Chunk>, from: nat) returns (chunk: Bytes, taken: nat)
    requires from < |chunks|
    ensures from < taken <= |chunks|
    ensures Flatten(chunks[..taken]) == Flatten(chunks[..from]) + chunk
    ensures forall k | from + 1 <= k < taken :: chunks[k].ready
    ensures taken < |chunks| && chunks[taken].ready ==> 65536 <= |chunk|
    ensures forall k | from < k < taken :: |Flatten(chunks[..k])| - |Flatten(chunks[..from])| < 65536
  {
    FlattenAppend(chunks, from);
    chunk, taken := chunks[from].bytes, from + 1;
    while |chunk| < OUTPUT_CHUNK_SIZE_HINT && taken < |chunks| && chunks[taken].ready
      invariant from < taken <= |chunks|
      invariant Flatten(chunks[..taken]) == Flatten(chunks[..from]) + chunk
      invariant forall k | from + 1 <= k < taken :: chunks[k].ready
      invariant forall k | from < k < taken :: |Flatten(chunks[..k])| - |Flatten(chunks[..from])| < 65536
    {
      FlattenAppend(chunks, taken);
      chunk, taken := chunk + chunks[taken].bytes, taken + 1;
    }
  }

  lemma CappedNext(kept: Bytes, chunk: Bytes, cappedChunk: Bytes, cap: Option<nat>)
    requires cap.Some? ==> |kept| <= cap.value
    requires cappedChunk ==
      if cap.Some? && cap.value - |kept| < |chunk| then chunk[..cap.value - |kept|] else chunk
    ensures kept + cappedChunk == Capped(kept + chunk, cap)
    ensures !AtCap(kept + cappedChunk, cap) ==> cappedChunk == chunk
  {
    if cap.Some? && |kept| == cap.value {
      assert (kept + chunk)[..cap.value] == kept;
    } else {
      CappedAppend(kept, chunk, cap);
    }
  }

  /** The part of the chunk that the cap leaves room for. */
  method CapChunk(chunk: Bytes, cap: Option<nat>, observed: nat, ghost kept: Bytes)
      returns (cappedChunk: Bytes, observedNumBytes: nat)
    requires cap.Some? ==> observed == |kept| <= cap.value
    ensures cap.Some? ==> observedNumBytes == |kept + cappedChunk| <= cap.value
    ensures cap.None? ==> observedNumBytes == observed
    ensures kept + cappedChunk == Capped(kept + chunk, cap)
    ensures !AtCap(kept + cappedChunk, cap) ==> cappedChunk == chunk
  {
    cappedChunk, observedNumBytes := chunk, observed;
    if cap.Some? {
      var room := if observed < cap.value then cap.value - observed else 0;
      var cappedLen := if room < |chunk| then room else |chunk|;
      observedNumBytes := observed + cappedLen;
      cappedChunk := chunk[..cappedLen];
    }
    CappedNext(kept, chunk, cappedChunk, cap);
  }

  /**
   * `spawn_process_output`: it ends with the stream, at the cap, or when the timeout strikes before
   * a chunk, and not before.  Whatever the chunking, and however chunks are merged, what is
   * buffered or sent is the stream up to the cap, and only the last delta says that the cap is
   * reached.
   */
  method CollectOutput(chunks: seq<Chunk>, processId: Option<string>, streamOutput: bool, cap: Option<nat>)
      returns (buffer: Bytes, deltas: seq<Delta>, consumed: nat, timedOut: bool)
    ensures consumed <= |chunks|
    ensures var kept := Capped(Flatten(chunks[..consumed]), cap);
      && (!streamOutput ==> buffer == kept && deltas == [])
      && (streamOutput && processId.Some? ==> Concat(deltas) == kept && buffer == [])
      && (streamOutput && processId.None? ==> deltas == [] && buffer == [])
      && (timedOut ==> consumed < |chunks| && chunks[consumed].late && !(0 < consumed && AtCap(kept, cap)))
      && (!timedOut ==> consumed == |chunks| || (0 < consumed && AtCap(kept, cap)))
      && forall i | 0 <= i < |deltas| :: (deltas[i].capReached <==> i == |deltas| - 1 && AtCap(kept, cap))
  {
    buffer, deltas, consumed, timedOut := [], [], 0, false;
    var observedNumBytes := 0;
    var capReached := false;
    ghost var kept: Bytes := [];
    while !capReached && consumed < |chunks|
      invariant consumed <= |chunks| && kept == Capped(Flatten(chunks[..consumed]), cap)
      invariant !capReached ==> kept == Flatten(chunks[..consumed])
      invariant cap.Some? ==> observedNumBytes == |kept| <= cap.value
      invariant 0 < consumed ==> (capReached <==> AtCap(kept, cap))
      invariant consumed == 0 ==> !capReached
      invariant !timedOut
      invariant buffer == if streamOutput then [] else kept
      invariant if streamOutput && processId.Some? then Concat(deltas) == kept else deltas == []
      invariant deltas != [] ==> 0 < consumed
      invariant forall i | 0 <= i < |deltas| :: (deltas[i].capReached <==> i == |deltas| - 1 && capReached)
      decreases |chunks| - consumed
    {
      timedOut := chunks[consumed].late;
      if timedOut {
        break;
      }
      var chunk, taken := ReceiveChunk(chunks, consumed);
      var cappedChunk;
      cappedChunk, observedNumBytes := CapChunk(chunk, cap, observedNumBytes, kept);
      kept := kept + cappedChunk;
      consumed := taken;
      capReached := cap == Some(observedNumBytes);
      if streamOutput && processId.Some? {
        ConcatAppend(deltas, Delta(cappedChunk, capReached));
        deltas := deltas + [Delta(cappedChunk, capReached)];
      } else if !streamOutput {
        buffer := buffer + cappedChunk;
      }
    }
  }

  /** For a start that is let in, the case in which output would be lost cannot arise. */
  method CollectForStart(p: ExecTable.StartParams, taken: bool, chunks: seq<Chunk>)
      returns (buffer: Bytes, deltas: seq<Delta>, consumed: nat, timedOut: bool)
    requires ExecTable.Refusal(p, taken) == None
    ensures consumed <= |chunks|
    ensures buffer + Concat(deltas) == Capped(Flatten(chunks[..consumed]), p.outputBytesCap)
    ensures buffer == [] || deltas == []
    ensures timedOut ==> consumed < |chunks| && chunks[consumed].late
    ensures !timedOut ==> consumed == |chunks| || AtCap(buffer + Concat(deltas), p.outputBytesCap)
  {
    buffer, deltas, consumed, timedOut :=
      CollectOutput(chunks, p.processId, p.tty || p.streamOutput, p.outputBytesCap);
    assert buffer + [] == buffer && [] + Concat(deltas) == Concat(deltas);
  }
}
