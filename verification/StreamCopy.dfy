// The copying loop under every TCP proxy (copyBuffered in internal/engine/engine.go).

module StreamCopy {
  import opened Bytes
  import opened Results
  import opened Base64
  import opened Pipeline

  /** One Read: the bytes it put into the buffer, and its error, if any. */
  datatype Read = Read(data: seq<byte>, error: Option<string>)

  /** A Write that fails, after passing on some bytes. */
  datatype WriteFault = WriteFault(passed: nat, error: string)

  /** A plugin and the pipeline of one of its directions; the copier may do without. */
  datatype Processor = Processor(schema: Schema, pipeline: seq<PipelineStep>)

  datatype Stop = ReadFailed(error: string) | WriteFailed(error: string) | ProcessFailed(cause: StepError)

  /** What the copier has done: the bytes the sink took, the bytes reported, its writes, its end. */
  datatype Copy = Copy(written: seq<byte>, reported: nat, writes: nat, stop: Option<Stop>)

  // --- The loop ---

  function Processed(data: seq<byte>, processor: Option<Processor>): Outcome {
    match processor
    case None => Ok(data)
    case Some(p) => PipelineOutcome(data, EffectiveSteps(p.schema, p.pipeline))
  }

  /** The write numbered c.writes. */
  function WritePayload(c: Copy, payload: seq<byte>, faults: map<nat, WriteFault>): Copy {
    if payload == [] then c
    else if c.writes in faults then
      var fault := faults[c.writes];
      c.(written := c.written + payload[..Min(fault.passed, |payload|)],
         writes := c.writes + 1,
         stop := Some(WriteFailed(fault.error)))
    else
      c.(written := c.written + payload, reported := c.reported + |payload|, writes := c.writes + 1)
  }

  function CopyRead(c: Copy, read: Read, processor: Option<Processor>, faults: map<nat, WriteFault>): Copy {
    if c.stop.Some? then c
    else
      var outcome := if read.data == [] then Ok([]) else Processed(read.data, processor);
      match outcome
      case Err(cause) => c.(stop := Some(ProcessFailed(cause)))
      case Ok(payload) =>
        var after := WritePayload(c, payload, faults);
        if after.stop.None? && read.error.Some? then after.(stop := Some(ReadFailed(read.error.value))) else after
  }

  function CopyAll(script: seq<Read>, processor: Option<Processor>, faults: map<nat, WriteFault>): Copy {
    if script == [] then Copy([], 0, 0, None)
    else CopyRead(CopyAll(script[..|script| - 1], processor, faults), script[|script| - 1], processor, faults)
  }

  lemma {:induction false} StoppedForGood(script: seq<Read>, n: nat, processor: Option<Processor>,
                                          faults: map<nat, WriteFault>)
    requires n <= |script|
    requires CopyAll(script[..n], processor, faults).stop.Some?
    ensures CopyAll(script, processor, faults) == CopyAll(script[..n], processor, faults)
  {
    if n < |script| {
      var before := script[..|script| - 1];
      assert before[..n] == script[..n];
      StoppedForGood(before, n, processor, faults);
    } else {
      assert script[..n] == script;
    }
  }

  lemma NoReadsYet(processor: Option<Processor>, faults: map<nat, WriteFault>)
    ensures CopyAll([], processor, faults) == Copy([], 0, 0, None)
  {
  }

  lemma OneMoreRead(script: seq<Read>, i: nat, processor: Option<Processor>, faults: map<nat, WriteFault>)
    requires i < |script|
    ensures CopyAll(script[..i + 1], processor, faults)
         == CopyRead(CopyAll(script[..i], processor, faults), script[i], processor, faults)
  {
    hide CopyRead;
    assert script[..i + 1][..i] == script[..i];
  }

  /** copyBuffered, over the reads that have happened; no stop means it waits for the next one. */
  method CopyBuffered(script: seq<Read>, processor: Option<Processor>, faults: map<nat, WriteFault>)
    returns (written: seq<byte>, reported: nat, stop: Option<Stop>)
    ensures var c := CopyAll(script, processor, faults);
            written == c.written && reported == c.reported && stop == c.stop
  {
    hide PipelineOutcome, EffectiveSteps, CopyAll;
    var writes: nat := 0;
    written, reported, stop := [], 0, None;
    NoReadsYet(processor, faults);
    for i := 0 to |script|
      invariant CopyAll(script[..i], processor, faults) == Copy(written, reported, writes, None)
      invariant stop == None
    {
      OneMoreRead(script, i, processor, faults);
      var read := script[i];
      if |read.data| > 0 {
        var payload := read.data;
        if processor.Some? {
          var processed := Process(processor.value.schema, payload, processor.value.pipeline);
          if processed.Err? {
            stop := Some(ProcessFailed(processed.error));
            StoppedForGood(script, i + 1, processor, faults);
            return;
          }
          payload := processed.value;
        }
        if |payload| > 0 {
          if writes in faults {
            var fault := faults[writes];
            written := written + payload[..Min(fault.passed, |payload|)];
            stop := Some(WriteFailed(fault.error));
            StoppedForGood(script, i + 1, processor, faults);
            return;
          }
          written := written + payload;
          writes := writes + 1;
          reported := reported + |payload|;
        }
      }
      if read.error.Some? {
        stop := Some(ReadFailed(read.error.value));
        StoppedForGood(script, i + 1, processor, faults);
        return;
      }
    }
    assert script[..|script|] == script;
  }

  // --- The stream that was read ---

  function FirstError(script: seq<Read>): Option<string> {
    if script == [] then None
    else
      var before := FirstError(script[..|script| - 1]);
      if before.Some? then before else script[|script| - 1].error
  }

  function SourceStop(script: seq<Read>): Option<Stop> {
    match FirstError(script)
    case Some(error) => Some(ReadFailed(error))
    case None => None
  }

  /** The chunks the source delivered, up to its first error. */
  function Chunks(script: seq<Read>): seq<seq<byte>> {
    if script == [] then []
    else
      var before, last := script[..|script| - 1], script[|script| - 1];
      if FirstError(before).Some? || last.data == [] then Chunks(before) else Chunks(before) + [last.data]
  }

  function Join(chunks: seq<seq<byte>>): seq<byte> {
    if chunks == [] then [] else Join(chunks[..|chunks| - 1]) + chunks[|chunks| - 1]
  }

  lemma JoinOneMore(chunks: seq<seq<byte>>, chunk: seq<byte>)
    ensures Join(chunks + [chunk]) == Join(chunks) + chunk
  {
    assert (chunks + [chunk])[..|chunks|] == chunks;
  }

  /**
    Without a processor: however the reads split the input and whatever writes do, the sink has a
    prefix of the stream, all of which is reported unless a write failed; and with no write fault
    the whole stream, and the source's own error is returned.
    */
  lemma {:induction false} CopiesTheStream(script: seq<Read>, faults: map<nat, WriteFault>)
    ensures var c := CopyAll(script, None, faults);
            var stream := Join(Chunks(script));
            c.written <= stream && c.reported <= |c.written|
            && (if c.stop.Some? && c.stop.value.WriteFailed? then exists w <- faults :: w < c.writes
                else c.reported == |c.written| && c.written == stream && c.stop == SourceStop(script))
  {
    if script != [] {
      var before, last := script[..|script| - 1], script[|script| - 1];
      CopiesTheStream(before, faults);
      JoinOneMore(Chunks(before), last.data);
      var c := CopyAll(before, None, faults);
      if c.stop.None? && last.data != [] && c.writes in faults {
        assert c.writes < CopyAll(script, None, faults).writes;
      }
    }
  }

  /** With any processor, what is reported is what was written, unless a write failed. */
  lemma {:induction false} ReportsWhatItWrote(script: seq<Read>, processor: Option<Processor>,
                                              faults: map<nat, WriteFault>)
    ensures var c := CopyAll(script, processor, faults);
            c.reported <= |c.written|
            && (!(c.stop.Some? && c.stop.value.WriteFailed?) ==> c.reported == |c.written|)
  {
    hide Processed;
    if script != [] {
      ReportsWhatItWrote(script[..|script| - 1], processor, faults);
    }
  }

  // --- With any processor and any write faults ---

  /** How the copy ends for the source and the processor, whatever the sink does. */
  function End(script: seq<Read>, processor: Option<Processor>): Option<Stop> {
    if script == [] then None
    else
      var before, last := End(script[..|script| - 1], processor), script[|script| - 1];
      if before.Some? then before
      else if last.data != [] && Processed(last.data, processor).Err? then
        Some(ProcessFailed(Processed(last.data, processor).error))
      else if last.error.Some? then Some(ReadFailed(last.error.value))
      else None
  }

  /** The payloads there are to write, each from one chunk: up to a chunk that cannot be processed. */
  function Payloads(script: seq<Read>, processor: Option<Processor>): seq<seq<byte>> {
    if script == [] then []
    else
      var before, last := script[..|script| - 1], script[|script| - 1];
      Payloads(before, processor)
      + if End(before, processor).None? && last.data != [] && Processed(last.data, processor).Ok?
           && Processed(last.data, processor).value != []
        then [Processed(last.data, processor).value] else []
  }

  /** The first of n writes that fails. */
  function FirstFault(n: nat, faults: map<nat, WriteFault>): (r: Option<nat>)
    ensures r.Some? ==> r.value < n && r.value in faults
    ensures forall w | 0 <= w < n && w in faults :: r.Some? && r.value <= w
  {
    if n == 0 then None
    else
      var before := FirstFault(n - 1, faults);
      if before.Some? then before else if n - 1 in faults then Some(n - 1) else None
  }

  /** What has been done when these payloads were to be written, and then this end reached. */
  function Account(payloads: seq<seq<byte>>, end: Option<Stop>, faults: map<nat, WriteFault>): Copy {
    match FirstFault(|payloads|, faults)
    case None => Copy(Join(payloads), |Join(payloads)|, |payloads|, end)
    case Some(w) =>
      Copy(Join(payloads[..w]) + payloads[w][..Min(faults[w].passed, |payloads[w]|)],
           |Join(payloads[..w])|, w + 1, Some(WriteFailed(faults[w].error)))
  }

  lemma OnePayloadMore(payloads: seq<seq<byte>>, payload: seq<byte>, end: Option<Stop>, faults: map<nat, WriteFault>)
    requires payload != []
    ensures var c := Account(payloads, None, faults);
            Account(payloads + [payload], end, faults)
            == if c.stop.Some? then c
               else
                 var after := WritePayload(c, payload, faults);
                 if after.stop.Some? then after else after.(stop := end)
  {
    var more := payloads + [payload];
    JoinOneMore(payloads, payload);
    var first := FirstFault(|payloads|, faults);
    if first.Some? {
      assert more[..first.value] == payloads[..first.value];
    } else {
      assert more[..|payloads|] == payloads;
    }
  }

  lemma SameFaults(payloads: seq<seq<byte>>, end: Option<Stop>, faults: map<nat, WriteFault>)
    ensures var c := Account(payloads, None, faults);
            Account(payloads, end, faults) == if c.stop.Some? then c else c.(stop := end)
  {
  }

  /**
    Every copy: the payloads are written in order, each whole, until one write fails or the source
    or the processor ends it; what is reported are the payloads written whole.
    */
  lemma {:induction false} CopyIsAccounted(script: seq<Read>, processor: Option<Processor>,
                                           faults: map<nat, WriteFault>)
    ensures CopyAll(script, processor, faults) == Account(Payloads(script, processor), End(script, processor), faults)
    decreases |script|
  {
    hide Processed, Account, FirstFault, WritePayload;
    if script == [] {
      NothingToWrite(faults);
    } else {
      var before, last := script[..|script| - 1], script[|script| - 1];
      var payloads := Payloads(before, processor);
      CopyIsAccounted(before, processor, faults);
      SameFaults(payloads, End(before, processor), faults);
      SameFaults(payloads, End(script, processor), faults);
      assert payloads + [] == payloads;
      NoPayload(CopyAll(before, processor, faults), faults);
      if End(before, processor).None? && last.data != [] && Processed(last.data, processor).Ok?
         && Processed(last.data, processor).value != [] {
        OnePayloadMore(payloads, Processed(last.data, processor).value, End(script, processor), faults);
      }
    }
  }

  lemma NothingToWrite(faults: map<nat, WriteFault>)
    ensures Account([], None, faults) == Copy([], 0, 0, None)
  {
  }

  lemma NoPayload(c: Copy, faults: map<nat, WriteFault>)
    ensures WritePayload(c, [], faults) == c
  {
  }

  /** A chunk that cannot be processed ends the copy, and nothing of it or behind it is written. */
  lemma FailedChunkStops(script: seq<Read>, chunk: seq<byte>, error: Option<string>, rest: seq<Read>,
                         processor: Option<Processor>)
    requires chunk != [] && Processed(chunk, processor).Err? && End(script, processor) == None
    ensures var c := CopyAll(script + [Read(chunk, error)] + rest, processor, map[]);
            && c.written == CopyAll(script, processor, map[]).written
            && c.stop == Some(ProcessFailed(Processed(chunk, processor).error))
  {
    hide Processed;
    var failed := script + [Read(chunk, error)];
    assert failed[..|script|] == script;
    assert (failed + rest)[..|failed|] == failed;
    CopyIsAccounted(script, processor, map[]);
    assert CopyAll(script, processor, map[]).stop == None;
    StoppedForGood(failed + rest, |failed|, processor, map[]);
  }

  function EncodeEach(chunks: seq<seq<byte>>): seq<byte> {
    if chunks == [] then [] else EncodeEach(chunks[..|chunks| - 1]) + Encode(chunks[|chunks| - 1])
  }

  lemma StoppedStays(c: Copy, read: Read, processor: Option<Processor>)
    requires c.stop.Some?
    ensures CopyRead(c, read, processor, map[]) == c
  {
  }

  /** What one read adds when nothing fails. */
  lemma ReadProcessed(c: Copy, read: Read, processor: Option<Processor>, payload: seq<byte>)
    requires c.stop.None? && (if read.data == [] then payload == [] else Processed(read.data, processor) == Ok(payload))
    ensures var after := CopyRead(c, read, processor, map[]);
            after.written == c.written + payload
            && after.stop == match read.error { case Some(e) => Some(ReadFailed(e)) case None => None }
  {
    hide Processed;
  }

  lemma EncodeOneMore(chunks: seq<seq<byte>>, last: seq<byte>)
    ensures EncodeEach(chunks + [last]) == EncodeEach(chunks) + Encode(last)
    ensures Encode([]) == [] && EncodeEach([]) == []
  {
    hide Encode;
    NothingEncoded();
    assert (chunks + [last])[..|chunks|] == chunks;
  }

  lemma NothingEncoded()
    ensures Encode([]) == []
  {
  }

  /** A base64 pipeline encodes chunk by chunk, each with its own padding. */
  lemma {:induction false} CopiesEncoded(script: seq<Read>, schema: Schema, key: seq<byte>)
    ensures var c := CopyAll(script, Some(Processor(schema, [PipelineStep("base64_encode", key)])), map[]);
            c.written == EncodeEach(Chunks(script)) && c.stop == SourceStop(script)
    decreases |script|
  {
    hide Encode, EncodeEach, Processed, CopyRead;
    var processor := Some(Processor(schema, [PipelineStep("base64_encode", key)]));
    EncodeOneMore([], []);
    if script != [] {
      var before, last := script[..|script| - 1], script[|script| - 1];
      var c := CopyAll(before, processor, map[]);
      CopiesEncoded(before, schema, key);
      if FirstError(before).None? {
        EncodesOne(last.data, schema, key);
        ReadProcessed(c, last, processor, Encode(last.data));
        EncodeOneMore(Chunks(before), last.data);
        assert c.written + [] == c.written;
      } else {
        StoppedStays(c, last, processor);
      }
    }
  }

  lemma EncodesOne(data: seq<byte>, schema: Schema, key: seq<byte>)
    ensures Processed(data, Some(Processor(schema, [PipelineStep("base64_encode", key)]))) == Ok(Encode(data))
  {
    hide Encode;
    var step := PipelineStep("base64_encode", key);
    assert [step][1..] == [] && EffectiveSteps(schema, [step]) == [step];
    assert StepOutcome(data, step) == Ok(Encode(data));
    assert PipelineOutcome(data, [step]) == PipelineOutcome(Encode(data), []);
  }

  // --- Chunk by chunk against all at once ---

  /** The key stream as the copier applies it: it starts again with every chunk. */
  function RestartedKeys(chunks: seq<seq<byte>>, steps: seq<PipelineStep>): (r: seq<byte>)
    ensures |r| == |Join(chunks)|
  {
    if chunks == [] then []
    else
      var n := |chunks| - 1;
      RestartedKeys(chunks[..n], steps) + KeyStreamBytes(steps, |chunks[n]|)
  }

  lemma XorBytesConcat(a: seq<byte>, b: seq<byte>, x: seq<byte>, y: seq<byte>)
    requires |a| == |x| && |b| == |y|
    ensures XorBytes(a + b, x + y) == XorBytes(a, x) + XorBytes(b, y)
  {
    hide Xor;
  }

  ghost predicate KeyedProcessor(processor: Option<Processor>, steps: seq<PipelineStep>) {
    processor.Some? && Keyed(steps) && steps == EffectiveSteps(processor.value.schema, processor.value.pipeline)
  }

  lemma NonEmptyOutput(data: seq<byte>, processor: Option<Processor>, steps: seq<PipelineStep>)
    requires KeyedProcessor(processor, steps)
    ensures Processed(data, processor) == Ok(XorBytes(data, KeyStreamBytes(steps, |data|)))
  {
    hide Xor, PipelineOutcome, KeyStreamBytes, XorBytes;
    KeyedOutcome(data, steps);
  }

  /** What one more read adds to the output of a copier with an xor/noop pipeline. */
  lemma ReadKeyed(c: Copy, read: Read, processor: Option<Processor>, steps: seq<PipelineStep>)
    requires KeyedProcessor(processor, steps) && c.stop.None?
    ensures var after := CopyRead(c, read, processor, map[]);
            after.written == c.written + XorBytes(read.data, KeyStreamBytes(steps, |read.data|))
            && after.stop == match read.error { case Some(e) => Some(ReadFailed(e)) case None => None }
  {
    hide KeyedProcessor, Processed, KeyStreamBytes, XorBytes;
    if read.data != [] {
      NonEmptyOutput(read.data, processor, steps);
    } else {
      assert XorBytes(read.data, KeyStreamBytes(steps, 0)) == [];
    }
  }

  lemma OneMoreChunk(chunks: seq<seq<byte>>, last: seq<byte>, steps: seq<PipelineStep>)
    ensures RestartedKeys(chunks + [last], steps) == RestartedKeys(chunks, steps) + KeyStreamBytes(steps, |last|)
    ensures XorBytes(Join(chunks + [last]), RestartedKeys(chunks + [last], steps))
         == XorBytes(Join(chunks), RestartedKeys(chunks, steps)) + XorBytes(last, KeyStreamBytes(steps, |last|))
  {
    hide XorBytes, KeyStreamBytes;
    assert (chunks + [last])[..|chunks|] == chunks;
    XorBytesConcat(Join(chunks), last, RestartedKeys(chunks, steps), KeyStreamBytes(steps, |last|));
  }

  /** What a copier with an xor/noop pipeline writes. */
  lemma {:induction false} CopiesKeyed(script: seq<Read>, processor: Option<Processor>, steps: seq<PipelineStep>)
    requires KeyedProcessor(processor, steps)
    ensures var c, chunks := CopyAll(script, processor, map[]), Chunks(script);
            c.written == XorBytes(Join(chunks), RestartedKeys(chunks, steps))
            && c.stop == SourceStop(script)
  {
    hide KeyedProcessor, CopyRead, KeyStreamBytes, XorBytes, RestartedKeys, Join;
    if script == [] {
      NothingCopied(steps);
    } else {
      var before, last := script[..|script| - 1], script[|script| - 1];
      var c := CopyAll(before, processor, map[]);
      CopiesKeyed(before, processor, steps);
      if FirstError(before).None? {
        ReadKeyed(c, last, processor, steps);
        if last.data == [] {
          assert c.written + [] == c.written;
        } else {
          OneMoreChunk(Chunks(before), last.data, steps);
        }
      } else {
        StoppedStays(c, last, processor);
      }
    }
  }

  lemma NothingCopied(steps: seq<PipelineStep>)
    ensures XorBytes(Join([]), RestartedKeys([], steps)) == []
  {
  }

  /** The key stream runs alike from the start of every chunk and from its place in the stream. */
  ghost predicate Aligned(chunks: seq<seq<byte>>, steps: seq<PipelineStep>) {
    forall k, i :: 0 <= k < |chunks| && 0 <= i < |chunks[k]| ==>
      KeyStream(steps, |Join(chunks[..k])| + i) == KeyStream(steps, i)
  }

  lemma KeyStreamPrefix(steps: seq<PipelineStep>, from: nat, n: nat)
    ensures KeyStreamBytes(steps, from + n)[..from] == KeyStreamBytes(steps, from)
  {
    hide KeyStream;
  }

  lemma NoChunks(steps: seq<PipelineStep>)
    ensures Aligned([], steps)
    ensures RestartedKeys([], steps) == KeyStreamBytes(steps, |Join([])|)
  {
  }

  lemma {:induction false} AlignedMeans(chunks: seq<seq<byte>>, steps: seq<PipelineStep>)
    ensures Aligned(chunks, steps) <==> RestartedKeys(chunks, steps) == KeyStreamBytes(steps, |Join(chunks)|)
  {
    hide Aligned, KeyStream, KeyStreamBytes;
    if chunks == [] {
      NoChunks(steps);
    } else {
      var n := |chunks| - 1;
      var before, last := chunks[..n], chunks[n];
      AlignedMeans(before, steps);
      AlignedPrefix(chunks, steps);
      var from := |Join(before)|;
      var whole := KeyStreamBytes(steps, from + |last|);
      KeyStreamPrefix(steps, from, |last|);
      SamePairs(RestartedKeys(before, steps), whole[..from], KeyStreamBytes(steps, |last|), whole[from..]);
      assert whole == whole[..from] + whole[from..];
    }
  }

  lemma AlignedPrefix(chunks: seq<seq<byte>>, steps: seq<PipelineStep>)
    requires chunks != []
    ensures var n := |chunks| - 1;
            var from := |Join(chunks[..n])|;
            Aligned(chunks, steps)
            <==> Aligned(chunks[..n], steps)
                 && KeyStreamBytes(steps, |chunks[n]|) == KeyStreamBytes(steps, from + |chunks[n]|)[from..]
  {
    hide KeyStream, Join;
    var n := |chunks| - 1;
    var before := chunks[..n];
    var from := |Join(before)|;
    forall k | 0 <= k < n ensures before[..k] == chunks[..k] && before[k] == chunks[k] { }
    var local, global := KeyStreamBytes(steps, |chunks[n]|), KeyStreamBytes(steps, from + |chunks[n]|)[from..];
    forall i | 0 <= i < |chunks[n]|
      ensures local[i] == global[i] <==> KeyStream(steps, from + i) == KeyStream(steps, i)
    { }
  }

  /** Copying chunk by chunk is the one-shot transform exactly when every chunk starts aligned. */
  lemma ChunkingIsUnobservable(script: seq<Read>, processor: Option<Processor>, steps: seq<PipelineStep>)
    requires KeyedProcessor(processor, steps)
    ensures Ok(CopyAll(script, processor, map[]).written) == PipelineOutcome(Join(Chunks(script)), steps)
       <==> Aligned(Chunks(script), steps)
  {
    hide PipelineOutcome, Keyed, KeyStreamBytes, XorBytes, Aligned, CopyAll;
    var chunks := Chunks(script);
    CopiesKeyed(script, processor, steps);
    KeyedOutcome(Join(chunks), steps);
    AlignedMeans(chunks, steps);
    XorBytesDetermines(Join(chunks), RestartedKeys(chunks, steps), KeyStreamBytes(steps, |Join(chunks)|));
  }

  /** Every key length divides every chunk length, except the last one. */
  predicate ChunksFitKeys(chunks: seq<seq<byte>>, steps: seq<PipelineStep>) {
    forall k, j :: 0 <= k < |chunks| - 1 && 0 <= j < |steps| && steps[j].op == "xor" && steps[j].key != [] ==>
      |chunks[k]| % |steps[j].key| == 0
  }

  lemma RemainderUnique(x: int, m: int, q: int, r: int)
    requires 0 <= r < m && x == m * q + r
    ensures x % m == r
  {
    var d := x / m - q;
    assert x == m * (x / m) + x % m;
    assert m * d == r - x % m;
    assert d >= 1 ==> m * d >= m;
    assert d <= -1 ==> m * d <= -m;
  }

  lemma MultiplesAdd(a: nat, b: nat, m: nat)
    requires m > 0 && a % m == 0
    ensures (a + b) % m == b % m
  {
    var p, q := a / m, b / m;
    assert a == m * p && b == m * q + b % m;
    assert a + b == m * (p + q) + b % m;
    RemainderUnique(a + b, m, p + q, b % m);
  }

  lemma {:induction false} PeriodicKeys(steps: seq<PipelineStep>, from: nat, i: nat)
    requires forall step <- steps :: step.op == "xor" && step.key != [] ==> from % |step.key| == 0
    ensures KeyStream(steps, from + i) == KeyStream(steps, i)
  {
    hide Xor;
    if steps != [] {
      var step := steps[0];
      if step.op == "xor" && step.key != [] { MultiplesAdd(from, i, |step.key|); }
      PeriodicKeys(steps[1..], from, i);
    }
  }

  lemma {:induction false} JoinedLength(chunks: seq<seq<byte>>, m: nat)
    requires m > 0 && forall k :: 0 <= k < |chunks| ==> |chunks[k]| % m == 0
    ensures |Join(chunks)| % m == 0
  {
    if chunks != [] {
      var n := |chunks| - 1;
      JoinedLength(chunks[..n], m);
      MultiplesAdd(|Join(chunks[..n])|, |chunks[n]|, m);
    }
  }

  lemma FittingOffset(chunks: seq<seq<byte>>, steps: seq<PipelineStep>, k: nat, step: PipelineStep)
    requires ChunksFitKeys(chunks, steps) && k < |chunks|
    requires step in steps && step.op == "xor" && step.key != []
    ensures |Join(chunks[..k])| % |step.key| == 0
  {
    hide Join;
    var j :| 0 <= j < |steps| && steps[j] == step;
    forall l | 0 <= l < k ensures |chunks[..k][l]| % |step.key| == 0 {
      assert chunks[..k][l] == chunks[l] && |chunks[l]| % |steps[j].key| == 0;
    }
    JoinedLength(chunks[..k], |step.key|);
  }

  lemma FittingChunksAlign(chunks: seq<seq<byte>>, steps: seq<PipelineStep>)
    requires ChunksFitKeys(chunks, steps)
    ensures Aligned(chunks, steps)
  {
    hide Join, KeyStream, ChunksFitKeys;
    forall k, i | 0 <= k < |chunks| && 0 <= i < |chunks[k]|
      ensures KeyStream(steps, |Join(chunks[..k])| + i) == KeyStream(steps, i)
    {
      forall step | step in steps && step.op == "xor" && step.key != []
        ensures |Join(chunks[..k])| % |step.key| == 0
      {
        FittingOffset(chunks, steps, k, step);
      }
      PeriodicKeys(steps, |Join(chunks[..k])|, i);
    }
  }

  /**
    Two copiers in series with the same xor/noop pipeline, the second reading the first's output in
    chunks of its own: the stream comes back exactly when the two restart their keys alike.
    */
  lemma CopiersInSeries(script: seq<Read>, again: seq<Read>, processor: Option<Processor>, steps: seq<PipelineStep>)
    requires KeyedProcessor(processor, steps)
    requires Join(Chunks(again)) == CopyAll(script, processor, map[]).written
    ensures |Join(Chunks(again))| == |Join(Chunks(script))|
    ensures CopyAll(again, processor, map[]).written == Join(Chunks(script))
       <==> RestartedKeys(Chunks(again), steps) == RestartedKeys(Chunks(script), steps)
    ensures Aligned(Chunks(script), steps) && Aligned(Chunks(again), steps) ==>
      CopyAll(again, processor, map[]).written == Join(Chunks(script))
  {
    hide PipelineOutcome, Keyed, KeyStreamBytes, XorBytes, Aligned, CopyAll;
    CopiesKeyed(script, processor, steps);
    CopiesKeyed(again, processor, steps);
    var stream := Join(Chunks(script));
    var a, b := RestartedKeys(Chunks(script), steps), RestartedKeys(Chunks(again), steps);
    XorBytesTwice(stream, a);
    XorBytesDetermines(XorBytes(stream, a), b, a);
    AlignedMeans(Chunks(script), steps);
    AlignedMeans(Chunks(again), steps);
  }

  lemma XorBytesTwice(data: seq<byte>, stream: seq<byte>)
    requires |data| == |stream|
    ensures XorBytes(XorBytes(data, stream), stream) == data
  {
    hide Xor;
    forall i | 0 <= i < |data| ensures XorBytes(XorBytes(data, stream), stream)[i] == data[i] {
      XorCancels(data[i], stream[i]);
    }
  }
}
