// The byte pipelines of a plugin (internal/plugin/runtime.go) and the checks its schema passes
// before it is served (internal/plugin/schema.go).

module Pipeline {
  import opened Bytes
  import opened Results
  import opened Base64

  /** Op as written in the schema; the key as the bytes of the string. */
  datatype PipelineStep = PipelineStep(op: string, key: seq<byte>)

  datatype StepError = EmptyKey | CorruptBase64 | UnsupportedOp(op: string)

  type Outcome = Result<seq<byte>, StepError>

  // --- Exclusive or ---

  function Xor(a: byte, b: byte): byte {
    ((a as bv8) ^ (b as bv8)) as int
  }

  ghost function BitsOf(a: byte): (v: bv8)
    ensures v as int == a
  {
    if a == 0 then 0 else BitsOf(a - 1) + 1
  }

  lemma ByteBits(a: byte)
    ensures (a as bv8) as int == a
  {
    BitsByte(BitsOf(a));
  }

  lemma BitsByte(v: bv8)
    ensures (v as int) as bv8 == v
  {
  }

  lemma XorSymmetric(a: byte, b: byte)
    ensures Xor(a, b) == Xor(b, a)
  {
  }

  lemma XorAssociative(a: byte, b: byte, c: byte)
    ensures Xor(Xor(a, b), c) == Xor(a, Xor(b, c))
  {
    BitsByte((a as bv8) ^ (b as bv8));
    BitsByte((b as bv8) ^ (c as bv8));
  }

  lemma XorCancels(a: byte, b: byte)
    ensures Xor(Xor(a, b), b) == a
  {
    ByteBits(a);
    BitsByte((a as bv8) ^ (b as bv8));
  }

  lemma XorZero(a: byte)
    ensures Xor(a, 0) == a
  {
    ByteBits(a);
  }

  lemma XorLaws(a: byte, b: byte, c: byte)
    ensures Xor(a, b) == Xor(b, a)
    ensures Xor(Xor(a, b), c) == Xor(a, Xor(b, c))
    ensures Xor(Xor(a, b), b) == a
    ensures Xor(a, 0) == a
  {
    hide Xor;
    XorSymmetric(a, b);
    XorAssociative(a, b, c);
    XorCancels(a, b);
    XorZero(a);
  }

  lemma XorDetermines(a: byte, b: byte, c: byte)
    ensures Xor(a, b) == Xor(a, c) <==> b == c
  {
    hide Xor;
    XorLaws(a, b, a);
    XorLaws(b, a, a);
    XorLaws(c, a, a);
  }

  function XorWithKey(data: seq<byte>, key: seq<byte>): (r: seq<byte>)
    requires key != []
    ensures |r| == |data|
  {
    seq(|data|, i requires 0 <= i < |data| => Xor(data[i], key[i % |key|]))
  }

  // --- One step, and a pipeline ---

  function StepOutcome(data: seq<byte>, step: PipelineStep): Outcome {
    if step.op == "" || step.op == "noop" then Ok(data)
    else if step.op == "xor" then
      if step.key == [] then Err(EmptyKey) else Ok(XorWithKey(data, step.key))
    else if step.op == "base64_encode" then Ok(Encode(data))
    else if step.op == "base64_decode" then
      match Decode(data)
      case Some(decoded) => Ok(decoded)
      case None => Err(CorruptBase64)
    else Err(UnsupportedOp(step.op))
  }

  function PipelineOutcome(data: seq<byte>, steps: seq<PipelineStep>): Outcome
    decreases |steps|
  {
    if steps == [] then Ok(data)
    else
      match StepOutcome(data, steps[0])
      case Ok(out) => PipelineOutcome(out, steps[1..])
      case Err(error) => Err(error)
  }

  /** runStep. */
  method RunStep(data: seq<byte>, step: PipelineStep) returns (outcome: Outcome)
    ensures outcome == StepOutcome(data, step)
  {
    match step.op
    case "" => outcome := Ok(data);
    case "noop" => outcome := Ok(data);
    case "xor" =>
      var key := step.key;
      if |key| == 0 { return Err(EmptyKey); }
      var out := new byte[|data|](_ => 0);
      for i := 0 to |data|
        invariant forall j :: 0 <= j < i ==> out[j] == Xor(data[j], key[j % |key|])
      {
        out[i] := Xor(data[i], key[i % |key|]);
      }
      assert out[..] == XorWithKey(data, key);
      outcome := Ok(out[..]);
    case "base64_encode" => outcome := Ok(Encode(data));
    case "base64_decode" =>
      var decoded := Decode(data);
      if decoded.None? { return Err(CorruptBase64); }
      outcome := Ok(decoded.value);
    case _ => outcome := Err(UnsupportedOp(step.op));
  }

  // --- Schemas and runtime plugins ---

  /**
    A normalised schema. The verdicts on the targets and on the compatibility metadata are inputs.
    */
  datatype Schema = Schema(
    schemaVersion: string,
    name: seq<byte>,
    version: string,
    targetsFault: Option<string>,
    runtimeType: string,
    mode: string,
    udpReplyPolicy: string,
    enableObfuscation: bool,
    clientPipeline: seq<PipelineStep>,
    serverPipeline: seq<PipelineStep>,
    compatibilityFault: Option<string>)

  datatype SchemaError =
    | SchemaVersionRequired
    | SchemaVersionUnknown
    | NameRequired
    | VersionRequired
    | BadTargets(fault: string)
    | BadRuntimeType
    | BadRuntimeMode
    | BadReplyPolicy
    | StepsNotAllowed
    | BadClientPipeline(step: nat, cause: StepError)
    | BadServerPipeline(step: nat, cause: StepError)
    | BadCompatibility(fault: string)

  function ValidateStep(step: PipelineStep): Option<StepError> {
    match step.op
    case "noop" => None
    case "xor" => if step.key == [] then Some(EmptyKey) else None
    case "base64_encode" => None
    case "base64_decode" => None
    case _ => Some(UnsupportedOp(step.op))
  }

  function PipelineFault(steps: seq<PipelineStep>, from: nat): Option<(nat, StepError)>
    requires from <= |steps|
    decreases |steps| - from
  {
    if from == |steps| then None
    else if ValidateStep(steps[from]).Some? then Some((from, ValidateStep(steps[from]).value))
    else PipelineFault(steps, from + 1)
  }

  /** validatePipeline: the first bad step and its fault. */
  method ValidatePipeline(steps: seq<PipelineStep>) returns (bad: Option<(nat, StepError)>)
    ensures bad == PipelineFault(steps, 0)
  {
    for i := 0 to |steps|
      invariant PipelineFault(steps, 0) == PipelineFault(steps, i)
    {
      var fault := ValidateStep(steps[i]);
      if fault.Some? { return Some((i, fault.value)); }
    }
    bad := None;
  }

  function SchemaFault(s: Schema): Option<SchemaError> {
    if s.schemaVersion == "" then Some(SchemaVersionRequired)
    else if s.schemaVersion != "v1" then Some(SchemaVersionUnknown)
    else if s.name == [] then Some(NameRequired)
    else if s.version == "" then Some(VersionRequired)
    else if s.targetsFault.Some? then Some(BadTargets(s.targetsFault.value))
    else if s.runtimeType != "builtin" && s.runtimeType != "json" then Some(BadRuntimeType)
    else if s.mode != "passthrough" && s.mode != "pipeline" then Some(BadRuntimeMode)
    else if s.udpReplyPolicy !in ["", "any", "same_ip", "strict"] then Some(BadReplyPolicy)
    else if s.mode == "passthrough" && (|s.clientPipeline| > 0 || |s.serverPipeline| > 0) then Some(StepsNotAllowed)
    else
      match (PipelineFault(s.clientPipeline, 0), PipelineFault(s.serverPipeline, 0))
      case (Some((i, fault)), _) => Some(BadClientPipeline(i, fault))
      case (None, Some((i, fault))) => Some(BadServerPipeline(i, fault))
      case (None, None) =>
        if s.compatibilityFault.Some? then Some(BadCompatibility(s.compatibilityFault.value)) else None
  }

  predicate Valid(s: Schema) {
    SchemaFault(s) == None
  }

  /** The faults a schema may have, in the order in which they are looked for. */
  predicate Has(s: Schema, fault: nat) {
    match fault
    case 0 => |s.schemaVersion| == 0
    case 1 => s.schemaVersion != ['v', '1']
    case 2 => |s.name| == 0
    case 3 => |s.version| == 0
    case 4 => s.targetsFault.Some?
    case 5 => !(s.runtimeType == "builtin" || s.runtimeType == "json")
    case 6 => !(s.mode == "passthrough" || s.mode == "pipeline")
    case 7 =>
      !(s.udpReplyPolicy == "" || s.udpReplyPolicy == "any" || s.udpReplyPolicy == "same_ip"
        || s.udpReplyPolicy == "strict")
    case 8 => s.mode == "passthrough" && !(|s.clientPipeline| == 0 && |s.serverPipeline| == 0)
    case 9 => PipelineFault(s.clientPipeline, 0).Some?
    case 10 => PipelineFault(s.serverPipeline, 0).Some?
    case 11 => s.compatibilityFault.Some?
    case _ => false
  }

  /** The error that reports a fault. */
  predicate Reports(s: Schema, fault: nat, error: SchemaError) {
    match fault
    case 0 => error == SchemaVersionRequired
    case 1 => error == SchemaVersionUnknown
    case 2 => error == NameRequired
    case 3 => error == VersionRequired
    case 4 => s.targetsFault.Some? && error == BadTargets(s.targetsFault.value)
    case 5 => error == BadRuntimeType
    case 6 => error == BadRuntimeMode
    case 7 => error == BadReplyPolicy
    case 8 => error == StepsNotAllowed
    case 9 =>
      var fault := PipelineFault(s.clientPipeline, 0);
      fault.Some? && error == BadClientPipeline(fault.value.0, fault.value.1)
    case 10 =>
      var fault := PipelineFault(s.serverPipeline, 0);
      fault.Some? && error == BadServerPipeline(fault.value.0, fault.value.1)
    case 11 => s.compatibilityFault.Some? && error == BadCompatibility(s.compatibilityFault.value)
    case _ => false
  }

  /** A schema is valid when it has no fault, and otherwise its first fault is reported. */
  lemma FirstFaultReported(s: Schema, fault: nat)
    ensures Valid(s) <==> forall f: nat :: !Has(s, f)
    ensures Has(s, fault) && (forall f: nat | f < fault :: !Has(s, f)) ==>
      SchemaFault(s).Some? && Reports(s, fault, SchemaFault(s).value)
  {
    hide PipelineFault;
    assert forall f: nat :: f > 11 ==> !Has(s, f);
    if forall f: nat :: !Has(s, f) {
      assert !Has(s, 0) && !Has(s, 1) && !Has(s, 2) && !Has(s, 3) && !Has(s, 4) && !Has(s, 5);
      assert !Has(s, 6) && !Has(s, 7) && !Has(s, 8) && !Has(s, 9) && !Has(s, 10) && !Has(s, 11);
    }
    if Has(s, fault) && forall f: nat | f < fault :: !Has(s, f) {
      assert fault <= 11;
      assert (fault > 0 ==> !Has(s, 0)) && (fault > 1 ==> !Has(s, 1)) && (fault > 2 ==> !Has(s, 2));
      assert (fault > 3 ==> !Has(s, 3)) && (fault > 4 ==> !Has(s, 4)) && (fault > 5 ==> !Has(s, 5));
      assert (fault > 6 ==> !Has(s, 6)) && (fault > 7 ==> !Has(s, 7)) && (fault > 8 ==> !Has(s, 8));
      assert (fault > 9 ==> !Has(s, 9)) && (fault > 10 ==> !Has(s, 10));
    }
  }

  /** RuntimePlugin.Passthrough. */
  predicate Passthrough(s: Schema) {
    s.mode == "passthrough" && !s.enableObfuscation && |s.clientPipeline| == 0 && |s.serverPipeline| == 0
  }

  function EffectiveSteps(s: Schema, pipeline: seq<PipelineStep>): seq<PipelineStep> {
    if s.enableObfuscation && |pipeline| == 0 then [PipelineStep("xor", s.name)] else pipeline
  }

  /** RuntimePlugin.process. */
  method Process(s: Schema, data: seq<byte>, pipeline: seq<PipelineStep>) returns (outcome: Outcome)
    ensures outcome == PipelineOutcome(data, EffectiveSteps(s, pipeline))
  {
    var out := data;
    var steps := pipeline;
    if s.enableObfuscation && |steps| == 0 {
      steps := [PipelineStep("xor", s.name)];
    }
    for i := 0 to |steps|
      invariant steps == EffectiveSteps(s, pipeline)
      invariant PipelineOutcome(data, steps) == PipelineOutcome(out, steps[i..])
    {
      assert steps[i..][0] == steps[i] && steps[i..][1..] == steps[i + 1..];
      var result := RunStep(out, steps[i]);
      if result.Err? { return result; }
      out := result.value;
    }
    outcome := Ok(out);
  }

  // --- Pipelines compose ---

  lemma {:induction false} PipelineAppend(data: seq<byte>, first: seq<PipelineStep>, second: seq<PipelineStep>)
    ensures PipelineOutcome(data, first + second)
         == match PipelineOutcome(data, first)
            case Ok(out) => PipelineOutcome(out, second)
            case Err(error) => Err(error)
    decreases |first|
  {
    if first == [] {
      assert first + second == second;
    } else {
      assert (first + second)[0] == first[0] && (first + second)[1..] == first[1..] + second;
      match StepOutcome(data, first[0])
      case Ok(out) => PipelineAppend(out, first[1..], second);
      case Err(_) =>
    }
  }

  // --- Inversion ---

  function InverseStep(step: PipelineStep): PipelineStep {
    match step.op
    case "base64_encode" => PipelineStep("base64_decode", step.key)
    case "base64_decode" => PipelineStep("base64_encode", step.key)
    case _ => step
  }

  function Inverse(steps: seq<PipelineStep>): seq<PipelineStep> {
    if steps == [] then [] else Inverse(steps[1..]) + [InverseStep(steps[0])]
  }

  /** Every base64_decode step of the run meets text in standard form. */
  predicate DecodesStandardText(data: seq<byte>, steps: seq<PipelineStep>)
    requires PipelineOutcome(data, steps).Ok?
    decreases |steps|
  {
    steps == []
    || ((steps[0].op == "base64_decode" ==> StandardText(data))
        && DecodesStandardText(StepOutcome(data, steps[0]).value, steps[1..]))
  }

  lemma XorTwice(data: seq<byte>, key: seq<byte>)
    requires key != []
    ensures XorWithKey(XorWithKey(data, key), key) == data
  {
    hide Xor;
    forall i | 0 <= i < |data| ensures XorWithKey(XorWithKey(data, key), key)[i] == data[i] {
      XorLaws(data[i], key[i % |key|], 0);
    }
  }

  lemma StepInversion(data: seq<byte>, step: PipelineStep)
    requires StepOutcome(data, step).Ok?
    requires step.op == "base64_decode" ==> StandardText(data)
    ensures StepOutcome(StepOutcome(data, step).value, InverseStep(step)) == Ok(data)
  {
    hide XorWithKey, Encode, Decode, StandardText;
    if step.op == "xor" {
      XorTwice(data, step.key);
    } else if step.op == "base64_encode" {
      DecodeEncode(data);
    } else if step.op == "base64_decode" {
      EncodeDecode(data);
    }
  }

  /** The reversed pipeline of inverse steps recovers the payload. */
  lemma {:induction false} PipelineInversion(data: seq<byte>, steps: seq<PipelineStep>)
    requires PipelineOutcome(data, steps).Ok?
    requires DecodesStandardText(data, steps)
    ensures PipelineOutcome(PipelineOutcome(data, steps).value, Inverse(steps)) == Ok(data)
    decreases |steps|
  {
    hide StepOutcome, StandardText;
    if steps != [] {
      var out, last := StepOutcome(data, steps[0]).value, InverseStep(steps[0]);
      StepInversion(data, steps[0]);
      PipelineInversion(out, steps[1..]);
      PipelineAppend(PipelineOutcome(data, steps).value, Inverse(steps[1..]), [last]);
      assert [last][1..] == [];
      assert PipelineOutcome(out, [last]) == Ok(data);
    }
  }

  predicate Supported(step: PipelineStep) {
    step.op in ["", "noop", "base64_encode", "base64_decode"] || (step.op == "xor" && step.key != [])
  }

  /** Pipelines that only encode always succeed, and are always undone. */
  lemma {:induction false} EncodingPipelinesInvert(data: seq<byte>, steps: seq<PipelineStep>)
    requires forall step <- steps :: Supported(step) && step.op != "base64_decode"
    ensures PipelineOutcome(data, steps).Ok?
    ensures DecodesStandardText(data, steps)
    ensures PipelineOutcome(PipelineOutcome(data, steps).value, Inverse(steps)) == Ok(data)
    decreases |steps|
  {
    hide XorWithKey, Encode, Decode, StandardText;
    if steps != [] {
      EncodingPipelinesInvert(StepOutcome(data, steps[0]).value, steps[1..]);
    }
    PipelineInversion(data, steps);
  }

  // --- Key streams: pipelines of xor and noop steps ---

  predicate Keyed(steps: seq<PipelineStep>) {
    forall step <- steps :: step.op in ["", "noop"] || (step.op == "xor" && step.key != [])
  }

  function StepKeyByte(step: PipelineStep, i: nat): byte {
    if step.op == "xor" && step.key != [] then step.key[i % |step.key|] else 0
  }

  /** What the pipeline as a whole adds to the byte at index i. */
  function KeyStream(steps: seq<PipelineStep>, i: nat): byte {
    if steps == [] then 0 else Xor(StepKeyByte(steps[0], i), KeyStream(steps[1..], i))
  }

  function KeyStreamBytes(steps: seq<PipelineStep>, n: nat): (r: seq<byte>)
    ensures |r| == n
  {
    seq(n, i requires 0 <= i < n => KeyStream(steps, i))
  }

  function XorBytes(data: seq<byte>, stream: seq<byte>): (r: seq<byte>)
    requires |data| == |stream|
    ensures |r| == |data|
  {
    seq(|data|, i requires 0 <= i < |data| => Xor(data[i], stream[i]))
  }

  lemma XorBytesDetermines(data: seq<byte>, a: seq<byte>, b: seq<byte>)
    requires |data| == |a| == |b|
    ensures XorBytes(data, a) == XorBytes(data, b) <==> a == b
  {
    hide Xor;
    forall i | 0 <= i < |data| ensures XorBytes(data, a)[i] == XorBytes(data, b)[i] <==> a[i] == b[i] {
      XorDetermines(data[i], a[i], b[i]);
    }
  }

  function WithKeyStream(data: seq<byte>, steps: seq<PipelineStep>): seq<byte> {
    XorBytes(data, KeyStreamBytes(steps, |data|))
  }

  /** A keyed pipeline adds its key stream, byte by byte. */
  lemma {:induction false} KeyedOutcome(data: seq<byte>, steps: seq<PipelineStep>)
    requires Keyed(steps)
    ensures PipelineOutcome(data, steps) == Ok(WithKeyStream(data, steps))
    decreases |steps|
  {
    hide Xor, Encode, Decode;
    if steps == [] {
      forall i | 0 <= i < |data| ensures Xor(data[i], 0) == data[i] { XorZero(data[i]); }
      assert WithKeyStream(data, []) == data;
    } else {
      var out := StepOutcome(data, steps[0]).value;
      KeyedOutcome(out, steps[1..]);
      forall i | 0 <= i < |data|
        ensures Xor(out[i], KeyStream(steps[1..], i)) == Xor(data[i], KeyStream(steps, i))
      {
        if steps[0].op != "xor" { XorZero(data[i]); }
        assert out[i] == Xor(data[i], StepKeyByte(steps[0], i));
        XorLaws(data[i], StepKeyByte(steps[0], i), KeyStream(steps[1..], i));
      }
      assert WithKeyStream(out, steps[1..]) == WithKeyStream(data, steps);
    }
  }

  /** Two keyed pipelines treat a payload alike exactly when their key streams agree along it. */
  lemma KeyStreamDetermines(data: seq<byte>, a: seq<PipelineStep>, b: seq<PipelineStep>)
    requires Keyed(a) && Keyed(b)
    ensures PipelineOutcome(data, a) == PipelineOutcome(data, b)
       <==> KeyStreamBytes(a, |data|) == KeyStreamBytes(b, |data|)
  {
    hide PipelineOutcome, Keyed, KeyStreamBytes, XorBytes;
    KeyedOutcome(data, a);
    KeyedOutcome(data, b);
    XorBytesDetermines(data, KeyStreamBytes(a, |data|), KeyStreamBytes(b, |data|));
  }

  lemma {:induction false} KeyStreamWithout(steps: seq<PipelineStep>, j: nat, i: nat)
    requires j < |steps|
    ensures KeyStream(steps, i) == Xor(StepKeyByte(steps[j], i), KeyStream(steps[..j] + steps[j + 1..], i))
  {
    hide Xor, StepKeyByte;
    var without := steps[..j] + steps[j + 1..];
    if j == 0 {
      assert without == steps[1..];
    } else {
      KeyStreamWithout(steps[1..], j - 1, i);
      var rest := steps[1..][..j - 1] + steps[1..][j..];
      assert without[0] == steps[0] && without[1..] == rest;
      var x, y, z := StepKeyByte(steps[0], i), StepKeyByte(steps[j], i), KeyStream(rest, i);
      XorLaws(x, y, z);
      XorLaws(y, x, z);
    }
  }

  lemma WithoutOne<T>(s: seq<T>, j: nat)
    requires j < |s|
    ensures multiset(s[..j] + s[j + 1..]) == multiset(s) - multiset{s[j]}
  {
    assert s == s[..j] + [s[j]] + s[j + 1..];
  }

  lemma Somewhere<T>(x: T, b: seq<T>) returns (j: nat)
    requires x in multiset(b)
    ensures j < |b| && b[j] == x
  {
    j :| 0 <= j < |b| && b[j] == x;
  }

  lemma WithoutFirst<T>(a: seq<T>)
    requires a != []
    ensures a[0] in multiset(a) && multiset(a[1..]) == multiset(a) - multiset{a[0]}
  {
    assert a[..0] + a[1..] == a[1..];
    WithoutOne(a, 0);
  }

  /** The first step of one order is somewhere in the other, and the rest are the same again. */
  lemma FirstOfPermutation<T>(a: seq<T>, b: seq<T>) returns (j: nat)
    requires a != [] && multiset(a) == multiset(b)
    ensures j < |b| && b[j] == a[0]
    ensures multiset(a[1..]) == multiset(b[..j] + b[j + 1..])
  {
    WithoutFirst(a);
    j := Somewhere(a[0], b);
    WithoutOne(b, j);
  }

  lemma {:induction false} KeyStreamOfPermutation(a: seq<PipelineStep>, b: seq<PipelineStep>, i: nat)
    requires multiset(a) == multiset(b)
    ensures KeyStream(a, i) == KeyStream(b, i)
    decreases |a|
  {
    hide Xor, StepKeyByte;
    if a == [] {
      assert |b| == |multiset(b)| == 0;
    } else {
      var j := FirstOfPermutation(a, b);
      KeyStreamOfPermutation(a[1..], b[..j] + b[j + 1..], i);
      KeyStreamWithout(b, j, i);
    }
  }

  /** Xor and noop steps commute in any order. */
  lemma KeyedStepsCommute(data: seq<byte>, a: seq<PipelineStep>, b: seq<PipelineStep>)
    requires Keyed(a) && multiset(a) == multiset(b)
    ensures Keyed(b)
    ensures PipelineOutcome(data, a) == PipelineOutcome(data, b)
  {
    forall step | step in b ensures step in a { assert step in multiset(b); }
    forall i | 0 <= i < |data| ensures KeyStream(a, i) == KeyStream(b, i) {
      KeyStreamOfPermutation(a, b, i);
    }
    assert KeyStreamBytes(a, |data|) == KeyStreamBytes(b, |data|);
    KeyStreamDetermines(data, a, b);
  }

  // --- What validation buys ---

  lemma EmptyPayload(step: PipelineStep)
    ensures Supported(step) <==> StepOutcome([], step) == Ok([])
    ensures Supported(step) <==> StepOutcome([], step).Ok?
    ensures ValidateStep(step) == None <==> Supported(step) && step.op != ""
  {
    if step.op == "xor" && step.key != [] {
      assert XorWithKey([], step.key) == [];
    }
  }

  lemma {:induction false} NoFaultMeans(steps: seq<PipelineStep>, from: nat)
    requires from <= |steps|
    ensures PipelineFault(steps, from) == None <==> forall step <- steps[from..] :: Supported(step) && step.op != ""
    decreases |steps| - from
  {
    hide Supported, ValidateStep;
    if from < |steps| {
      NoFaultMeans(steps, from + 1);
      EmptyPayload(steps[from]);
      assert steps[from..] == [steps[from]] + steps[from + 1..];
    }
  }

  /** A pipeline fails on the empty payload exactly when some step is unusable on every payload. */
  lemma {:induction false} EmptyPayloadDecides(steps: seq<PipelineStep>)
    ensures PipelineOutcome([], steps).Ok? <==> forall step <- steps :: Supported(step)
  {
    hide Supported, StepOutcome;
    if steps != [] {
      EmptyPayload(steps[0]);
      EmptyPayloadDecides(steps[1..]);
      assert steps == [steps[0]] + steps[1..];
    }
  }

  /**
    Validation accepts exactly the pipelines that name every op and get the empty payload through:
    the op left empty runs as a noop, but is not accepted.
    */
  lemma ValidationIsExact(steps: seq<PipelineStep>)
    ensures PipelineFault(steps, 0) == None
       <==> PipelineOutcome([], steps).Ok? && forall step <- steps :: step.op != ""
  {
    NoFaultMeans(steps, 0);
    EmptyPayloadDecides(steps);
    assert steps[0..] == steps;
  }

  lemma SupportedStepFails(data: seq<byte>, step: PipelineStep)
    requires Supported(step)
    ensures StepOutcome(data, step).Err? <==> step.op == "base64_decode" && Decode(data) == None
    ensures StepOutcome(data, step).Err? ==> StepOutcome(data, step).error == CorruptBase64
  {
  }

  /** The steps before k succeed, and step k is a base64_decode of what is not base64. */
  predicate StopsAt(data: seq<byte>, steps: seq<PipelineStep>, k: nat)
    requires k < |steps|
  {
    PipelineOutcome(data, steps[..k]).Ok?
    && steps[k].op == "base64_decode"
    && Decode(PipelineOutcome(data, steps[..k]).value) == None
  }

  /** A supported pipeline fails exactly where a base64_decode step meets text that is not base64. */
  lemma {:induction false} OnlyDecodingFails(data: seq<byte>, steps: seq<PipelineStep>)
    requires forall step <- steps :: Supported(step)
    ensures PipelineOutcome(data, steps).Err? <==>
      exists k :: 0 <= k < |steps| && StopsAt(data, steps, k)
    ensures PipelineOutcome(data, steps).Err? ==> PipelineOutcome(data, steps).error == CorruptBase64
    decreases |steps|
  {
    hide StepOutcome, Supported, Decode;
    if steps != [] {
      var outcome := StepOutcome(data, steps[0]);
      SupportedStepFails(data, steps[0]);
      if outcome.Err? {
        assert steps[..0] == [];
        assert StopsAt(data, steps, 0);
      } else {
        OnlyDecodingFails(outcome.value, steps[1..]);
        forall k | 0 <= k < |steps| - 1
          ensures StopsAt(outcome.value, steps[1..], k) == StopsAt(data, steps, k + 1)
        {
          assert steps[..k + 1][0] == steps[0] && steps[..k + 1][1..] == steps[1..][..k];
        }
        forall k | 0 <= k < |steps| && StopsAt(data, steps, k)
          ensures StopsAt(outcome.value, steps[1..], k - 1)
        {
          assert k > 0 by { assert steps[..0] == []; }
        }
      }
    }
  }

  /** In a plugin with a valid schema, processing can fail only at a base64_decode step. */
  lemma ValidPluginsFailOnlyDecoding(s: Schema, data: seq<byte>, client: bool)
    requires Valid(s)
    ensures var steps := EffectiveSteps(s, if client then s.clientPipeline else s.serverPipeline);
            match PipelineOutcome(data, steps)
            case Ok(_) => true
            case Err(error) => error == CorruptBase64 && exists k :: 0 <= k < |steps| && StopsAt(data, steps, k)
  {
    var pipeline := if client then s.clientPipeline else s.serverPipeline;
    NoFaultMeans(s.clientPipeline, 0);
    NoFaultMeans(s.serverPipeline, 0);
    assert s.clientPipeline[0..] == s.clientPipeline && s.serverPipeline[0..] == s.serverPipeline;
    OnlyDecodingFails(data, EffectiveSteps(s, pipeline));
  }

  /**
    A valid plugin in passthrough mode leaves every payload alone exactly when it does not obfuscate
    (and then says so), or obfuscates with a name of zero bytes only.
    */
  lemma PassthroughIsIdentity(s: Schema)
    requires Valid(s) && s.mode == "passthrough"
    ensures Passthrough(s) <==> !s.enableObfuscation
    ensures (forall data :: PipelineOutcome(data, EffectiveSteps(s, s.clientPipeline)) == Ok(data))
       <==> Passthrough(s) || forall i :: 0 <= i < |s.name| ==> s.name[i] == 0
  {
    hide XorWithKey;
    var steps := EffectiveSteps(s, s.clientPipeline);
    if s.enableObfuscation {
      var step := PipelineStep("xor", s.name);
      assert steps == [step];
      IdentityKeys(s.name);
      forall data: seq<byte>
        ensures PipelineOutcome(data, steps) == Ok(data) <==> XorWithKey(data, s.name) == data
      {
        assert StepOutcome(data, step) == Ok(XorWithKey(data, s.name));
        assert [step][1..] == [];
      }
    }
  }

  lemma ZeroKey(key: seq<byte>, data: seq<byte>)
    requires key != [] && forall i :: 0 <= i < |key| ==> key[i] == 0
    ensures XorWithKey(data, key) == data
  {
    hide Xor;
    forall i | 0 <= i < |data| ensures Xor(data[i], key[i % |key|]) == data[i] { XorZero(data[i]); }
  }

  lemma NonZeroKey(key: seq<byte>, i: nat)
    requires i < |key| && key[i] != 0
    ensures var data: seq<byte> := seq(|key|, _ => 0); XorWithKey(data, key) != data
  {
    hide Xor;
    var data: seq<byte> := seq(|key|, _ => 0);
    XorDetermines(0, key[i], 0);
    XorZero(0);
    assert i % |key| == i;
    assert XorWithKey(data, key)[i] == Xor(0, key[i]);
  }

  lemma IdentityKeys(key: seq<byte>)
    requires key != []
    ensures (forall data :: XorWithKey(data, key) == data) <==> forall i :: 0 <= i < |key| ==> key[i] == 0
  {
    hide XorWithKey;
    if forall i :: 0 <= i < |key| ==> key[i] == 0 {
      forall data ensures XorWithKey(data, key) == data { ZeroKey(key, data); }
    } else {
      var i :| 0 <= i < |key| && key[i] != 0;
      NonZeroKey(key, i);
    }
  }

  /**
    Obfuscation stands in for an empty pipeline only: it adds the bytes of the plugin's name, over and
    over; a pipeline that has steps runs as it is.
    */
  lemma ObfuscationMeans(s: Schema, data: seq<byte>, pipeline: seq<PipelineStep>)
    ensures |pipeline| > 0 || !s.enableObfuscation ==>
      PipelineOutcome(data, EffectiveSteps(s, pipeline)) == PipelineOutcome(data, pipeline)
    ensures |pipeline| == 0 && s.enableObfuscation && s.name == [] ==>
      PipelineOutcome(data, EffectiveSteps(s, pipeline)) == Err(EmptyKey)
    ensures |pipeline| == 0 && s.enableObfuscation && s.name != [] ==>
      PipelineOutcome(data, EffectiveSteps(s, pipeline))
      == Ok(seq(|data|, i requires 0 <= i < |data| => Xor(data[i], s.name[i % |s.name|])))
  {
    var step := PipelineStep("xor", s.name);
    assert [step][1..] == [];
    if s.name != [] {
      assert StepOutcome(data, step) == Ok(XorWithKey(data, s.name));
      assert XorWithKey(data, s.name) == seq(|data|, i requires 0 <= i < |data| => Xor(data[i], s.name[i % |s.name|]));
    }
  }

  /** Only a plugin in passthrough mode, without obfuscation and without steps, is a passthrough plugin. */
  lemma PassthroughPlugins(s: Schema)
    ensures Passthrough(s) <==>
      s.mode == "passthrough" && s.enableObfuscation == false && s.clientPipeline == [] && s.serverPipeline == []
  {
  }

  /** Whatever the schema, Passthrough() means both directions are the identity. */
  lemma PassthroughMeansIdentity(s: Schema, data: seq<byte>)
    requires Passthrough(s)
    ensures PipelineOutcome(data, EffectiveSteps(s, s.clientPipeline)) == Ok(data)
    ensures PipelineOutcome(data, EffectiveSteps(s, s.serverPipeline)) == Ok(data)
  {
  }
}
