/** The fixture-replay test double of `ai_kit.testing`: canned outputs looked up by a
    request-derived key, a record of every call received, and streams synthesised from
    non-streamed outputs. */
module Fixture {
  import opened Base
  import opened Text
  import opened Errors

  datatype ToolCall = ToolCall(id: string, name: string, arguments: string)

  datatype Usage = Usage(inputTokens: Option<int>, outputTokens: Option<int>)

  datatype GenerateOutput = GenerateOutput(
    text: Option<string>,
    toolCalls: Option<seq<ToolCall>>,
    usage: Option<Usage>,
    finishReason: Option<string>
  )

  datatype StreamChunk =
    | Delta(textDelta: string)
    | ToolCallChunk(call: ToolCall)
    | MessageEnd(usage: Option<Usage>, finishReason: Option<string>)

  /** The chunk size a new adapter uses when it synthesises a stream. */
  const DefaultChunkSize: int := 24

  // ---------------------------------------------------------------------------
  // Text chunking

  /** `_chunk_text`: left-to-right slices of `size` characters, the last one possibly
      shorter; no slices for empty text; the whole text as one slice when `size <= 0`.
      Whatever the size, the slices put back together are the text, and none is empty. */
  function ChunkText(text: string, size: int): (pieces: seq<string>)
    ensures Concat(pieces) == text
    ensures forall i :: 0 <= i < |pieces| ==> |pieces[i]| > 0
    ensures |text| == 0 <==> |pieces| == 0
    ensures size <= 0 ==> |pieces| <= 1
    decreases |text|
  {
    if |text| == 0 then []
    else if size <= 0 || |text| <= size then
      assert Concat([text]) == text + Concat([]);
      [text]
    else
      var rest := ChunkText(text[size..], size);
      assert ([text[..size]] + rest)[1..] == rest;
      assert text == text[..size] + text[size..];
      [text[..size]] + rest
  }

  /** With a positive size every slice but the last has exactly `size` characters and
      the last has between one and `size`. */
  lemma {:induction false} ChunkTextSizes(text: string, size: int)
    requires size > 0
    ensures forall i :: 0 <= i < |ChunkText(text, size)| - 1 ==> |ChunkText(text, size)[i]| == size
    ensures forall i :: 0 <= i < |ChunkText(text, size)| ==> |ChunkText(text, size)[i]| <= size
    decreases |text|
  {
    if |text| > size {
      var rest := ChunkText(text[size..], size);
      ChunkTextSizes(text[size..], size);
      assert ChunkText(text, size) == [text[..size]] + rest;
    }
  }

  /** With a positive size there are `ceil(|text| / size)` slices. */
  lemma ChunkTextCount(text: string, size: int)
    requires size > 0
    ensures |ChunkText(text, size)| == (|text| + size - 1) / size
  {
    var n := |ChunkText(text, size)|;
    ChunkTextBracket(text, size);
    if n == 0 {
      DivUnique(|text| + size - 1, size, 0);
    } else {
      assert n * size == (n - 1) * size + size;
      DivUnique(|text| + size - 1, size, n);
    }
  }

  /** The slice count `n` of a non-empty text brackets its length:
      `(n - 1) * size < |text| <= n * size`. */
  lemma {:induction false} ChunkTextBracket(text: string, size: int)
    requires size > 0
    ensures var n := |ChunkText(text, size)|;
      |text| > 0 ==> (n - 1) * size < |text| <= n * size
    decreases |text|
  {
    if |text| > size {
      var tail := text[size..];
      ChunkTextBracket(tail, size);
      var m := |ChunkText(tail, size)|;
      assert |ChunkText(text, size)| == m + 1;
      MulSucc(m - 1, size);
      MulSucc(m, size);
    }
  }

  /** The slice the source's comprehension
      `text[index : index + size] for index in range(0, len(text), size)` cuts at `index = k * size`. */
  function Window(text: string, size: int, k: int): string
    requires size > 0 && 0 <= k && k * size < |text|
  {
    text[k * size .. Min(k * size + size, |text|)]
  }

  /** Slice `k` of `ChunkText(text, size)` is the comprehension's `k`-th window, so the
      recursive slicing and the source's comprehension agree. */
  lemma {:induction false} ChunkTextWindows(text: string, size: int)
    requires size > 0
    ensures forall k :: 0 <= k < |ChunkText(text, size)| ==>
      k * size < |text| && ChunkText(text, size)[k] == Window(text, size, k)
    decreases |text|
  {
    var pieces := ChunkText(text, size);
    if |text| > size {
      var tail := text[size..];
      var rest := ChunkText(tail, size);
      assert pieces == [text[..size]] + rest;
      ChunkTextWindows(tail, size);
      forall k | 0 <= k < |pieces|
        ensures k * size < |text| && pieces[k] == Window(text, size, k)
      {
        if k > 0 {
          assert pieces[k] == rest[k - 1] == Window(tail, size, k - 1);
          WindowShift(text, size, k - 1);
        }
      }
    }
  }

  lemma WindowShift(text: string, size: int, j: int)
    requires size > 0 && |text| > size && 0 <= j && j * size < |text| - size
    ensures (j + 1) * size < |text|
    ensures Window(text[size..], size, j) == Window(text, size, j + 1)
  {
    var tail := text[size..];
    var lo, hi := j * size, Min(j * size + size, |tail|);
    var lo' := (j + 1) * size;
    assert lo' == lo + size;
    assert Min(lo' + size, |text|) == hi + size;
    assert tail[lo..hi] == text[lo + size..hi + size];
  }

  // ---------------------------------------------------------------------------
  // Stream synthesis

  /** The output text, with Python's "falsy text means no text". */
  function TextOf(output: GenerateOutput): string {
    if output.text.Some? then output.text.value else ""
  }

  function CallsOf(output: GenerateOutput): seq<ToolCall> {
    if output.toolCalls.Some? then output.toolCalls.value else []
  }

  /** One `delta` chunk per text piece, in order. */
  function Deltas(pieces: seq<string>): seq<StreamChunk> {
    seq(|pieces|, i requires 0 <= i < |pieces| => Delta(pieces[i]))
  }

  /** One `tool_call` chunk per tool call, in order. */
  function ToolCallChunks(calls: seq<ToolCall>): seq<StreamChunk> {
    seq(|calls|, i requires 0 <= i < |calls| => ToolCallChunk(calls[i]))
  }

  /** `build_stream_chunks`: the text deltas first, then one chunk per tool call in the
      original order, then exactly one `message_end` carrying usage and finish reason,
      which is the only `message_end` and always last, even for an empty output. */
  function BuildStreamChunks(output: GenerateOutput, chunkSize: int): (chunks: seq<StreamChunk>)
    ensures |chunks| == |ChunkText(TextOf(output), chunkSize)| + |CallsOf(output)| + 1
    ensures forall i :: 0 <= i < |ChunkText(TextOf(output), chunkSize)| ==>
      chunks[i] == Delta(ChunkText(TextOf(output), chunkSize)[i])
    ensures forall j :: 0 <= j < |CallsOf(output)| ==>
      chunks[|ChunkText(TextOf(output), chunkSize)| + j] == ToolCallChunk(CallsOf(output)[j])
    ensures chunks[|chunks| - 1] == MessageEnd(output.usage, output.finishReason)
    ensures forall i :: 0 <= i < |chunks| - 1 ==> !chunks[i].MessageEnd?
  {
    var pieces := if output.text.Some? && output.text.value != "" then ChunkText(output.text.value, chunkSize) else [];
    var calls := if output.toolCalls.Some? && output.toolCalls.value != [] then output.toolCalls.value else [];
    assert pieces == ChunkText(TextOf(output), chunkSize);
    assert calls == CallsOf(output);
    var chunks := Deltas(pieces) + ToolCallChunks(calls) + [MessageEnd(output.usage, output.finishReason)];
    ChunksInOrder(pieces, calls, chunks[|chunks| - 1], chunks);
    chunks
  }

  /** The delta chunks come first, one per piece, then the tool-call chunks, one per call. */
  lemma ChunksInOrder(pieces: seq<string>, calls: seq<ToolCall>, end: StreamChunk, chunks: seq<StreamChunk>)
    requires chunks == Deltas(pieces) + ToolCallChunks(calls) + [end]
    ensures |chunks| == |pieces| + |calls| + 1
    ensures forall i :: 0 <= i < |pieces| ==> chunks[i] == Delta(pieces[i])
    ensures forall j :: 0 <= j < |calls| ==> chunks[|pieces| + j] == ToolCallChunk(calls[j])
  {
    var deltas, callChunks := Deltas(pieces), ToolCallChunks(calls);
    assert forall i :: 0 <= i < |pieces| ==> chunks[i] == deltas[i];
    assert forall j :: 0 <= j < |calls| ==> chunks[|pieces| + j] == callChunks[j];
  }

  /** What a consumer reassembles from a stream: the concatenated text deltas. */
  function StreamedText(chunks: seq<StreamChunk>): string {
    if |chunks| == 0 then ""
    else (if chunks[0].Delta? then chunks[0].textDelta else "") + StreamedText(chunks[1..])
  }

  /** What a consumer collects from a stream: the tool calls, in stream order. */
  function StreamedCalls(chunks: seq<StreamChunk>): seq<ToolCall> {
    if |chunks| == 0 then []
    else (if chunks[0].ToolCallChunk? then [chunks[0].call] else []) + StreamedCalls(chunks[1..])
  }

  lemma {:induction false} StreamedAppend(a: seq<StreamChunk>, b: seq<StreamChunk>)
    ensures StreamedText(a + b) == StreamedText(a) + StreamedText(b)
    ensures StreamedCalls(a + b) == StreamedCalls(a) + StreamedCalls(b)
  {
    if |a| > 0 {
      assert (a + b)[1..] == a[1..] + b;
      StreamedAppend(a[1..], b);
    } else {
      assert a + b == b;
    }
  }

  lemma {:induction false} StreamedDeltas(pieces: seq<string>)
    ensures StreamedText(Deltas(pieces)) == Concat(pieces)
    ensures StreamedCalls(Deltas(pieces)) == []
  {
    if |pieces| > 0 {
      assert Deltas(pieces)[1..] == Deltas(pieces[1..]);
      StreamedDeltas(pieces[1..]);
    }
  }

  lemma {:induction false} StreamedToolCalls(calls: seq<ToolCall>)
    ensures StreamedText(ToolCallChunks(calls)) == ""
    ensures StreamedCalls(ToolCallChunks(calls)) == calls
  {
    if |calls| > 0 {
      assert ToolCallChunks(calls)[1..] == ToolCallChunks(calls[1..]);
      StreamedToolCalls(calls[1..]);
    }
  }

  /** Round trip of stream synthesis: a consumer of the synthesised stream gets back
      exactly the output's text and exactly its tool calls, for every chunk size. */
  lemma StreamRoundTrip(output: GenerateOutput, chunkSize: int)
    ensures StreamedText(BuildStreamChunks(output, chunkSize)) == TextOf(output)
    ensures StreamedCalls(BuildStreamChunks(output, chunkSize)) == CallsOf(output)
  {
    var pieces := ChunkText(TextOf(output), chunkSize);
    var calls := CallsOf(output);
    var end := [MessageEnd(output.usage, output.finishReason)];
    StreamShape(output, chunkSize, pieces, calls);
    StreamedAppend(Deltas(pieces) + ToolCallChunks(calls), end);
    StreamedAppend(Deltas(pieces), ToolCallChunks(calls));
    StreamedDeltas(pieces);
    StreamedToolCalls(calls);
    assert StreamedText(end) == "" && StreamedCalls(end) == [] by {
      assert end[1..] == [];
    }
  }

  /** The synthesised stream is the delta chunks, the tool-call chunks and the end chunk. */
  lemma StreamShape(output: GenerateOutput, chunkSize: int, pieces: seq<string>, calls: seq<ToolCall>)
    requires pieces == ChunkText(TextOf(output), chunkSize) && calls == CallsOf(output)
    ensures BuildStreamChunks(output, chunkSize) ==
      Deltas(pieces) + ToolCallChunks(calls) + [MessageEnd(output.usage, output.finishReason)]
  {
  }

  // ---------------------------------------------------------------------------
  // Fixture keys

  /** A request as far as fixture lookup sees it: provider, model and the JSON form of
      the whole input. */
  datatype Request = Request(provider: string, model: string, payload: string)

  datatype KeyInput = KeyInput(kind: string, input: Request)

  /** Number of hex digits of the digest a key keeps. */
  const DigestLength: nat := 12

  function KeyPrefix(k: KeyInput): string {
    k.kind + ":" + k.input.provider + ":" + k.input.model + ":"
  }

  /** `fixture_key`: `type:provider:model:digest`, the digest being the first twelve hex
      digits of `hexDigest(k)`, the SHA-256 of the canonical JSON of the key input. */
  function FixtureKey(k: KeyInput, hexDigest: KeyInput -> string): (key: string)
    ensures StartsWith(key, KeyPrefix(k))
    ensures var digest := key[|KeyPrefix(k)|..];
      |digest| == Min(DigestLength, |hexDigest(k)|) && StartsWith(hexDigest(k), digest)
  {
    var h := hexDigest(k);
    var prefix := KeyPrefix(k);
    var key := prefix + h[..Min(DigestLength, |h|)];
    assert key[..|prefix|] == prefix;
    key
  }

  /** Keys of different operation kinds never collide, whatever the request and digest,
      as long as the kinds carry no `:` (the four kinds the adapter uses do not). */
  lemma FixtureKeySeparatesKinds(k1: KeyInput, k2: KeyInput, hexDigest: KeyInput -> string)
    requires k1.kind != k2.kind
    requires forall i :: 0 <= i < |k1.kind| ==> k1.kind[i] != ':'
    requires forall i :: 0 <= i < |k2.kind| ==> k2.kind[i] != ':'
    ensures FixtureKey(k1, hexDigest) != FixtureKey(k2, hexDigest)
  {
    var key1 := FixtureKey(k1, hexDigest);
    var key2 := FixtureKey(k2, hexDigest);
    var rest1 := key1[|k1.kind| + 1..];
    var rest2 := key2[|k2.kind| + 1..];
    assert key1 == k1.kind + ":" + rest1;
    assert key2 == k2.kind + ":" + rest2;
    if key1 == key2 {
      KindBeforeFirstColon(k1.kind, rest1, k2.kind, rest2);
    }
  }

  /** A colon-free head followed by `:` is recovered from the string. */
  lemma KindBeforeFirstColon(a: string, ra: string, b: string, rb: string)
    requires forall i :: 0 <= i < |a| ==> a[i] != ':'
    requires forall i :: 0 <= i < |b| ==> b[i] != ':'
    requires a + ":" + ra == b + ":" + rb
    ensures a == b
  {
    var s := a + ":" + ra;
    ColonAfter(a, ra);
    ColonAfter(b, rb);
    if |a| < |b| {
      assert false;
    } else if |b| < |a| {
      assert false;
    } else {
      assert a == s[..|a|];
      assert b == (b + ":" + rb)[..|b|];
    }
  }

  lemma ColonAfter(a: string, ra: string)
    ensures (a + ":" + ra)[|a|] == ':'
    ensures forall i :: 0 <= i < |a| ==> (a + ":" + ra)[i] == a[i]
  {
  }

  // ---------------------------------------------------------------------------
  // The adapter

  datatype ImageOutput = ImageOutput(payload: string)

  datatype MeshOutput = MeshOutput(payload: string)

  datatype ModelMetadata = ModelMetadata(id: string)

  /** One registered fixture: a slot per operation, any of them unset. */
  datatype FixtureEntry = FixtureEntry(
    generate: Option<GenerateOutput>,
    stream: Option<seq<StreamChunk>>,
    image: Option<ImageOutput>,
    mesh: Option<MeshOutput>
  )

  datatype Operation = GenerateOp | StreamOp | ImageOp | MeshOp

  /** The `type` the key of each operation is derived with. */
  function KindOf(op: Operation): string {
    match op
    case GenerateOp => "generate"
    case StreamOp => "stream"
    case ImageOp => "image"
    case MeshOp => "mesh"
  }

  /** The inputs each public operation has received, in call order. */
  datatype Calls = Calls(
    generate: seq<Request>,
    streamGenerate: seq<Request>,
    generateImage: seq<Request>,
    generateMesh: seq<Request>
  )

  function Record(calls: Calls, op: Operation, input: Request): Calls {
    match op
    case GenerateOp => calls.(generate := calls.generate + [input])
    case StreamOp => calls.(streamGenerate := calls.streamGenerate + [input])
    case ImageOp => calls.(generateImage := calls.generateImage + [input])
    case MeshOp => calls.(generateMesh := calls.generateMesh + [input])
  }

  datatype Adapter = Adapter(
    provider: string,
    fixtures: map<string, FixtureEntry>,
    models: seq<ModelMetadata>,
    keyFn: KeyInput -> string,
    defaultChunkSize: int,
    calls: Calls
  )

  /** The adapter after one operation, and what the operation returned or raised. */
  datatype Step<T> = Step(adapter: Adapter, result: Result<T, KitError>)

  /** `FixtureAdapter.__init__`: no calls recorded yet, no models when none are given,
      and `fixture_key` over `hexDigest` when no key function is given. */
  function NewAdapter(
    provider: string,
    fixtures: map<string, FixtureEntry>,
    models: Option<seq<ModelMetadata>>,
    keyFn: Option<KeyInput -> string>,
    hexDigest: KeyInput -> string,
    defaultChunkSize: Option<int>
  ): (a: Adapter)
    ensures a.provider == provider && a.fixtures == fixtures
    ensures defaultChunkSize.Some? ==> a.defaultChunkSize == defaultChunkSize.value
    ensures defaultChunkSize.None? ==> a.defaultChunkSize == 24
    ensures a.calls == Calls([], [], [], [])
    ensures a.models == (if models.Some? then models.value else [])
    ensures keyFn.Some? ==> a.keyFn == keyFn.value
    ensures keyFn.None? ==> forall k :: a.keyFn(k) == FixtureKey(k, hexDigest)
  {
    Adapter(
      provider,
      fixtures,
      if models.Some? && models.value != [] then models.value else [],
      if keyFn.Some? then keyFn.value else k => FixtureKey(k, hexDigest),
      defaultChunkSize.GetOr(DefaultChunkSize),
      Calls([], [], [], []))
  }

  function KeyFor(a: Adapter, op: Operation, input: Request): string {
    a.keyFn(KeyInput(KindOf(op), input))
  }

  /** A VALIDATION error from this adapter that names the key it was looking for. */
  predicate IsFixtureError(e: KitError, a: Adapter, key: string) {
    e.kind == Validation && e.provider == Some(a.provider) && Contains(e.message, key)
  }

  /** `_require_fixture`: the registered entry, or a VALIDATION error naming the key. */
  function RequireFixture(a: Adapter, op: Operation, input: Request): (r: Result<FixtureEntry, KitError>)
    ensures r.Ok? <==> KeyFor(a, op, input) in a.fixtures
    ensures r.Ok? ==> r.value == a.fixtures[KeyFor(a, op, input)]
    ensures r.Err? ==> IsFixtureError(r.error, a, KeyFor(a, op, input))
  {
    var key := KeyFor(a, op, input);
    if key in a.fixtures then Ok(a.fixtures[key])
    else
      ContainsInfix("Fixture not found (key: ", key, ").");
      Err(ValidationError("Fixture not found (key: " + key + ").", a.provider))
  }

  /** `_missing_fixture_error`: a VALIDATION error naming the operation kind and the key. */
  function MissingFixtureError(a: Adapter, op: Operation, input: Request): (e: KitError)
    ensures IsFixtureError(e, a, KeyFor(a, op, input))
    ensures Contains(e.message, "Fixture for " + KindOf(op) + " is missing")
  {
    var key := KeyFor(a, op, input);
    var head := "Fixture for " + KindOf(op) + " is missing";
    var message := head + " (key: " + key + ").";
    ContainsInfix(head + " (key: ", key, ").");
    ContainsInfix("", head, " (key: " + key + ").");
    assert "" + head + (" (key: " + key + ").") == message;
    ValidationError(message, a.provider)
  }

  /** The lookup shared by `generate`, `generate_image` and `generate_mesh`: record the
      call, find the entry, then read the operation's slot. */
  function Serve<T>(a: Adapter, op: Operation, input: Request, slot: FixtureEntry -> Option<T>): (r: Step<T>)
    ensures r.adapter == a.(calls := Record(a.calls, op, input))
    ensures var key := KeyFor(a, op, input);
      && (r.result.Ok? <==> key in a.fixtures && slot(a.fixtures[key]).Some?)
      && (r.result.Ok? ==> r.result.value == slot(a.fixtures[key]).value)
      && (r.result.Err? ==> IsFixtureError(r.result.error, a, key))
      && (r.result.Err? && key in a.fixtures ==> Contains(r.result.error.message, "Fixture for " + KindOf(op) + " is missing"))
  {
    var recorded := a.(calls := Record(a.calls, op, input));
    match RequireFixture(a, op, input)
    case Err(e) => Step(recorded, Err(e))
    case Ok(entry) =>
      match slot(entry)
      case None => Step(recorded, Err(MissingFixtureError(a, op, input)))
      case Some(v) => Step(recorded, Ok(v))
  }

  /** `FixtureAdapter.generate`: the call is recorded whatever happens next; the canned
      output comes back exactly when an entry for the `generate` key has that slot set;
      otherwise a VALIDATION error names the key. */
  function Generate(a: Adapter, input: Request): (r: Step<GenerateOutput>)
    ensures r.adapter == a.(calls := a.calls.(generate := a.calls.generate + [input]))
    ensures var key := a.keyFn(KeyInput("generate", input));
      && (r.result.Ok? <==> key in a.fixtures && a.fixtures[key].generate.Some?)
      && (r.result.Ok? ==> r.result.value == a.fixtures[key].generate.value)
      && (r.result.Err? ==> IsFixtureError(r.result.error, a, key))
      && (r.result.Err? && key in a.fixtures ==> Contains(r.result.error.message, "Fixture for generate is missing"))
  {
    assert KindOf(GenerateOp) == "generate";
    assert "Fixture for " + "generate" + " is missing" == "Fixture for generate is missing";
    Serve(a, GenerateOp, input, (e: FixtureEntry) => e.generate)
  }

  /** `FixtureAdapter.generate_image`, with key kind `image`. */
  function GenerateImage(a: Adapter, input: Request): (r: Step<ImageOutput>)
    ensures r.adapter == a.(calls := a.calls.(generateImage := a.calls.generateImage + [input]))
    ensures var key := a.keyFn(KeyInput("image", input));
      && (r.result.Ok? <==> key in a.fixtures && a.fixtures[key].image.Some?)
      && (r.result.Ok? ==> r.result.value == a.fixtures[key].image.value)
      && (r.result.Err? ==> IsFixtureError(r.result.error, a, key))
      && (r.result.Err? && key in a.fixtures ==> Contains(r.result.error.message, "Fixture for image is missing"))
  {
    assert KindOf(ImageOp) == "image";
    assert "Fixture for " + "image" + " is missing" == "Fixture for image is missing";
    Serve(a, ImageOp, input, (e: FixtureEntry) => e.image)
  }

  /** `FixtureAdapter.generate_mesh`, with key kind `mesh`. */
  function GenerateMesh(a: Adapter, input: Request): (r: Step<MeshOutput>)
    ensures r.adapter == a.(calls := a.calls.(generateMesh := a.calls.generateMesh + [input]))
    ensures var key := a.keyFn(KeyInput("mesh", input));
      && (r.result.Ok? <==> key in a.fixtures && a.fixtures[key].mesh.Some?)
      && (r.result.Ok? ==> r.result.value == a.fixtures[key].mesh.value)
      && (r.result.Err? ==> IsFixtureError(r.result.error, a, key))
      && (r.result.Err? && key in a.fixtures ==> Contains(r.result.error.message, "Fixture for mesh is missing"))
  {
    assert KindOf(MeshOp) == "mesh";
    assert "Fixture for " + "mesh" + " is missing" == "Fixture for mesh is missing";
    Serve(a, MeshOp, input, (e: FixtureEntry) => e.mesh)
  }

  /** `FixtureAdapter.stream_generate`, with key kind `stream`: the call is recorded;
      an explicit canned stream wins; otherwise a canned `generate` output is turned into
      a stream with the adapter's chunk size; otherwise a VALIDATION error names the key. */
  function StreamGenerate(a: Adapter, input: Request): (r: Step<seq<StreamChunk>>)
    ensures r.adapter == a.(calls := a.calls.(streamGenerate := a.calls.streamGenerate + [input]))
    ensures var key := a.keyFn(KeyInput("stream", input));
      && (key !in a.fixtures ==> r.result.Err? && IsFixtureError(r.result.error, a, key))
      && (key in a.fixtures && a.fixtures[key].stream.Some? ==>
            r.result == Ok(a.fixtures[key].stream.value))
      && (key in a.fixtures && a.fixtures[key].stream.None? && a.fixtures[key].generate.Some? ==>
            r.result == Ok(BuildStreamChunks(a.fixtures[key].generate.value, a.defaultChunkSize)))
      && (key in a.fixtures && a.fixtures[key].stream.None? && a.fixtures[key].generate.None? ==>
            r.result.Err? && IsFixtureError(r.result.error, a, key)
            && Contains(r.result.error.message, "Fixture for stream is missing"))
  {
    assert "Fixture for " + KindOf(StreamOp) + " is missing" == "Fixture for stream is missing";
    var recorded := a.(calls := Record(a.calls, StreamOp, input));
    match RequireFixture(a, StreamOp, input)
    case Err(e) => Step(recorded, Err(e))
    case Ok(entry) =>
      if entry.stream.Some? then Step(recorded, Ok(entry.stream.value))
      else if entry.generate.None? then Step(recorded, Err(MissingFixtureError(a, StreamOp, input)))
      else Step(recorded, Ok(BuildStreamChunks(entry.generate.value, a.defaultChunkSize)))
  }

  /** A stream synthesised by `stream_generate` gives its consumer back the canned
      `generate` output's text and tool calls. */
  lemma SynthesisedStreamReplaysGenerate(a: Adapter, input: Request)
    requires var key := a.keyFn(KeyInput("stream", input));
      key in a.fixtures && a.fixtures[key].stream.None? && a.fixtures[key].generate.Some?
    ensures var out := a.fixtures[a.keyFn(KeyInput("stream", input))].generate.value;
      var r := StreamGenerate(a, input);
      r.result.Ok? && StreamedText(r.result.value) == TextOf(out) && StreamedCalls(r.result.value) == CallsOf(out)
  {
    var out := a.fixtures[a.keyFn(KeyInput("stream", input))].generate.value;
    StreamRoundTrip(out, a.defaultChunkSize);
  }
}
