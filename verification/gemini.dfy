/** The Gemini image adapter: API-key lookup, the lazily built SDK client, the retry loop
    that rebuilds the client after each transport failure, and the extraction of image bytes
    from a response. The SDK call and base64 decoding are oracles; environment variables are
    an input map. */
module Gemini {
  import opened Base
  import opened Text
  import opened Backoff

  // ---------------------------------------------------------------- API key

  /** `os.getenv(name)` read for truthiness: an unset and an empty variable both give "". */
  function EnvGet(env: map<string, string>, name: string): string {
    if name in env then env[name] else ""
  }

  /** `_env_api_key`: the first non-empty of AI_KIT_GOOGLE_API_KEY, GEMINI_API_KEY and
      GOOGLE_API_KEY, else "". */
  function EnvApiKey(env: map<string, string>): (r: string)
    ensures EnvGet(env, "AI_KIT_GOOGLE_API_KEY") != "" ==> r == EnvGet(env, "AI_KIT_GOOGLE_API_KEY")
    ensures EnvGet(env, "AI_KIT_GOOGLE_API_KEY") == "" && EnvGet(env, "GEMINI_API_KEY") != "" ==>
      r == EnvGet(env, "GEMINI_API_KEY")
    ensures EnvGet(env, "AI_KIT_GOOGLE_API_KEY") == "" && EnvGet(env, "GEMINI_API_KEY") == "" ==>
      r == EnvGet(env, "GOOGLE_API_KEY")
  {
    var a := EnvGet(env, "AI_KIT_GOOGLE_API_KEY");
    var b := EnvGet(env, "GEMINI_API_KEY");
    if a != "" then a else if b != "" then b else EnvGet(env, "GOOGLE_API_KEY")
  }

  /** Whatever else is set, a non-empty AI_KIT_GOOGLE_API_KEY wins; and the key found is
      always one of the three variables' values, or "". */
  lemma ApiKeyPrecedence(env: map<string, string>, key: string)
    requires key != ""
    ensures EnvApiKey(env["AI_KIT_GOOGLE_API_KEY" := key]) == key
    ensures var r := EnvApiKey(env);
      r == "" || r == EnvGet(env, "AI_KIT_GOOGLE_API_KEY") || r == EnvGet(env, "GEMINI_API_KEY") ||
      r == EnvGet(env, "GOOGLE_API_KEY")
  {
    assert EnvGet(env["AI_KIT_GOOGLE_API_KEY" := key], "AI_KIT_GOOGLE_API_KEY") == key;
  }

  // ---------------------------------------------------------------- client

  /** An SDK client: the serial number of its construction, and the key passed to it
      (`None` for `genai.Client()` without one). */
  datatype Handle = Handle(serial: nat, apiKey: Option<string>)

  datatype GeminiClient = GeminiClient(apiKey: string, cached: Option<Handle>)

  /** The constructor: an explicit non-empty key, else the environment's. No SDK client yet. */
  function NewGeminiClient(apiKey: Option<string>, env: map<string, string>): (g: GeminiClient)
    ensures g.cached.None?
    ensures apiKey.Some? && apiKey.value != "" ==> g.apiKey == apiKey.value
    ensures (apiKey.None? || apiKey.value == "") ==> g.apiKey == EnvApiKey(env)
  {
    var explicit := apiKey.GetOr("");
    GeminiClient(if explicit != "" then explicit else EnvApiKey(env), None)
  }

  /** The client `genai.Client(...)` builds as construction number `serial`. */
  function NewHandle(apiKey: string, serial: nat): (h: Handle)
    ensures h.serial == serial
    ensures h.apiKey.Some? <==> apiKey != ""
    ensures h.apiKey.Some? ==> h.apiKey.value == apiKey
  {
    Handle(serial, if apiKey != "" then Some(apiKey) else None)
  }

  /** `_get_client`: build (as construction `serial`) only when nothing is cached; otherwise
      return the cached client. Either way the client is cached afterwards. */
  function GetClient(g: GeminiClient, serial: nat): (r: (GeminiClient, Handle))
    ensures g.cached.Some? ==> r.1 == g.cached.value && r.0 == g
    ensures g.cached.None? ==> r.1 == NewHandle(g.apiKey, serial)
    ensures r.0 == g.(cached := Some(r.1))
  {
    match g.cached
    case Some(h) => (g, h)
    case None =>
      var h := NewHandle(g.apiKey, serial);
      (g.(cached := Some(h)), h)
  }

  /** A second `_get_client` constructs nothing and returns the same client. */
  lemma GetClientMemoises(g: GeminiClient, s1: nat, s2: nat)
    ensures var (g1, h1) := GetClient(g, s1);
      GetClient(g1, s2) == (g1, h1)
  {
  }

  // ---------------------------------------------------------------- retry policy

  /** An exception from the SDK: whether it is an `ssl.SSLError`, and its `str()`. */
  datatype GeminiError = GeminiError(isSslError: bool, message: string)

  const RetryableHints: seq<string> := [
    "ssl", "tls", "bad record mac", "eof occurred in violation of protocol", "connection reset"
  ]

  function AnyHint(message: string, hints: seq<string>): (r: bool)
    ensures r <==> exists i :: 0 <= i < |hints| && Contains(message, hints[i])
  {
    if hints == [] then false
    else Contains(message, hints[0]) || AnyHint(message, hints[1..])
  }

  /** `_is_retryable_error`: an SSL error, or a message that mentions a transport failure. */
  function IsRetryable(e: GeminiError): (r: bool)
    ensures r <==> e.isSslError || exists i :: 0 <= i < |RetryableHints| && Contains(Lower(e.message), RetryableHints[i])
  {
    e.isSslError || AnyHint(Lower(e.message), RetryableHints)
  }

  /** A dropped connection is retried whatever its capitalisation. */
  lemma ConnectionResetIsRetryable()
    ensures IsRetryable(GeminiError(false, "Connection Reset by peer"))
  {
    var m := Lower("Connection Reset by peer");
    assert m == "connection reset by peer";
    assert OccursAt(m, RetryableHints[4], 0);
  }

  /** The retry settings: AI_KIT_GEMINI_MAX_RETRIES, AI_KIT_GEMINI_BASE_DELAY_S and
      AI_KIT_GEMINI_MAX_DELAY_S, parsed. */
  datatype RetrySettings = RetrySettings(maxRetries: int, baseDelay: real, maxDelay: real)

  /** The settings when none of the three variables is set. */
  const DefaultRetrySettings := RetrySettings(5, 1.0, 10.0)

  /** The settings from the three variables, each already parsed (`None` when unset): an
      unset variable takes its default, a set one is used as given. */
  function SettingsFromEnv(maxRetries: Option<int>, baseDelay: Option<real>, maxDelay: Option<real>): (r: RetrySettings)
    ensures maxRetries.Some? ==> r.maxRetries == maxRetries.value
    ensures maxRetries.None? ==> r.maxRetries == 5
    ensures baseDelay.Some? ==> r.baseDelay == baseDelay.value
    ensures baseDelay.None? ==> r.baseDelay == 1.0
    ensures maxDelay.Some? ==> r.maxDelay == maxDelay.value
    ensures maxDelay.None? ==> r.maxDelay == 10.0
  {
    RetrySettings(
      maxRetries.GetOr(DefaultRetrySettings.maxRetries),
      baseDelay.GetOr(DefaultRetrySettings.baseDelay),
      maxDelay.GetOr(DefaultRetrySettings.maxDelay))
  }

  // ---------------------------------------------------------------- response parsing

  /** The `data` of an inline blob: bytes, a base64 string, or anything else (absent). */
  datatype InlineData = InlineBytes(bytes: Bytes) | InlineText(text: string) | InlineOther

  /** What `part.as_image()` and saving the image as PNG come to: `as_image()` raises (the
      part yields nothing), the buffer's bytes once saved, or an exception from saving that
      is not the `TypeError` answered by a second save with an explicit format; that one is
      not caught and escapes. */
  datatype Rendering = AsImageRaises | Saved(png: Bytes) | SaveRaises(exception: string)

  /** A response part: its `inline_data`, and how rendering it as an image goes. */
  datatype Part = Part(inline: Option<InlineData>, render: Rendering)

  /** A response: its top-level `parts` and, per candidate, `content.parts` (a missing
      attribute is an empty list). */
  datatype Response = Response(parts: seq<Part>, candidates: seq<seq<Part>>)

  /** `_inline_to_bytes`; `b64` is `base64.b64decode`, `None` where it raises. */
  function InlineToBytes(d: InlineData, b64: string -> Option<Bytes>): Option<Bytes> {
    match d
    case InlineBytes(b) => Some(b)
    case InlineText(t) => b64(t)
    case InlineOther => None
  }

  /** Python truthiness of `Optional[bytes]`. */
  predicate Truthy(b: Option<Bytes>) {
    b.Some? && b.value != []
  }

  /** Whether the part's inline data settles `_part_to_bytes`. */
  predicate InlineWins(p: Part, b64: string -> Option<Bytes>) {
    p.inline.Some? && Truthy(InlineToBytes(p.inline.value, b64))
  }

  /** `_part_to_bytes`: non-empty inline data first; else the part rendered as PNG, nothing
      when `as_image()` raises, and the exception when saving raises. */
  function PartToBytes(p: Part, b64: string -> Option<Bytes>): (r: Result<Option<Bytes>, string>)
    ensures InlineWins(p, b64) ==> r == Ok(InlineToBytes(p.inline.value, b64))
    ensures r.Err? <==> !InlineWins(p, b64) && p.render.SaveRaises?
    ensures r.Err? ==> r.error == p.render.exception
    ensures !InlineWins(p, b64) && p.render.AsImageRaises? ==> r == Ok(None)
    ensures !InlineWins(p, b64) && p.render.Saved? ==> r == Ok(Some(p.render.png))
  {
    if InlineWins(p, b64) then Ok(InlineToBytes(p.inline.value, b64))
    else
      match p.render
      case AsImageRaises => Ok(None)
      case Saved(png) => Ok(Some(png))
      case SaveRaises(e) => Err(e)
  }

  /** One extraction step after another: the first failure, else the images of both. */
  function Join(x: Result<seq<Bytes>, string>, y: Result<seq<Bytes>, string>): Result<seq<Bytes>, string> {
    if x.Err? then x else if y.Err? then y else Ok(x.value + y.value)
  }

  /** The loop over parts: the non-empty bytes they yield, in part order, or the exception of
      the first part whose rendering raises (what came before it is lost). */
  function Images(parts: seq<Part>, b64: string -> Option<Bytes>): (r: Result<seq<Bytes>, string>)
    ensures r.Err? <==> exists i :: 0 <= i < |parts| && PartToBytes(parts[i], b64).Err?
    ensures r.Err? ==>
      exists i :: 0 <= i < |parts| && PartToBytes(parts[i], b64) == Err(r.error) &&
        forall j :: 0 <= j < i ==> PartToBytes(parts[j], b64).Ok?
    ensures r.Ok? ==> |r.value| <= |parts| && forall k :: 0 <= k < |r.value| ==> r.value[k] != []
    ensures r.Ok? ==> (r.value == [] <==> forall i :: 0 <= i < |parts| ==> !Truthy(PartToBytes(parts[i], b64).value))
    decreases |parts|
  {
    if parts == [] then Ok([])
    else
      var rest := Images(parts[1..], b64);
      assert forall i :: 1 <= i < |parts| ==> parts[i] == parts[1..][i - 1];
      match PartToBytes(parts[0], b64)
      case Err(e) => Err(e)
      case Ok(d) =>
        if rest.Err? then
          var i :| 0 <= i < |parts[1..]| && PartToBytes(parts[1..][i], b64) == Err(rest.error) &&
            forall j :: 0 <= j < i ==> PartToBytes(parts[1..][j], b64).Ok?;
          assert PartToBytes(parts[i + 1], b64) == Err(rest.error);
          rest
        else if Truthy(d) then Ok([d.value] + rest.value)
        else rest
  }

  /** One part on its own: its error, or its bytes when they are non-empty. */
  lemma ImagesSingleton(p: Part, b64: string -> Option<Bytes>)
    ensures PartToBytes(p, b64).Err? ==> Images([p], b64) == Err(PartToBytes(p, b64).error)
    ensures PartToBytes(p, b64).Ok? ==>
      Images([p], b64) == Ok(if Truthy(PartToBytes(p, b64).value) then [PartToBytes(p, b64).value.value] else [])
  {
    assert [p][1..] == [];
    assert Images([p][1..], b64) == Ok([]);
    var d := PartToBytes(p, b64);
    if d.Ok? && Truthy(d.value) {
      assert [d.value.value] + [] == [d.value.value];
    }
  }

  /** Extraction distributes over concatenation: parts are never reordered, and a failure
      in the first half hides the second. */
  lemma {:induction false} ImagesAppend(a: seq<Part>, b: seq<Part>, b64: string -> Option<Bytes>)
    ensures Images(a + b, b64) == Join(Images(a, b64), Images(b, b64))
    decreases |a|
  {
    if a == [] {
      assert a + b == b;
      assert Images(a, b64) == Ok([]);
      if Images(b, b64).Ok? {
        assert [] + Images(b, b64).value == Images(b, b64).value;
      }
    } else {
      assert (a + b)[0] == a[0];
      assert (a + b)[1..] == a[1..] + b;
      ImagesAppend(a[1..], b, b64);
      var d := PartToBytes(a[0], b64);
      var ra, rb := Images(a[1..], b64), Images(b, b64);
      if d.Ok? && ra.Ok? && rb.Ok? && Truthy(d.value) {
        assert [d.value.value] + (ra.value + rb.value) == ([d.value.value] + ra.value) + rb.value;
      }
    }
  }

  /** All candidates' parts, candidate by candidate. */
  function CandidateImages(candidates: seq<seq<Part>>, b64: string -> Option<Bytes>): Result<seq<Bytes>, string>
    decreases |candidates|
  {
    if candidates == [] then Ok([])
    else Join(Images(candidates[0], b64), CandidateImages(candidates[1..], b64))
  }

  /** Flattening the candidates' parts first extracts the same images. */
  lemma {:induction false} CandidateImagesFlatten(candidates: seq<seq<Part>>, b64: string -> Option<Bytes>)
    ensures CandidateImages(candidates, b64) == Images(Flatten(candidates), b64)
    decreases |candidates|
  {
    if candidates != [] {
      CandidateImagesFlatten(candidates[1..], b64);
      ImagesAppend(candidates[0], Flatten(candidates[1..]), b64);
    }
  }

  function Flatten(candidates: seq<seq<Part>>): seq<Part>
    decreases |candidates|
  {
    if candidates == [] then [] else candidates[0] + Flatten(candidates[1..])
  }

  /** `_extract_images`: the top-level parts' images when there are any; the candidates are
      consulted only when the top level yields nothing; a rendering exception escapes. */
  function ExtractImages(resp: Response, b64: string -> Option<Bytes>): (r: Result<seq<Bytes>, string>)
    ensures Images(resp.parts, b64).Err? ==> r == Images(resp.parts, b64)
    ensures Images(resp.parts, b64).Ok? && Images(resp.parts, b64).value != [] ==> r == Images(resp.parts, b64)
    ensures Images(resp.parts, b64) == Ok([]) ==> r == Images(Flatten(resp.candidates), b64)
    ensures r.Ok? ==> forall k :: 0 <= k < |r.value| ==> r.value[k] != []
  {
    var top := Images(resp.parts, b64);
    if top.Err? || top.value != [] then top
    else
      CandidateImagesFlatten(resp.candidates, b64);
      CandidateImages(resp.candidates, b64)
  }

  /** Top-level images shadow every candidate, even one whose rendering would raise. */
  lemma TopLevelShadowsCandidates(p: Part, candidates: seq<seq<Part>>, b64: string -> Option<Bytes>)
    requires p.inline == Some(InlineBytes([1]))
    ensures ExtractImages(Response([p], candidates), b64) == Ok([[1]])
  {
    ImagesSingleton(p, b64);
  }

  /** A part without inline data whose PNG save raises makes the whole extraction raise,
      whatever the candidates hold. */
  lemma SaveFailureEscapes(e: string, candidates: seq<seq<Part>>, b64: string -> Option<Bytes>)
    ensures ExtractImages(Response([Part(None, SaveRaises(e))], candidates), b64) == Err(e)
  {
    ImagesSingleton(Part(None, SaveRaises(e)), b64);
  }

  // ---------------------------------------------------------------- generate_images

  /** `response_modalities or ["Image"]`: an absent or empty list becomes `["Image"]`. */
  function ResponseModalities(requested: Option<seq<string>>): (r: seq<string>)
    ensures r != []
    ensures requested.Some? && requested.value != [] ==> r == requested.value
    ensures requested.None? || requested.value == [] ==> r == ["Image"]
  {
    match requested
    case Some(m) => if m != [] then m else ["Image"]
    case None => ["Image"]
  }

  /** The caller's arguments to `generate_images` (the input image is taken as already
      decoded). */
  datatype ImageRequest = ImageRequest(model: string, prompt: string, modalities: Option<seq<string>>)

  /** What `generate_content` is sent on every attempt. */
  datatype ContentRequest = ContentRequest(model: string, prompt: string, responseModalities: seq<string>)

  function Sent(req: ImageRequest): ContentRequest {
    ContentRequest(req.model, req.prompt, ResponseModalities(req.modalities))
  }

  datatype GenerateError =
    | PromptRequired        // ValueError before any vendor call
    | VendorFailure(error: GeminiError)
    | NoImageData           // RuntimeError: the response held no image
    | ExtractionFailure(exception: string)  // raised while saving a part as PNG

  /** What a successful vendor call comes to: the extracted images, the extraction's own
      exception, or a RuntimeError when there are none. */
  function ImagesOrError(extracted: Result<seq<Bytes>, string>): (r: Result<seq<Bytes>, GenerateError>)
    ensures r.Ok? <==> extracted.Ok? && extracted.value != []
    ensures r.Ok? ==> r.value == extracted.value
    ensures extracted.Err? ==> r == Err(ExtractionFailure(extracted.error))
    ensures extracted == Ok([]) ==> r == Err(NoImageData)
  {
    match extracted
    case Err(e) => Err(ExtractionFailure(e))
    case Ok(images) => if images == [] then Err(NoImageData) else Ok(images)
  }

  /** `generate_images`. `call(req, client, i)` is the SDK's answer on attempt `i` through
      `client`; `u(i)` the jitter draw after attempt `i`. Returns the outcome, the adapter's
      final state, the client used on each attempt and the sleeps taken. A fresh client is
      built (construction `serial0 + i`) before attempt `i >= 1`. */
  method GenerateImages(
    g: GeminiClient, req: ImageRequest, s: RetrySettings, serial0: nat,
    call: (ContentRequest, Handle, nat) -> Result<Response, GeminiError>,
    b64: string -> Option<Bytes>, u: nat -> real)
    returns (r: Result<seq<Bytes>, GenerateError>, g2: GeminiClient, clients: seq<Handle>, waits: seq<real>)
    requires forall i :: 0.0 <= u(i) <= 1.0
    ensures req.prompt == "" ==> r == Err(PromptRequired) && clients == [] && waits == [] && g2 == g
    ensures req.prompt != "" ==> 1 <= |clients| <= Max(s.maxRetries, 0) + 1 && |waits| == |clients| - 1
    ensures req.prompt != "" ==> clients[0] == GetClient(g, serial0).1
    ensures forall i :: 1 <= i < |clients| ==> clients[i] == NewHandle(g.apiKey, serial0 + i)
    ensures req.prompt != "" ==> g2 == g.(cached := Some(clients[|clients| - 1]))
    ensures forall i :: 0 <= i < |clients| - 1 ==>
      call(Sent(req), clients[i], i).Err? && i < s.maxRetries && IsRetryable(call(Sent(req), clients[i], i).error)
    ensures forall i :: 0 <= i < |waits| ==> waits[i] == BackoffDelay(i, s.baseDelay, s.maxDelay, u(i))
    ensures req.prompt != "" ==> LastAttemptDecides(r, call(Sent(req), clients[|clients| - 1], |clients| - 1), |clients| - 1, s, b64)
  {
    if req.prompt == "" {
      return Err(PromptRequired), g, [], [];
    }
    var sent := Sent(req);
    var p := GetClient(g, serial0);
    g2 := p.0;
    clients := [p.1];
    waits := [];
    var attempt: nat := 0;
    while true
      invariant |clients| == attempt + 1 && |waits| == attempt
      invariant attempt <= Max(s.maxRetries, 0)
      invariant clients[0] == GetClient(g, serial0).1
      invariant forall i :: 1 <= i < |clients| ==> clients[i] == NewHandle(g.apiKey, serial0 + i)
      invariant g2 == g.(cached := Some(clients[attempt]))
      invariant forall i :: 0 <= i < attempt ==>
        call(sent, clients[i], i).Err? && i < s.maxRetries && IsRetryable(call(sent, clients[i], i).error)
      invariant forall i :: 0 <= i < attempt ==> waits[i] == BackoffDelay(i, s.baseDelay, s.maxDelay, u(i))
      decreases Max(s.maxRetries, 0) - attempt
    {
      var out := call(sent, clients[attempt], attempt);
      if out.Ok? {
        return ImagesOrError(ExtractImages(out.value, b64)), g2, clients, waits;
      }
      if attempt >= s.maxRetries || !IsRetryable(out.error) {
        return Err(VendorFailure(out.error)), g2, clients, waits;
      }
      waits := waits + [BackoffDelay(attempt, s.baseDelay, s.maxDelay, u(attempt))];
      attempt := attempt + 1;
      g2 := g2.(cached := None);
      p := GetClient(g2, serial0 + attempt);
      g2 := p.0;
      clients := clients + [p.1];
    }
  }

  /** How the last attempt's outcome becomes the result: a success is extracted (and an
      image-less response raises), a failure is re-raised unchanged and was not retryable
      or hit the ceiling. */
  predicate LastAttemptDecides(
    r: Result<seq<Bytes>, GenerateError>, last: Result<Response, GeminiError>, attempt: nat,
    s: RetrySettings, b64: string -> Option<Bytes>)
  {
    (last.Ok? ==> r == ImagesOrError(ExtractImages(last.value, b64))) &&
    (last.Err? ==> r == Err(VendorFailure(last.error)) && (attempt >= s.maxRetries || !IsRetryable(last.error)))
  }

  /** Every retry talks to a client no earlier attempt used, provided the serials handed out
      are new. */
  lemma RetriesUseFreshClients(g: GeminiClient, serial0: nat, clients: seq<Handle>)
    requires clients != [] && clients[0] == GetClient(g, serial0).1
    requires forall i :: 1 <= i < |clients| ==> clients[i] == NewHandle(g.apiKey, serial0 + i)
    requires g.cached.None? || g.cached.value.serial < serial0
    ensures forall i, j :: 0 <= j < i < |clients| ==> clients[j] != clients[i]
  {
    forall i, j | 0 <= j < i < |clients|
      ensures clients[j] != clients[i]
    {
      assert clients[i].serial == serial0 + i;
      if j > 0 {
        assert clients[j].serial == serial0 + j;
      }
    }
  }
}
