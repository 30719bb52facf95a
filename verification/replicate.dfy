/** The Replicate adapter: retry policy and loop, output coercion, list/dict fan-out and the
    crop geometry of a grid image. The SDK call, `FileOutput.read()`, URL download and the
    image codec are oracles passed in as functions. */
module Replicate {
  import opened Base
  import opened Text
  import opened Backoff
  import opened RetryHint

  // ---------------------------------------------------------------- retry policy

  datatype ReplicateClient = ReplicateClient(
    useFileOutput: bool,
    maxRetries: nat,
    baseDelay: real,
    maxDelay: real
  )

  /** What the constructor guarantees of every client. */
  predicate ValidPolicy(c: ReplicateClient) {
    c.baseDelay >= 0.1 && c.maxDelay >= c.baseDelay
  }

  /** The constructor clamps its arguments: retries to at least 0, the base delay to at
      least 0.1 s, and the maximum delay to at least the (clamped) base delay. Values
      already in range are kept. */
  function NewReplicateClient(useFileOutput: bool, maxRetries: int, baseDelay: real, maxDelay: real): (c: ReplicateClient)
    ensures ValidPolicy(c)
    ensures c.useFileOutput == useFileOutput
    ensures maxRetries >= 0 ==> c.maxRetries == maxRetries
    ensures maxRetries < 0 ==> c.maxRetries == 0
    ensures baseDelay >= 0.1 ==> c.baseDelay == baseDelay
    ensures baseDelay < 0.1 ==> c.baseDelay == 0.1
    ensures maxDelay >= c.baseDelay ==> c.maxDelay == maxDelay
    ensures maxDelay < c.baseDelay ==> c.maxDelay == c.baseDelay
  {
    var b := MaxReal(0.1, baseDelay);
    ReplicateClient(useFileOutput, Max(0, maxRetries), b, MaxReal(b, maxDelay))
  }

  /** The keyword defaults: file outputs on, 3 retries, 2 s base and 30 s maximum delay. */
  function DefaultReplicateClient(): (c: ReplicateClient)
    ensures ValidPolicy(c) && c.useFileOutput
    ensures c.maxRetries == 3 && c.baseDelay == 2.0 && c.maxDelay == 30.0
  {
    NewReplicateClient(true, 3, 2.0, 30.0)
  }

  /** Clamping is idempotent: rebuilding a client from its own settings changes nothing. */
  lemma ClampingIdempotent(c: ReplicateClient)
    requires ValidPolicy(c)
    ensures NewReplicateClient(c.useFileOutput, c.maxRetries, c.baseDelay, c.maxDelay) == c
  {
  }

  /** The exception the SDK raises: its optional `status` and `status_code` attributes and
      its `str()`. */
  datatype ReplicateError = ReplicateError(status: Option<int>, statusCode: Option<int>, message: string)

  /** `getattr(exc, "status", None) or getattr(exc, "status_code", None)`: a missing or zero
      `status` falls through to `status_code`. */
  function StatusOf(e: ReplicateError): (s: Option<int>)
    ensures e.status.Some? && e.status.value != 0 ==> s == e.status
    ensures (e.status.None? || e.status == Some(0)) ==> s == e.statusCode
  {
    match e.status
    case Some(v) => if v != 0 then Some(v) else e.statusCode
    case None => e.statusCode
  }

  /** The rate-limit markers looked for in the lower-cased message. */
  predicate MentionsRateLimit(message: string) {
    var m := Lower(message);
    Contains(m, "429") || Contains(m, "throttl") || Contains(m, "rate limit")
  }

  /** Retry only below the attempt ceiling, and then only for a rate-limit failure. */
  function ShouldRetry(c: ReplicateClient, e: ReplicateError, attempt: nat): (r: bool)
    ensures attempt >= c.maxRetries ==> !r
    ensures attempt < c.maxRetries ==> (r <==> StatusOf(e) == Some(429) || MentionsRateLimit(e.message))
  {
    if attempt >= c.maxRetries then false
    else if StatusOf(e) == Some(429) then true
    else MentionsRateLimit(e.message)
  }

  /** The verdict on an error does not change with the attempt below the ceiling, and an
      error not retried at one attempt is not retried at any later one. */
  lemma RetryVerdictFixedBelowCeiling(c: ReplicateClient, e: ReplicateError, i: nat, j: nat)
    requires i <= j
    ensures j < c.maxRetries ==> ShouldRetry(c, e, i) == ShouldRetry(c, e, j)
    ensures !ShouldRetry(c, e, i) ==> !ShouldRetry(c, e, j)
  {
  }

  /** A 429 carried only in `status_code` is retried, as long as `status` is unset or zero. */
  lemma StatusCodeFallback(c: ReplicateClient, message: string, attempt: nat, status: Option<int>)
    requires attempt < c.maxRetries
    requires status.None? || status == Some(0)
    ensures ShouldRetry(c, ReplicateError(status, Some(429), message), attempt)
  {
  }

  /** The marker test ignores case: "Rate Limit exceeded" is retried. */
  lemma RateLimitWordingIsRetried(c: ReplicateClient, attempt: nat)
    requires attempt < c.maxRetries
    ensures ShouldRetry(c, ReplicateError(None, None, "Rate Limit exceeded"), attempt)
  {
    var m := Lower("Rate Limit exceeded");
    assert m == "rate limit exceeded";
    assert OccursAt(m, "rate limit", 0);
  }

  /** The wait before the next attempt. With a vendor hint of `n` seconds: `n + 1`, capped at
      the maximum delay. Without one: the capped exponential delay plus its jitter. */
  function RetryDelay(c: ReplicateClient, hint: Option<nat>, attempt: nat, u: real): (r: real)
    requires 0.0 <= u <= 1.0
    ensures hint.Some? ==> r == MinReal(c.maxDelay, hint.value as real + 1.0)
    ensures hint.None? ==> var b := RawDelay(attempt, c.baseDelay, c.maxDelay);
      b >= 0.0 ==> b <= r <= b + JitterCap(b)
    ensures ValidPolicy(c) ==> 0.1 <= r <= c.maxDelay + 1.0
  {
    match hint
    case Some(n) => MinReal(c.maxDelay, n as real + 1.0)
    case None => BackoffDelay(attempt, c.baseDelay, c.maxDelay, u)
  }

  /** `_retry_delay` as written: a matched hint group makes `float()` raise, and since the
      written pattern never reads seconds, every other message waits the jittered backoff. */
  function RetryDelayAsWritten(c: ReplicateClient, message: string, attempt: nat, u: real): (r: Result<real, string>)
    requires 0.0 <= u <= 1.0
    ensures r.Err? <==> ReadHintAsWritten(message).HintRaises?
    ensures r.Err? ==> r.error == ReadHintAsWritten(message).group
    ensures r.Ok? ==> r.value == RetryDelay(c, None, attempt, u)
  {
    var h := ReadHintAsWritten(message);
    if h.HintRaises? then Err(h.group) else Ok(BackoffDelay(attempt, c.baseDelay, c.maxDelay, u))
  }

  /** As written, a message without a backslash never raises and waits the plain backoff. */
  lemma PlainMessageWaitsBackoff(c: ReplicateClient, message: string, attempt: nat, u: real)
    requires 0.0 <= u <= 1.0
    requires forall k :: 0 <= k < |message| ==> message[k] != '\\'
    ensures RetryDelayAsWritten(c, message, attempt, u) == Ok(RetryDelay(c, None, attempt, u))
  {
    AsWrittenIgnoresPlainMessages(message, 0);
  }

  /** How `run` can fail: the SDK's own exception re-raised, or the `ValueError` that
      `_retry_delay` raises on a hint group it cannot read. */
  datatype RunFailure = Raised(error: ReplicateError) | DelayRaised(group: string)

  /** The retry loop of `run`, as written. `call(i)` is what the SDK returns on the `i`-th
      attempt and `u(i)` the jitter draw after it. The loop ends at the first success, at the
      first failure that may not be retried (re-raised), or when the retry delay itself
      raises. `waits` are the sleeps taken between attempts. */
  method Run<T>(c: ReplicateClient, call: nat -> Result<T, ReplicateError>, u: nat -> real)
    returns (r: Result<T, RunFailure>, calls: nat, waits: seq<real>)
    requires forall i :: 0.0 <= u(i) <= 1.0
    ensures 1 <= calls <= c.maxRetries + 1
    ensures call(calls - 1).Ok? ==> r == Ok(call(calls - 1).value)
    ensures call(calls - 1).Err? && !ShouldRetry(c, call(calls - 1).error, calls - 1) ==>
      r == Err(Raised(call(calls - 1).error))
    ensures call(calls - 1).Err? && ShouldRetry(c, call(calls - 1).error, calls - 1) ==>
      ReadHintAsWritten(call(calls - 1).error.message).HintRaises? &&
      r == Err(DelayRaised(ReadHintAsWritten(call(calls - 1).error.message).group))
    ensures |waits| == calls - 1
    ensures forall i :: 0 <= i < calls - 1 ==>
      call(i).Err? && ShouldRetry(c, call(i).error, i) &&
      RetryDelayAsWritten(c, call(i).error.message, i, u(i)) == Ok(waits[i])
  {
    var attempt: nat := 0;
    waits := [];
    while true
      invariant attempt <= c.maxRetries
      invariant |waits| == attempt
      invariant forall i :: 0 <= i < attempt ==>
        call(i).Err? && ShouldRetry(c, call(i).error, i) &&
        RetryDelayAsWritten(c, call(i).error.message, i, u(i)) == Ok(waits[i])
      decreases c.maxRetries - attempt
    {
      var out := call(attempt);
      if out.Ok? {
        return Ok(out.value), attempt + 1, waits;
      }
      if !ShouldRetry(c, out.error, attempt) {
        return Err(Raised(out.error)), attempt + 1, waits;
      }
      var delay := RetryDelayAsWritten(c, out.error.message, attempt, u(attempt));
      if delay.Err? {
        return Err(DelayRaised(delay.error)), attempt + 1, waits;
      }
      waits := waits + [delay.value];
      attempt := attempt + 1;
    }
  }

  /** The retry loop with the corrected hint parser: the result is the last outcome,
      unchanged: the first success, or the first failure that may not be retried. */
  method RunIntended<T>(c: ReplicateClient, call: nat -> Result<T, ReplicateError>, u: nat -> real)
    returns (r: Result<T, ReplicateError>, calls: nat, waits: seq<real>)
    requires forall i :: 0.0 <= u(i) <= 1.0
    ensures 1 <= calls <= c.maxRetries + 1
    ensures r == call(calls - 1)
    ensures r.Err? ==> !ShouldRetry(c, r.error, calls - 1)
    ensures forall i :: 0 <= i < calls - 1 ==> call(i).Err? && ShouldRetry(c, call(i).error, i)
    ensures |waits| == calls - 1
    ensures forall i :: 0 <= i < calls - 1 ==>
      call(i).Err? && waits[i] == RetryDelay(c, VendorHint(call(i).error.message), i, u(i))
  {
    var attempt: nat := 0;
    waits := [];
    while true
      invariant attempt <= c.maxRetries
      invariant |waits| == attempt
      invariant forall i :: 0 <= i < attempt ==>
        call(i).Err? && ShouldRetry(c, call(i).error, i) &&
        waits[i] == RetryDelay(c, VendorHint(call(i).error.message), i, u(i))
      decreases c.maxRetries - attempt
    {
      var out := call(attempt);
      if out.Ok? || !ShouldRetry(c, out.error, attempt) {
        return out, attempt + 1, waits;
      }
      var delay := RetryDelay(c, VendorHint(out.error.message), attempt, u(attempt));
      waits := waits + [delay];
      attempt := attempt + 1;
    }
  }

  /** A client built with `max_retries = 0` calls the SDK exactly once and passes its
      outcome on: the value, or its exception re-raised. */
  method RunWithoutRetries<T>(call: nat -> Result<T, ReplicateError>, u: nat -> real)
    returns (r: Result<T, RunFailure>, calls: nat)
    requires forall i :: 0.0 <= u(i) <= 1.0
    ensures calls == 1
    ensures call(0).Ok? ==> r == Ok(call(0).value)
    ensures call(0).Err? ==> r == Err(Raised(call(0).error))
  {
    var c := NewReplicateClient(true, 0, 2.0, 30.0);
    var waits;
    r, calls, waits := Run(c, call, u);
  }

  // ---------------------------------------------------------------- output coercion

  /** What the SDK can hand back, by the tests `_coerce_single_file` applies. A readable
      object (a `FileOutput`) is known by a handle the `read` oracle resolves. Dictionary
      keys are strings. A list and a tuple are handled alike and differ only in their type
      name. */
  datatype VendorValue =
    | VNone
    | VBytes(bytes: Bytes)
    | VReadable(handle: nat)
    | VStr(s: string)
    | VDict(entries: seq<(string, VendorValue)>)
    | VList(items: seq<VendorValue>, isTuple: bool)
    | VOther(typeName: string)

  /** The exceptions coercion can raise; `IoFailure` is whatever the read or the download
      raised, passed through. */
  datatype CoerceError =
    | RuntimeError(message: string)
    | TypeError(message: string)
    | IoFailure(reason: string)

  /** `FileOutput.read()` and `requests.get(url)` + `raise_for_status()`. */
  datatype Io = Io(read: nat -> Result<Bytes, string>, download: string -> Result<Bytes, string>)

  /** `type(out)` as printed in the error message. */
  function TypeName(v: VendorValue): string {
    match v
    case VNone => "<class 'NoneType'>"
    case VBytes(_) => "<class 'bytes'>"
    case VReadable(_) => "<class 'FileOutput'>"
    case VStr(_) => "<class 'str'>"
    case VDict(_) => "<class 'dict'>"
    case VList(_, isTuple) => if isTuple then "<class 'tuple'>" else "<class 'list'>"
    case VOther(name) => name
  }

  /** `out["url"]` when the key is present (the last binding, as a dict literal keeps it). */
  function Lookup(entries: seq<(string, VendorValue)>, key: string): (r: Option<VendorValue>)
    ensures r.None? <==> forall i :: 0 <= i < |entries| ==> entries[i].0 != key
    ensures r.Some? ==> exists i :: 0 <= i < |entries| && entries[i] == (key, r.value)
  {
    if entries == [] then None
    else if entries[|entries| - 1].0 == key then Some(entries[|entries| - 1].1)
    else Lookup(entries[..|entries| - 1], key)
  }

  /** The string url of a `{"url": ...}` output, if it has one. */
  function DictUrl(entries: seq<(string, VendorValue)>): Option<string> {
    match Lookup(entries, "url")
    case Some(VStr(url)) => Some(url)
    case _ => None
  }

  function FromIo(r: Result<Bytes, string>): Result<Bytes, CoerceError> {
    match r
    case Ok(b) => Ok(b)
    case Err(reason) => Err(IoFailure(reason))
  }

  /** Outputs that coercion knows how to turn into bytes. */
  predicate Supported(v: VendorValue) {
    v.VBytes? || v.VReadable? || (v.VStr? && StartsWith(v.s, "http")) || (v.VDict? && DictUrl(v.entries).Some?)
  }

  /** `_coerce_single_file`: None raises, bytes pass through, a readable is read, an http
      string is downloaded, a dict with a string "url" has that url downloaded, and anything
      else raises `TypeError`. */
  function CoerceSingleFile(io: Io, v: VendorValue): (r: Result<Bytes, CoerceError>)
    ensures v.VNone? ==> r == Err(RuntimeError("Replicate returned None output"))
    ensures v.VBytes? ==> r == Ok(v.bytes)
    ensures v.VReadable? ==> r == FromIo(io.read(v.handle))
    ensures v.VStr? && StartsWith(v.s, "http") ==> r == FromIo(io.download(v.s))
    ensures v.VDict? && DictUrl(v.entries).Some? ==> r == FromIo(io.download(DictUrl(v.entries).value))
    ensures r.Err? && r.error.TypeError? <==> !v.VNone? && !Supported(v)
    ensures r.Err? && r.error.TypeError? ==> r.error.message == "Unsupported Replicate output type: " + TypeName(v)
  {
    match v
    case VNone => Err(RuntimeError("Replicate returned None output"))
    case VBytes(b) => Ok(b)
    case VReadable(h) => FromIo(io.read(h))
    case VStr(s) =>
      if StartsWith(s, "http") then FromIo(io.download(s))
      else Err(TypeError("Unsupported Replicate output type: " + TypeName(v)))
    case VDict(entries) =>
      (match DictUrl(entries)
       case Some(url) => FromIo(io.download(url))
       case None => Err(TypeError("Unsupported Replicate output type: " + TypeName(v))))
    case _ => Err(TypeError("Unsupported Replicate output type: " + TypeName(v)))
  }

  /** A `{"url": u}` output is fetched exactly as the bare string `u` would be. */
  lemma DictUrlActsAsUrl(io: Io, url: string, others: seq<(string, VendorValue)>)
    requires StartsWith(url, "http")
    ensures CoerceSingleFile(io, VDict(others + [("url", VStr(url))])) == CoerceSingleFile(io, VStr(url))
  {
    var es := others + [("url", VStr(url))];
    assert es[|es| - 1] == ("url", VStr(url));
    assert DictUrl(es) == Some(url);
  }

  /** A non-http string is refused, not downloaded. */
  lemma RelativePathIsRefused(io: Io)
    ensures CoerceSingleFile(io, VStr("out.png")) == Err(TypeError("Unsupported Replicate output type: <class 'str'>"))
  {
    assert !StartsWith("out.png", "http") by { assert "out.png"[..4][0] == 'o'; }
    assert "Unsupported Replicate output type: " + TypeName(VStr("out.png"))
      == "Unsupported Replicate output type: <class 'str'>";
  }

  /** Item `i` is the first that fails to coerce, and fails with `e`. */
  predicate FirstFailure(io: Io, items: seq<VendorValue>, i: int, e: CoerceError) {
    0 <= i < |items| && CoerceSingleFile(io, items[i]) == Err(e) &&
    forall j :: 0 <= j < i ==> CoerceSingleFile(io, items[j]).Ok?
  }

  /** List comprehension over `_coerce_single_file`: element-wise on success, and the first
      failing element's exception otherwise. */
  function CoerceAll(io: Io, items: seq<VendorValue>): (r: Result<seq<Bytes>, CoerceError>)
    ensures r.Ok? <==> forall i :: 0 <= i < |items| ==> CoerceSingleFile(io, items[i]).Ok?
    ensures r.Ok? ==> (|r.value| == |items| &&
      forall i :: 0 <= i < |items| ==> CoerceSingleFile(io, items[i]) == Ok(r.value[i]))
    ensures r.Err? ==> exists i :: FirstFailure(io, items, i, r.error)
    decreases |items|
  {
    if items == [] then Ok([])
    else
      match CoerceSingleFile(io, items[0])
      case Err(e) =>
        assert FirstFailure(io, items, 0, e);
        Err(e)
      case Ok(b) =>
        match CoerceAll(io, items[1..])
        case Err(e) =>
          var i :| FirstFailure(io, items[1..], i, e);
          assert FirstFailure(io, items, i + 1, e);
          Err(e)
        case Ok(bs) => Ok([b] + bs)
  }

  /** `multiview_zero123plusplus` returns a list of views for a list/tuple output and a
      single view otherwise. */
  datatype Views = ViewList(views: seq<Bytes>) | SingleView(view: Bytes)

  function NormalizeMultiview(io: Io, out: VendorValue): (r: Result<Views, CoerceError>)
    ensures out.VList? && r.Ok? ==> (r.value.ViewList? && |r.value.views| == |out.items| &&
      forall i :: 0 <= i < |out.items| ==> CoerceSingleFile(io, out.items[i]) == Ok(r.value.views[i]))
    ensures out.VList? ==> (r.Ok? <==> forall i :: 0 <= i < |out.items| ==> CoerceSingleFile(io, out.items[i]).Ok?)
    ensures !out.VList? ==> (r.Ok? <==> CoerceSingleFile(io, out).Ok?)
    ensures !out.VList? && r.Ok? ==> r.value == SingleView(CoerceSingleFile(io, out).value)
  {
    match out
    case VList(items, _) =>
      (match CoerceAll(io, items)
       case Ok(bs) => Ok(ViewList(bs))
       case Err(e) => Err(e))
    case _ =>
      match CoerceSingleFile(io, out)
      case Ok(b) => Ok(SingleView(b))
      case Err(e) => Err(e)
  }

  /** An ordered `Dict[str, bytes]`. */
  type ByteMap = seq<(string, Bytes)>

  function KeysOf<V>(d: seq<(string, V)>): set<string> {
    set i | 0 <= i < |d| :: d[i].0
  }

  predicate UniqueKeys<V>(d: seq<(string, V)>) {
    forall i, j :: 0 <= i < j < |d| ==> d[i].0 != d[j].0
  }

  /** A key list with one entry in front is duplicate-free exactly when the rest is and does
      not hold the new key. */
  lemma UniqueCons<V>(x: (string, V), d: seq<(string, V)>)
    ensures UniqueKeys([x] + d) <==> x.0 !in KeysOf(d) && UniqueKeys(d)
  {
    var s := [x] + d;
    if UniqueKeys(s) {
      forall i, j | 0 <= i < j < |d| ensures d[i].0 != d[j].0 {
        assert s[i + 1] == d[i] && s[j + 1] == d[j];
      }
      forall i | 0 <= i < |d| ensures d[i].0 != x.0 {
        assert s[i + 1] == d[i] && s[0] == x;
      }
    }
    if x.0 !in KeysOf(d) && UniqueKeys(d) {
      forall i, j | 0 <= i < j < |s| ensures s[i].0 != s[j].0 {
        assert s[j] == d[j - 1];
        if i > 0 {
          assert s[i] == d[i - 1];
        } else {
          assert d[j - 1].0 in KeysOf(d);
        }
      }
    }
  }

  lemma KeysOfCons<V>(x: (string, V), d: seq<(string, V)>)
    ensures KeysOf([x] + d) == {x.0} + KeysOf(d)
  {
    var s := [x] + d;
    forall y | y in KeysOf(s) ensures y in {x.0} + KeysOf(d) {
      var i :| 0 <= i < |s| && s[i].0 == y;
      if i > 0 { assert d[i - 1].0 == y; }
    }
    assert s[0].0 == x.0;
    forall y | y in KeysOf(d) ensures y in KeysOf(s) {
      var i :| 0 <= i < |d| && d[i].0 == y;
      assert s[i + 1].0 == y;
    }
  }

  lemma KeysOfSnoc<V>(d: seq<(string, V)>, x: (string, V))
    ensures KeysOf(d + [x]) == KeysOf(d) + {x.0}
  {
    var s := d + [x];
    forall y | y in KeysOf(s) ensures y in KeysOf(d) + {x.0} {
      var i :| 0 <= i < |s| && s[i].0 == y;
      if i < |d| { assert d[i].0 == y; }
    }
    forall y | y in KeysOf(d) ensures y in KeysOf(s) {
      var i :| 0 <= i < |d| && d[i].0 == y;
      assert s[i].0 == y;
    }
    assert s[|d|].0 == x.0;
  }

  /** `result[k] = v`: overwrite in place when the key is present, else append. */
  function DictSet(d: ByteMap, k: string, v: Bytes): (r: ByteMap)
    requires UniqueKeys(d)
    ensures UniqueKeys(r)
    ensures KeysOf(r) == KeysOf(d) + {k}
    ensures k !in KeysOf(d) ==> r == d + [(k, v)]
    decreases |d|
  {
    if d == [] then
      KeysOfCons((k, v), []);
      [(k, v)]
    else
      assert d == [d[0]] + d[1..];
      KeysOfCons(d[0], d[1..]);
      UniqueCons(d[0], d[1..]);
      if d[0].0 == k then
        KeysOfCons((k, v), d[1..]);
        UniqueCons((k, v), d[1..]);
        [(k, v)] + d[1..]
      else
        var rest := DictSet(d[1..], k, v);
        KeysOfCons(d[0], rest);
        UniqueCons(d[0], rest);
        assert k !in KeysOf(d) ==> [d[0]] + rest == d + [(k, v)] by {
          if k !in KeysOf(d) {
            assert [d[0]] + (d[1..] + [(k, v)]) == ([d[0]] + d[1..]) + [(k, v)];
          }
        }
        [d[0]] + rest
  }

  /** The `for k, v in out.items(): result[str(k)] = coerce(v)` loop: the first failing value
      raises; otherwise every key is kept with its coerced value. */
  function CoerceEntries(io: Io, es: seq<(string, VendorValue)>): (r: Result<ByteMap, CoerceError>)
    ensures r.Ok? ==> UniqueKeys(r.value) && KeysOf(r.value) == KeysOf(es)
    decreases |es|
  {
    if es == [] then Ok([])
    else
      var init := es[..|es| - 1];
      var last := es[|es| - 1];
      InitAndLast(es, init, last);
      match CoerceEntries(io, init)
      case Err(e) => Err(e)
      case Ok(d) =>
        match CoerceSingleFile(io, last.1)
        case Err(e) => Err(e)
        case Ok(b) => Ok(DictSet(d, last.0, b))
  }

  lemma InitAndLast(es: seq<(string, VendorValue)>, init: seq<(string, VendorValue)>, last: (string, VendorValue))
    requires es != [] && init == es[..|es| - 1] && last == es[|es| - 1]
    ensures es == init + [last] && KeysOf(es) == KeysOf(init) + {last.0}
    ensures UniqueKeys(es) ==> UniqueKeys(init) && last.0 !in KeysOf(init)
  {
    assert es == init + [last];
    KeysOfSnoc(init, last);
  }

  /** The loop succeeds exactly when every value coerces. */
  lemma {:induction false} CoerceEntriesOk(io: Io, es: seq<(string, VendorValue)>)
    ensures CoerceEntries(io, es).Ok? <==> forall i :: 0 <= i < |es| ==> CoerceSingleFile(io, es[i].1).Ok?
    decreases |es|
  {
    if es != [] {
      var init := es[..|es| - 1];
      InitAndLast(es, init, es[|es| - 1]);
      CoerceEntriesOk(io, init);
    }
  }

  /** With distinct keys, the result lists every key in order with its value coerced. */
  lemma {:induction false} CoerceEntriesValues(io: Io, es: seq<(string, VendorValue)>)
    requires UniqueKeys(es) && CoerceEntries(io, es).Ok?
    ensures var d := CoerceEntries(io, es).value;
      |d| == |es| && forall i :: 0 <= i < |es| ==> d[i].0 == es[i].0 && CoerceSingleFile(io, es[i].1) == Ok(d[i].1)
    decreases |es|
  {
    if es != [] {
      var init := es[..|es| - 1];
      var last := es[|es| - 1];
      InitAndLast(es, init, last);
      CoerceEntriesValues(io, init);
      var d := CoerceEntries(io, init).value;
      var b := CoerceSingleFile(io, last.1).value;
      assert CoerceEntries(io, es).value == d + [(last.0, b)];
    }
  }

  /** `depth_anything_v2`: a non-dict output becomes `{"grey_depth": ...}`; a dict output
      keeps its keys, each value coerced. */
  function NormalizeDepth(io: Io, out: VendorValue): (r: Result<ByteMap, CoerceError>)
    ensures !out.VDict? ==> (r.Ok? <==> CoerceSingleFile(io, out).Ok?)
    ensures !out.VDict? && r.Ok? ==> r.value == [("grey_depth", CoerceSingleFile(io, out).value)]
    ensures out.VDict? ==> (r.Ok? <==> forall i :: 0 <= i < |out.entries| ==> CoerceSingleFile(io, out.entries[i].1).Ok?)
    ensures out.VDict? && r.Ok? ==> KeysOf(r.value) == KeysOf(out.entries)
  {
    match out
    case VDict(es) =>
      CoerceEntriesOk(io, es);
      CoerceEntries(io, es)
    case _ =>
      match CoerceSingleFile(io, out)
      case Ok(b) => Ok([("grey_depth", b)])
      case Err(e) => Err(e)
  }

  // ---------------------------------------------------------------- grid split

  /** Python `//`: floor division, which differs from Dafny's Euclidean `/` for a negative
      divisor with a non-zero remainder. */
  function FloorDiv(a: int, b: int): (q: int)
    requires b != 0
    ensures b > 0 ==> q * b <= a < q * b + b
    ensures b < 0 ==> q * b + b < a <= q * b
  {
    if b > 0 || a % b == 0 then a / b else a / b - 1
  }

  /** A PIL crop box: left, top, right, bottom. */
  datatype Box = Box(left: int, top: int, right: int, bottom: int)

  datatype GridError = ZeroDivisionError

  /** The crop box of the view in row `r`, column `c`. */
  function Cell(r: int, c: int, cellW: int, cellH: int, padding: int): (b: Box)
    ensures b.right - b.left == cellW && b.bottom - b.top == cellH
  {
    var left := c * (cellW + padding);
    var top := r * (cellH + padding);
    Box(left, top, left + cellW, top + cellH)
  }

  /** `(dim - padding * (n - 1)) // n`. */
  function CellSize(dim: int, n: int, padding: int): int
    requires n != 0
  {
    FloorDiv(dim - padding * (n - 1), n)
  }

  /** The `k`-th box in row-major order over `cols` columns. */
  function BoxAt(k: int, cols: int, cellW: int, cellH: int, padding: int): Box
    requires cols != 0
  {
    Cell(k / cols, k % cols, cellW, cellH, padding)
  }

  /** The crop boxes `split_grid_image` cuts, row-major, or the `ZeroDivisionError` a zero
      row or column count raises. A negative count yields no views. */
  function GridBoxes(w: int, h: int, rows: int, cols: int, padding: int): (r: Result<seq<Box>, GridError>)
    ensures r.Err? <==> rows == 0 || cols == 0
    ensures r.Ok? ==> |r.value| == Max(rows, 0) * Max(cols, 0)
  {
    if cols == 0 || rows == 0 then Err(ZeroDivisionError)
    else
      var cw := CellSize(w, cols, padding);
      var ch := CellSize(h, rows, padding);
      Ok(seq(Max(rows, 0) * Max(cols, 0), k => BoxAt(k, cols, cw, ch, padding)))
  }

  lemma RowMajor(r: nat, c: nat, cols: nat)
    requires c < cols
    ensures (r * cols + c) / cols == r && (r * cols + c) % cols == c
  {
    DivUnique(r * cols + c, cols, r);
  }

  /** View `(r, c)` sits at `(c * (cw + p), r * (ch + p))` with size `cw x ch`. */
  lemma GridBoxAt(w: int, h: int, rows: nat, cols: nat, padding: int, r: nat, c: nat)
    requires r < rows && c < cols
    ensures GridBoxes(w, h, rows, cols, padding).Ok?
    ensures var boxes := GridBoxes(w, h, rows, cols, padding).value;
      r * cols + c < |boxes| &&
      boxes[r * cols + c] == Cell(r, c, CellSize(w, cols, padding), CellSize(h, rows, padding), padding)
  {
    RowMajor(r, c, cols);
    MulLeft(r, rows - 1, cols);
  }

  /** `split_grid_image`: the nested row/column loop, each box handed to the `crop` oracle
      (decode, crop and PNG encode). */
  method SplitGridImage(w: int, h: int, rows: int, cols: int, padding: int, crop: Box -> Bytes)
    returns (r: Result<seq<Bytes>, GridError>)
    ensures r.Err? <==> GridBoxes(w, h, rows, cols, padding).Err?
    ensures r.Ok? ==> var boxes := GridBoxes(w, h, rows, cols, padding).value;
      |r.value| == |boxes| && forall k :: 0 <= k < |boxes| ==> r.value[k] == crop(boxes[k])
  {
    if cols == 0 || rows == 0 {
      return Err(ZeroDivisionError);
    }
    var cw := CellSize(w, cols, padding);
    var ch := CellSize(h, rows, padding);
    var nr, nc := Max(rows, 0), Max(cols, 0);
    var views: seq<Bytes> := [];
    var i := 0;
    while i < nr
      invariant 0 <= i <= nr
      invariant |views| == i * nc
      invariant forall k :: 0 <= k < |views| ==> views[k] == crop(BoxAt(k, cols, cw, ch, padding))
    {
      var j := 0;
      while j < nc
        invariant 0 <= j <= nc
        invariant |views| == i * nc + j
        invariant forall k :: 0 <= k < |views| ==> views[k] == crop(BoxAt(k, cols, cw, ch, padding))
      {
        RowMajor(i, j, nc);
        assert BoxAt(i * nc + j, cols, cw, ch, padding) == Cell(i, j, cw, ch, padding);
        views := views + [crop(Cell(i, j, cw, ch, padding))];
        j := j + 1;
      }
      assert (i + 1) * nc == i * nc + nc;
      i := i + 1;
    }
    return Ok(views);
  }

  /** The default 2 x 3 split of a 300 x 200 image gives six 100 x 100 views. */
  lemma SixViewsOfDefaultGrid()
    ensures var g := GridBoxes(300, 200, 2, 3, 0);
      g.Ok? && |g.value| == 6 &&
      g.value[0] == Box(0, 0, 100, 100) && g.value[1] == Box(100, 0, 200, 100) &&
      g.value[2] == Box(200, 0, 300, 100) && g.value[3] == Box(0, 100, 100, 200) &&
      g.value[4] == Box(100, 100, 200, 200) && g.value[5] == Box(200, 100, 300, 200)
  {
    DefaultCellSizes();
    GridBoxAt(300, 200, 2, 3, 0, 0, 0);
    GridBoxAt(300, 200, 2, 3, 0, 0, 1);
    GridBoxAt(300, 200, 2, 3, 0, 0, 2);
    GridBoxAt(300, 200, 2, 3, 0, 1, 0);
    GridBoxAt(300, 200, 2, 3, 0, 1, 1);
    GridBoxAt(300, 200, 2, 3, 0, 1, 2);
  }

  lemma DefaultCellSizes()
    ensures CellSize(300, 3, 0) == 100 && CellSize(200, 2, 0) == 100
  {
  }

  /** With non-negative padding every box's right and bottom edges stay within the image,
      and consecutive columns do not overlap. */
  lemma CellsInsideImage(w: nat, h: nat, rows: nat, cols: nat, padding: nat, r: nat, c: nat)
    requires r < rows && c < cols
    ensures var cw, ch := CellSize(w, cols, padding), CellSize(h, rows, padding);
      var b := Cell(r, c, cw, ch, padding);
      b.right <= w && b.bottom <= h &&
      (c + 1 < cols ==> b.right <= Cell(r, c + 1, cw, ch, padding).left)
  {
    var cw, ch := CellSize(w, cols, padding), CellSize(h, rows, padding);
    FitsAlongAxis(w, cols, padding, c);
    FitsAlongAxis(h, rows, padding, r);
    assert (c + 1) * (cw + padding) == c * (cw + padding) + cw + padding;
  }

  /** Along one axis: cell `i` of `n` ends at or before `dim`. */
  lemma FitsAlongAxis(dim: nat, n: nat, padding: nat, i: nat)
    requires i < n
    ensures i * (CellSize(dim, n, padding) + padding) + CellSize(dim, n, padding) <= dim
  {
    var s := CellSize(dim, n, padding);
    assert s * n <= dim - padding * (n - 1);
    if s + padding >= 0 {
      MulLeft(i, n - 1, s + padding);
      assert (n - 1) * (s + padding) + s == s * n + padding * (n - 1);
    } else {
      MulLeft(0, i, -(s + padding));
    }
  }

  /** When the gaps alone fit in the image, every box lies wholly inside it: no negative
      cell size, no edge before the origin and none past the far side. */
  lemma CellsWithinImage(w: nat, h: nat, rows: nat, cols: nat, padding: nat, r: nat, c: nat)
    requires r < rows && c < cols
    requires padding * (cols - 1) <= w && padding * (rows - 1) <= h
    ensures var b := Cell(r, c, CellSize(w, cols, padding), CellSize(h, rows, padding), padding);
      0 <= b.left <= b.right <= w && 0 <= b.top <= b.bottom <= h
  {
    WithinAlongAxis(w, cols, padding, c);
    WithinAlongAxis(h, rows, padding, r);
  }

  /** Along one axis, when the gaps fit: cell `i` of `n` has a non-negative size and starts
      at or after 0. */
  lemma WithinAlongAxis(dim: nat, n: nat, padding: nat, i: nat)
    requires i < n && padding * (n - 1) <= dim
    ensures var s := CellSize(dim, n, padding);
      0 <= s && 0 <= i * (s + padding) && i * (s + padding) + s <= dim
  {
    var s := CellSize(dim, n, padding);
    FitsAlongAxis(dim, n, padding, i);
    MulLeft(0, i, s + padding);
  }
}
