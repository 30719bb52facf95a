/** The HTTP helpers both Python packages share: one request, then a status check that turns
    any status of 400 or more into a classified `KitError`. The transport (`requests.request`)
    is a parameter `send` from the request sent to the response received, and the status
    classifier (`classify_status`) is a parameter `classify`. */
module Http {
  import opened Base
  import opened Text
  import opened Errors

  /** A file part of a multipart body: `(filename, content, content type)`. */
  datatype FileTuple = FileTuple(filename: string, content: Bytes, contentType: string)

  /** What goes in the body: a JSON document, or form data plus optional files. `J` stands
      for JSON values. */
  datatype Payload<J> =
    | JsonBody(json: Option<J>)
    | MultipartBody(data: Option<J>, files: Option<map<string, FileTuple>>)

  /** The arguments handed to the transport; `verb` is the HTTP method. */
  datatype Request<J> = Request(
    verb: string,
    url: string,
    headers: map<string, string>,
    payload: Payload<J>,
    timeout: Option<real>,
    stream: bool
  )

  /** What the transport returns: the status, the body text (`None` when absent) and the
      parsed JSON body. */
  datatype Response<J> = Response(statusCode: int, text: Option<string>, json: J)

  /** The message used when the body is blank: "Upstream HTTP {status} for {url}". */
  function FallbackMessage(status: nat, url: string): (m: string)
    ensures StartsWith(m, "Upstream HTTP ")
    ensures Contains(m, NatToString(status)) && Contains(m, url)
  {
    var m := "Upstream HTTP " + NatToString(status) + " for " + url;
    assert m[..14] == "Upstream HTTP ";
    ContainsInfix("Upstream HTTP ", NatToString(status), " for " + url);
    assert m == "Upstream HTTP " + NatToString(status) + (" for " + url);
    ContainsInfix("Upstream HTTP " + NatToString(status) + " for ", url, "");
    assert m == "Upstream HTTP " + NatToString(status) + " for " + url + "";
    m
  }

  /** The error raised for a failed status: its kind is the classifier's verdict, it records
      the status and no provider, and its message is the body with surrounding whitespace
      removed, or the fallback naming the status and URL when the body is missing or blank. The
      message is never empty. */
  function UpstreamError(classify: int -> ErrorKind, status: int, text: Option<string>, url: string): (e: KitError)
    requires status >= 400
    ensures e.kind == classify(status) && e.upstreamStatus == Some(status) && e.provider.None?
    ensures e.message != ""
    ensures !AllSpace(text.GetOr(""), PySpaces) ==> e.message == Trim(text.GetOr(""), PySpaces)
    ensures AllSpace(text.GetOr(""), PySpaces) ==> e.message == FallbackMessage(status, url)
    ensures AllSpace(text.GetOr(""), PySpaces) ==>
      Contains(e.message, NatToString(status)) && Contains(e.message, url)
  {
    var body := Trim(text.GetOr(""), PySpaces);
    var message := if body != "" then body else FallbackMessage(status, url);
    KitError(classify(status), message, None, Some(status))
  }

  /** The status rule shared by every helper: 400 and above is an error, anything lower hands
      back `success`. */
  function Checked<T, J>(classify: int -> ErrorKind, url: string, resp: Response<J>, success: T): (r: Result<T, KitError>)
    ensures r.Ok? <==> resp.statusCode < 400
    ensures r.Ok? ==> r.value == success
    ensures r.Err? ==> r.error == UpstreamError(classify, resp.statusCode, resp.text, url)
  {
    if resp.statusCode >= 400 then Err(UpstreamError(classify, resp.statusCode, resp.text, url))
    else Ok(success)
  }

  /** `request_json`: sends a JSON body, not streamed; on success the parsed body. */
  function RequestJson<J>(classify: int -> ErrorKind, send: Request<J> -> Response<J>,
                          verb: string, url: string, headers: map<string, string>,
                          jsonBody: Option<J>, timeout: Option<real>): (r: Result<J, KitError>)
    ensures var resp := send(Request(verb, url, headers, JsonBody(jsonBody), timeout, false));
      && (r.Ok? <==> resp.statusCode < 400)
      && (r.Ok? ==> r.value == resp.json)
      && (r.Err? ==> r.error == UpstreamError(classify, resp.statusCode, resp.text, url))
  {
    var resp := send(Request(verb, url, headers, JsonBody(jsonBody), timeout, false));
    Checked(classify, url, resp, resp.json)
  }

  /** `request_stream`: the same request with streaming asked for; on success the response
      itself, unread. */
  function RequestStream<J>(classify: int -> ErrorKind, send: Request<J> -> Response<J>,
                            verb: string, url: string, headers: map<string, string>,
                            jsonBody: Option<J>, timeout: Option<real>): (r: Result<Response<J>, KitError>)
    ensures var resp := send(Request(verb, url, headers, JsonBody(jsonBody), timeout, true));
      && (r.Ok? <==> resp.statusCode < 400)
      && (r.Ok? ==> r.value == resp)
      && (r.Err? ==> r.error == UpstreamError(classify, resp.statusCode, resp.text, url))
  {
    var resp := send(Request(verb, url, headers, JsonBody(jsonBody), timeout, true));
    Checked(classify, url, resp, resp)
  }

  /** The `files` argument of a multipart request: none without a file field, otherwise a
      one-entry map from the field name to its file. */
  function MultipartFiles(fileField: Option<(string, FileTuple)>): (r: Option<map<string, FileTuple>>)
    ensures r.None? <==> fileField.None?
    ensures r.Some? ==> (|r.value| == 1 && fileField.value.0 in r.value
      && r.value[fileField.value.0] == fileField.value.1)
  {
    match fileField
    case None => None
    case Some((name, file)) => Some(map[name := file])
  }

  /** `request_multipart`: sends form data and the optional file, not streamed; on success the
      parsed body. */
  function RequestMultipart<J>(classify: int -> ErrorKind, send: Request<J> -> Response<J>,
                               verb: string, url: string, headers: map<string, string>,
                               data: Option<J>, fileField: Option<(string, FileTuple)>,
                               timeout: Option<real>): (r: Result<J, KitError>)
    ensures var resp := send(Request(verb, url, headers, MultipartBody(data, MultipartFiles(fileField)), timeout, false));
      && (r.Ok? <==> resp.statusCode < 400)
      && (r.Ok? ==> r.value == resp.json)
      && (r.Err? ==> r.error == UpstreamError(classify, resp.statusCode, resp.text, url))
  {
    var resp := send(Request(verb, url, headers, MultipartBody(data, MultipartFiles(fileField)), timeout, false));
    Checked(classify, url, resp, resp.json)
  }

  /** The three helpers treat a failed status alike: whichever one met it, a response with
      status 400 or more becomes the same error, and one below 400 is never an error. */
  lemma SameErrorRule<J>(classify: int -> ErrorKind, verb: string, url: string,
                         headers: map<string, string>, jsonBody: Option<J>, data: Option<J>,
                         fileField: Option<(string, FileTuple)>, timeout: Option<real>,
                         resp: Response<J>)
    ensures var send := (req: Request<J>) => resp;
      var a := RequestJson(classify, send, verb, url, headers, jsonBody, timeout);
      var b := RequestStream(classify, send, verb, url, headers, jsonBody, timeout);
      var c := RequestMultipart(classify, send, verb, url, headers, data, fileField, timeout);
      && (a.Err? <==> resp.statusCode >= 400) && (b.Err? <==> a.Err?) && (c.Err? <==> a.Err?)
      && (a.Err? ==> a.error == b.error == c.error)
  {
  }

  /** A whitespace-only body counts as no body: the error falls back to naming the status and
      the URL, exactly as a missing body does. */
  lemma BlankBodyIsNoBody(classify: int -> ErrorKind, status: int, blank: string, url: string)
    requires status >= 400 && AllSpace(blank, PySpaces)
    ensures UpstreamError(classify, status, Some(blank), url) == UpstreamError(classify, status, None, url)
  {
  }

  /** Python's `strip()` also removes the ASCII separators `\x1c`-`\x1f`: a body made only of
      them counts as blank. */
  lemma SeparatorBodyIsBlank(classify: int -> ErrorKind, status: int, url: string)
    requires status >= 400
    ensures UpstreamError(classify, status, Some("\U{1C}\U{1F}"), url).message == FallbackMessage(status, url)
  {
    assert AllSpace("\U{1C}\U{1F}", PySpaces);
  }
}
