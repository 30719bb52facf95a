/** The Go SDK's image-input helpers: building a `data:` URL from an image input, parsing one
    back, and recognising http(s) URLs. The format is the `data:<mime>;base64,<data>` form of
    section 3 of RFC 2397, except that a missing type defaults to "image/png" rather than
    RFC 2397's "text/plain". */
module DataUrl {
  import opened Base
  import opened Text

  /** An image given by URL, by base64 data, or both; `MediaType` may be blank. */
  datatype ImageInput = ImageInput(url: string, base64: string, mediaType: string)

  const DefaultMime := "image/png"

  /** The trimmed media type, or "image/png" when it is blank. */
  function MimeOr(mediaType: string): (m: string)
    ensures m != ""
    ensures Trim(mediaType, GoSpaces) != "" ==> m == Trim(mediaType, GoSpaces)
  {
    var t := Trim(mediaType, GoSpaces);
    if t == "" then DefaultMime else t
  }

  /** `imageInputToDataURL`: a non-blank URL is returned as is; otherwise blank data gives ""
      and non-blank data a `data:` URL over the untrimmed base64 text. */
  function ImageInputToDataURL(x: ImageInput): (r: string)
    ensures Trim(x.url, GoSpaces) != "" ==> r == x.url
    ensures Trim(x.url, GoSpaces) == "" && Trim(x.base64, GoSpaces) == "" ==> r == ""
    ensures Trim(x.url, GoSpaces) == "" && Trim(x.base64, GoSpaces) != "" ==>
      StartsWith(r, "data:") && r == "data:" + MimeOr(x.mediaType) + ";base64," + x.base64
  {
    if Trim(x.url, GoSpaces) != "" then x.url
    else if Trim(x.base64, GoSpaces) == "" then ""
    else
      var rest := MimeOr(x.mediaType) + ";base64," + x.base64;
      StartsWithConcat("data:", rest);
      assert "data:" + rest == "data:" + MimeOr(x.mediaType) + ";base64," + x.base64;
      "data:" + rest
  }

  /** The result of `parseDataURL`: `ok` false leaves both strings empty. */
  datatype Parsed = Parsed(mime: string, data: string, ok: bool)

  /** `parseDataURL`: accepted only with the "data:" prefix and a comma; the data is all that
      follows the first comma, and the type is the metadata up to its first `;`, or
      "image/png" when that is empty. */
  function ParseDataURL(raw: string): (r: Parsed)
    ensures r.ok <==> StartsWith(raw, "data:") && IndexOf(raw, ',').Some?
    ensures !r.ok ==> r == Parsed("", "", false)
    ensures r.ok ==> var i := IndexOf(raw, ',').value;
      5 <= i && r.data == raw[i + 1..] &&
      r.mime == (if Before(raw[5..i], ';') == "" then DefaultMime else Before(raw[5..i], ';'))
    ensures r.ok ==> r.mime != "" && forall k :: 0 <= k < |r.mime| ==> r.mime[k] != ';' && r.mime[k] != ','
  {
    if !StartsWith(raw, "data:") then Parsed("", "", false)
    else
      match IndexOf(raw, ',')
      case None => Parsed("", "", false)
      case Some(i) =>
        assert raw[..5] == "data:";
        assert i >= 5;
        var meta := raw[5..i];
        var mime := Before(meta, ';');
        assert forall k :: 0 <= k < |mime| ==> mime[k] == meta[k] && meta[k] == raw[5 + k];
        Parsed(if mime == "" then DefaultMime else mime, raw[i + 1..], true)
  }

  /** A media type that can sit between "data:" and ";base64,": no `,` and no `;`. */
  predicate Plain(m: string) {
    forall k :: 0 <= k < |m| ==> m[k] != ',' && m[k] != ';'
  }

  /** Round trip: for a blank URL, non-blank data and a media type without `,` or `;`,
      parsing the built URL gives back the (defaulted) type and the data. */
  lemma DataUrlRoundTrip(x: ImageInput)
    requires Trim(x.url, GoSpaces) == "" && Trim(x.base64, GoSpaces) != ""
    requires forall k :: 0 <= k < |Trim(x.mediaType, GoSpaces)| ==> Trim(x.mediaType, GoSpaces)[k] != ',' && Trim(x.mediaType, GoSpaces)[k] != ';'
    ensures ParseDataURL(ImageInputToDataURL(x)) == Parsed(MimeOr(x.mediaType), x.base64, true)
  {
    var m := MimeOr(x.mediaType);
    var raw := ImageInputToDataURL(x);
    assert raw == "data:" + m + ";base64," + x.base64;
    MimeOrPlain(x.mediaType, m);
    ParseBuiltDataUrl(m, x.base64, raw);
  }

  /** The defaulted type is plain whenever the given one is. */
  lemma MimeOrPlain(mediaType: string, m: string)
    requires Plain(Trim(mediaType, GoSpaces)) && m == MimeOr(mediaType)
    ensures m != [] && Plain(m)
  {
    if Trim(mediaType, GoSpaces) == "" {
      assert m == DefaultMime;
    }
  }

  /** The parsing half of the round trip, for any type without `,` or `;`. */
  lemma ParseBuiltDataUrl(m: string, data: string, raw: string)
    requires m != [] && Plain(m)
    requires raw == "data:" + m + ";base64," + data
    ensures ParseDataURL(raw) == Parsed(m, data, true)
  {
    BuiltUrlPieces(m, data, raw);
    BeforeAfterPrefix(m, ";base64", ';');
  }

  /** Where the parser cuts a built URL: its first comma ends ";base64". */
  lemma BuiltUrlPieces(m: string, data: string, raw: string)
    requires Plain(m)
    requires raw == "data:" + m + ";base64," + data
    ensures StartsWith(raw, "data:")
    ensures IndexOf(raw, ',') == Some(|m| + 12)
    ensures raw[5..|m| + 12] == m + ";base64" && raw[|m| + 13..] == data
  {
    var head := "data:" + m + ";base64";
    var tail := "," + data;
    SplitAtComma(m, data, raw, head, tail);
    HeadHasNoComma(m, head);
    IndexOfAfterPrefix(head, tail, ',');
    assert raw[..5] == head[..5];
    assert raw[5..|m| + 12] == head[5..];
  }

  lemma SplitAtComma(m: string, data: string, raw: string, head: string, tail: string)
    requires raw == "data:" + m + ";base64," + data
    requires head == "data:" + m + ";base64" && tail == "," + data
    ensures raw == head + tail && |head| == |m| + 12
    ensures raw[|m| + 13..] == data
  {
  }

  lemma HeadHasNoComma(m: string, head: string)
    requires Plain(m) && head == "data:" + m + ";base64"
    ensures forall k :: 0 <= k < |head| ==> head[k] != ','
  {
    forall k | 0 <= k < |head| ensures head[k] != ',' {
      if 5 <= k < 5 + |m| {
        assert head[k] == m[k - 5];
      }
    }
  }

  /** `isHTTPURL`: the string starts with "http://" or "https://". */
  function IsHTTPURL(raw: string): bool {
    StartsWith(raw, "http://") || StartsWith(raw, "https://")
  }

  /** An http(s) URL is never taken for a `data:` URL, so the two dispatches cannot
      disagree. */
  lemma HttpUrlIsNotDataUrl(raw: string)
    requires IsHTTPURL(raw)
    ensures !ParseDataURL(raw).ok
  {
    assert raw[0] == 'h';
  }

  /** A URL given together with data wins, even when it is not an http URL. */
  lemma UrlTakesPrecedence(url: string, data: string, mediaType: string)
    requires Trim(url, GoSpaces) != ""
    ensures ImageInputToDataURL(ImageInput(url, data, mediaType)) == url
  {
  }
}
