/** The local Whisper transcriber: where the audio comes from, how a base64 / `data:` payload
    is split into bytes and a media type, which file suffix the temporary copy gets, when that
    copy is deleted, and how Whisper's raw segments become the output. Base64 decoding, the
    URL fetch, temporary-file naming and Whisper itself are oracles. */
module Transcriber {
  import opened Base
  import opened Text
  import opened Errors

  /** Python truthiness of an optional string. */
  predicate Present(s: Option<string>) {
    s.Some? && s.value != ""
  }

  // ---------------------------------------------------------------- media types

  /** The substring tests `_suffix_for_media` makes, in order, with the suffix each picks. */
  const SuffixTable: seq<(string, string)> := [
    ("wav", ".wav"), ("mpeg", ".mp3"), ("mp4", ".mp4"), ("webm", ".webm"), ("ogg", ".ogg")
  ]

  const FallbackSuffix := ".audio"

  /** Entry `i` of `table` is the first whose marker occurs in `m`. */
  predicate FirstMarker(m: string, table: seq<(string, string)>, i: int) {
    0 <= i < |table| && Contains(m, table[i].0) &&
    forall j :: 0 <= j < i ==> !Contains(m, table[j].0)
  }

  function MatchSuffix(m: string, table: seq<(string, string)>): (r: Option<string>)
    ensures r.None? <==> forall j :: 0 <= j < |table| ==> !Contains(m, table[j].0)
    ensures r.Some? ==> exists i :: FirstMarker(m, table, i) && table[i].1 == r.value
    decreases |table|
  {
    if table == [] then None
    else if Contains(m, table[0].0) then
      assert FirstMarker(m, table, 0);
      Some(table[0].1)
    else
      var r := MatchSuffix(m, table[1..]);
      if r.Some? then
        var i :| FirstMarker(m, table[1..], i) && table[1..][i].1 == r.value;
        assert FirstMarker(m, table, i + 1);
        r
      else r
  }

  /** `_suffix_for_media`: the suffix of the first marker the lower-cased type contains;
      ".audio" for a missing or empty type, or when none matches. */
  function SuffixForMedia(mediaType: Option<string>): (r: string)
    ensures !Present(mediaType) ==> r == FallbackSuffix
    ensures Present(mediaType) ==>
      (r == FallbackSuffix <==> forall j :: 0 <= j < |SuffixTable| ==> !Contains(Lower(mediaType.value), SuffixTable[j].0))
    ensures Present(mediaType) && r != FallbackSuffix ==>
      exists i :: FirstMarker(Lower(mediaType.value), SuffixTable, i) && SuffixTable[i].1 == r
  {
    if !Present(mediaType) then FallbackSuffix
    else
      match MatchSuffix(Lower(mediaType.value), SuffixTable)
      case Some(sfx) =>
        assert forall i :: 0 <= i < |SuffixTable| ==> SuffixTable[i].1 != FallbackSuffix;
        sfx
      case None => FallbackSuffix
  }

  /** A string lacking one of `sub`'s characters does not contain `sub`. */
  lemma MissingCharacter(s: string, sub: string, j: nat)
    requires j < |sub|
    requires forall k :: 0 <= k < |s| ==> s[k] != sub[j]
    ensures !Contains(s, sub)
  {
    if Contains(s, sub) {
      var i :| 0 <= i <= |s| - |sub| && OccursAt(s, sub, i);
      SliceAt(s, i, i + |sub|, j);
      assert false;
    }
  }

  lemma SliceAt(s: string, lo: int, hi: int, j: int)
    requires 0 <= lo <= hi <= |s| && 0 <= j < hi - lo
    ensures s[lo..hi][j] == s[lo + j]
  {
  }

  /** Case is ignored, the order of the tests decides, and unknown types fall back. */
  lemma SuffixExamples()
    ensures SuffixForMedia(Some("audio/WAV")) == ".wav"
    ensures SuffixForMedia(Some("video/mp4")) == ".mp4"
    ensures SuffixForMedia(Some("")) == ".audio"
    ensures SuffixForMedia(None) == ".audio"
  {
    var wav := Lower("audio/WAV");
    assert wav == "audio/wav";
    assert OccursAt(wav, "wav", 6);
    var mp4 := Lower("video/mp4");
    assert mp4 == "video/mp4";
    MissingCharacter(mp4, "wav", 0);
    MissingCharacter(mp4, "mpeg", 3);
    assert OccursAt(mp4, "mp4", 6);
    assert FirstMarker(mp4, SuffixTable, 2);
  }

  // ---------------------------------------------------------------- base64 payloads

  /** `_decode_base64` before the actual decoding: the payload to decode and the media type.
      A `data:` input's payload is everything after its first comma ("" when there is none);
      its header's type is used only when no explicit type was given and the header has a
      `;`. An explicit non-empty type always wins, and an empty type becomes
      "application/octet-stream". */
  function SplitBase64(raw: string, explicitType: Option<string>): (r: (string, string))
    ensures r.1 != ""
    ensures Present(explicitType) ==> r.1 == explicitType.value
    ensures !StartsWith(raw, "data:") ==> r.0 == raw
    ensures !StartsWith(raw, "data:") && !Present(explicitType) ==> r.1 == "application/octet-stream"
    ensures StartsWith(raw, "data:") ==> match IndexOf(raw, ',')
      case Some(i) => r.0 == raw[i + 1..]
      case None => r.0 == ""
    ensures StartsWith(raw, "data:") && !Present(explicitType) ==>
      var t := HeaderType(Before(raw, ','));
      r.1 == if t != "" then t else "application/octet-stream"
  {
    var mediaType := explicitType.GetOr("");
    if StartsWith(raw, "data:") then
      var header := Before(raw, ',');
      var payload := if |header| < |raw| then raw[|header| + 1..] else "";
      assert |header| < |raw| <==> IndexOf(raw, ',').Some?;
      var fromHeader := if mediaType == "" then HeaderType(header) else mediaType;
      (payload, if fromHeader == "" then "application/octet-stream" else fromHeader)
    else
      (raw, if mediaType == "" then "application/octet-stream" else mediaType)
  }

  /** The type a `data:` header names: the text before its first `;`, with every "data:"
      removed; "" when the header has no `;`. */
  function HeaderType(header: string): string {
    if IndexOf(header, ';').Some? then RemoveAll(Before(header, ';'), "data:") else ""
  }

  /** The payloads the Go helper builds read back: `data:{type};base64,{data}` splits into
      `data` and `type` when the type has no `,` or `;` and does not contain "data:". */
  lemma SplitBase64ReadsDataUrl(mediaType: string, data: string)
    requires mediaType != ""
    requires forall k :: 0 <= k < |mediaType| ==> mediaType[k] != ',' && mediaType[k] != ';'
    requires !Contains(mediaType, "data:")
    ensures SplitBase64("data:" + mediaType + ";base64," + data, None) == (data, mediaType)
  {
    var raw := "data:" + mediaType + ";base64," + data;
    var typed := "data:" + mediaType;
    var header := typed + ";base64";
    var tail := "," + data;
    HeaderOfBuiltPayload(mediaType, data, raw, typed, header, tail);
    StartsWithConcat("data:", mediaType + ";base64," + data);
    IndexOfAfterPrefix(header, tail, ',');
    BeforeAfterPrefix(header, tail, ',');
    IndexOfAfterPrefix(typed, ";base64", ';');
    BeforeAfterPrefix(typed, ";base64", ';');
    RemoveLeadingDataPrefix(mediaType);
  }

  /** How a built payload splits: the header up to its first comma, and the data after it. */
  lemma HeaderOfBuiltPayload(mediaType: string, data: string, raw: string, typed: string, header: string, tail: string)
    requires forall k :: 0 <= k < |mediaType| ==> mediaType[k] != ',' && mediaType[k] != ';'
    requires raw == "data:" + mediaType + ";base64," + data
    requires typed == "data:" + mediaType && header == typed + ";base64" && tail == "," + data
    ensures raw == header + tail && raw == "data:" + (mediaType + ";base64," + data)
    ensures raw[|header| + 1..] == data
    ensures forall k :: 0 <= k < |header| ==> header[k] != ','
    ensures forall k :: 0 <= k < |typed| ==> typed[k] != ';'
  {
    forall k | 0 <= k < |header| ensures header[k] != ',' && (k < |typed| ==> typed[k] != ';') {
      if 5 <= k < |typed| {
        assert header[k] == typed[k] == mediaType[k - 5];
      }
    }
  }

  lemma RemoveLeadingDataPrefix(mediaType: string)
    requires !Contains(mediaType, "data:")
    ensures RemoveAll("data:" + mediaType, "data:") == mediaType
  {
    var s := "data:" + mediaType;
    assert StartsWith(s, "data:");
    assert s[5..] == mediaType;
  }

  // ---------------------------------------------------------------- materialising audio

  datatype AudioInput = AudioInput(
    url: Option<string>,
    base64: Option<string>,
    path: Option<string>,
    mediaType: Option<string>
  )

  /** What a URL fetch returns: the body and its `content-type` header, if any. */
  datatype Fetched = Fetched(body: Bytes, contentType: Option<string>)

  datatype AudioIo = AudioIo(
    decode: string -> Option<Bytes>,              // base64.b64decode; None where it raises
    fetch: string -> Result<Fetched, string>,     // urlopen(url).read()
    tempFile: (Bytes, string) -> string           // name of a new temp file holding the bytes, with the suffix
  )

  datatype AudioError =
    | Invalid(error: KitError)
    | DecodeFailed(payload: string)
    | FetchFailed(reason: string)

  /** The file to transcribe and whether it must be deleted afterwards. */
  datatype AudioFile = AudioFile(path: string, cleanup: bool)

  const MissingAudioMessage := "Transcribe input requires audio.url, audio.base64, or audio.path"

  /** `_materialize_audio`: a path is used in place; base64 or a URL is written to a
      temporary file that must be cleaned up; with none of them the input is invalid. */
  function MaterializeAudio(audio: AudioInput, io: AudioIo): (r: Result<AudioFile, AudioError>)
    ensures Present(audio.path) ==> r == Ok(AudioFile(audio.path.value, false))
    ensures !Present(audio.path) && Present(audio.base64) ==>
      var (payload, mediaType) := SplitBase64(audio.base64.value, audio.mediaType);
      r == match io.decode(payload)
        case Some(b) => Ok(AudioFile(io.tempFile(b, SuffixForMedia(Some(mediaType))), true))
        case None => Err(DecodeFailed(payload))
    ensures !Present(audio.path) && !Present(audio.base64) && Present(audio.url) ==>
      r == match io.fetch(audio.url.value)
        case Ok(f) => Ok(AudioFile(io.tempFile(f.body, SuffixForMedia(if Present(audio.mediaType) then audio.mediaType else f.contentType)), true))
        case Err(e) => Err(FetchFailed(e))
    ensures !Present(audio.path) && !Present(audio.base64) && !Present(audio.url) ==>
      r == Err(Invalid(ValidationError(MissingAudioMessage, "local")))
    ensures r.Ok? ==> (r.value.cleanup <==> !Present(audio.path))
  {
    if Present(audio.path) then Ok(AudioFile(audio.path.value, false))
    else if Present(audio.base64) then
      var (payload, mediaType) := SplitBase64(audio.base64.value, audio.mediaType);
      match io.decode(payload)
      case Some(b) => Ok(AudioFile(io.tempFile(b, SuffixForMedia(Some(mediaType))), true))
      case None => Err(DecodeFailed(payload))
    else if Present(audio.url) then
      match io.fetch(audio.url.value)
      case Ok(f) =>
        var mediaType := if Present(audio.mediaType) then audio.mediaType else f.contentType;
        Ok(AudioFile(io.tempFile(f.body, SuffixForMedia(mediaType)), true))
      case Err(e) => Err(FetchFailed(e))
    else Err(Invalid(ValidationError(MissingAudioMessage, "local")))
  }

  /** Precedence of the audio sources: a path is used whatever base64 and URL hold, and
      base64 is used whatever the URL holds. */
  lemma AudioSourcePrecedence(audio: AudioInput, io: AudioIo, base64: Option<string>, url: Option<string>)
    ensures Present(audio.path) ==>
      MaterializeAudio(audio.(base64 := base64, url := url), io) == MaterializeAudio(audio, io)
    ensures !Present(audio.path) && Present(audio.base64) ==>
      MaterializeAudio(audio.(url := url), io) == MaterializeAudio(audio, io)
  {
  }

  // ---------------------------------------------------------------- transcribe

  /** One entry of Whisper's `segments`: a dict (its optional fields) or anything else. */
  datatype RawSegment = SegmentDict(start: Option<real>, end: Option<real>, text: Option<string>) | NotADict

  datatype WhisperResult = WhisperResult(
    text: Option<string>,
    language: Option<string>,
    duration: Option<real>,
    segments: Option<seq<RawSegment>>
  )

  datatype Segment = Segment(start: real, end: real, text: string)

  datatype TranscribeOutput = TranscribeOutput(
    text: Option<string>,
    language: Option<string>,
    duration: Option<real>,
    segments: Option<seq<Segment>>,
    raw: WhisperResult
  )

  /** The keyword arguments passed to Whisper (the fp16 flag aside). */
  datatype WhisperOptions = WhisperOptions(language: Option<string>, prompt: Option<string>, temperature: Option<real>)

  datatype TranscribeInput = TranscribeInput(
    model: Option<string>,
    audio: AudioInput,
    language: Option<string>,
    prompt: Option<string>,
    temperature: Option<real>
  )

  datatype LocalWhisperAdapter = LocalWhisperAdapter(defaultModel: string)

  const DefaultWhisperModel := "base"

  /** `LocalWhisperAdapter.__init__`: the given default model, else Whisper's "base". */
  function NewLocalWhisperAdapter(defaultModel: Option<string>): (a: LocalWhisperAdapter)
    ensures defaultModel.Some? ==> a.defaultModel == defaultModel.value
    ensures defaultModel.None? ==> a.defaultModel == "base"
  {
    LocalWhisperAdapter(defaultModel.GetOr(DefaultWhisperModel))
  }

  /** `input.model or self.default_model`. */
  function ModelName(a: LocalWhisperAdapter, input: TranscribeInput): (m: string)
    ensures Present(input.model) ==> m == input.model.value
    ensures !Present(input.model) ==> m == a.defaultModel
  {
    if Present(input.model) then input.model.value else a.defaultModel
  }

  /** Language and prompt are passed only when non-empty, temperature whenever it is set. */
  function OptionsFor(input: TranscribeInput): (o: WhisperOptions)
    ensures o.language.Some? <==> Present(input.language)
    ensures o.prompt.Some? <==> Present(input.prompt)
    ensures o.temperature == input.temperature
    ensures o.language.Some? ==> o.language == input.language
    ensures o.prompt.Some? ==> o.prompt == input.prompt
  {
    WhisperOptions(
      if Present(input.language) then input.language else None,
      if Present(input.prompt) then input.prompt else None,
      input.temperature)
  }

  /** A dict segment's fields, with 0 and "" for the missing ones. */
  function ToSegment(s: RawSegment): Segment
    requires s.SegmentDict?
  {
    Segment(s.start.GetOr(0.0), s.end.GetOr(0.0), s.text.GetOr(""))
  }

  /** The comprehension over Whisper's segments: dict entries only, in order. */
  function KeepSegments(raws: seq<RawSegment>): (r: seq<Segment>)
    ensures |r| <= |raws|
    ensures r == [] <==> forall i :: 0 <= i < |raws| ==> !raws[i].SegmentDict?
    decreases |raws|
  {
    if raws == [] then []
    else
      var rest := KeepSegments(raws[1..]);
      assert forall i :: 1 <= i < |raws| ==> raws[i] == raws[1..][i - 1];
      if raws[0].SegmentDict? then [ToSegment(raws[0])] + rest else rest
  }

  /** Filtering commutes with concatenation: kept segments keep their relative order. */
  lemma {:induction false} KeepSegmentsAppend(a: seq<RawSegment>, b: seq<RawSegment>)
    ensures KeepSegments(a + b) == KeepSegments(a) + KeepSegments(b)
    decreases |a|
  {
    if a == [] {
      assert a + b == b;
    } else {
      assert (a + b)[0] == a[0];
      assert (a + b)[1..] == a[1..] + b;
      KeepSegmentsAppend(a[1..], b);
    }
  }

  /** Segments made only of dicts are all kept, one for one. */
  lemma {:induction false} KeepSegmentsAllDicts(raws: seq<RawSegment>)
    requires forall i :: 0 <= i < |raws| ==> raws[i].SegmentDict?
    ensures |KeepSegments(raws)| == |raws|
    ensures forall i :: 0 <= i < |raws| ==> KeepSegments(raws)[i] == ToSegment(raws[i])
    decreases |raws|
  {
    if raws != [] {
      KeepSegmentsAllDicts(raws[1..]);
    }
  }

  /** `segments or None`. */
  function OutputSegments(raw: WhisperResult): (r: Option<seq<Segment>>)
    ensures r.Some? ==> r.value != []
    ensures r.None? <==> raw.segments.None? || KeepSegments(raw.segments.value) == []
    ensures r.Some? ==> raw.segments.Some? && r.value == KeepSegments(raw.segments.value)
  {
    var kept := KeepSegments(raw.segments.GetOr([]));
    if kept == [] then None else Some(kept)
  }

  /** One `transcribe` call: the outcome and the file deleted in the `finally`, if any. */
  datatype TranscribeRun = TranscribeRun(outcome: Result<TranscribeOutput, TranscribeFailure>, deleted: Option<string>)

  datatype TranscribeFailure = AudioFailed(audio: AudioError) | WhisperFailed(reason: string)

  /** `transcribe`. `whisper(model, path, options)` is the loaded model's `transcribe`. A
      temporary file is deleted exactly when the audio was materialised with cleanup, whether
      Whisper succeeded or raised. */
  function Transcribe(
    a: LocalWhisperAdapter, input: TranscribeInput, io: AudioIo,
    whisper: (string, string, WhisperOptions) -> Result<WhisperResult, string>): (r: TranscribeRun)
    ensures MaterializeAudio(input.audio, io).Err? ==>
      r == TranscribeRun(Err(AudioFailed(MaterializeAudio(input.audio, io).error)), None)
    ensures MaterializeAudio(input.audio, io).Ok? ==>
      var f := MaterializeAudio(input.audio, io).value;
      (r.deleted.Some? <==> f.cleanup) && (r.deleted.Some? ==> r.deleted.value == f.path) &&
      (f.cleanup <==> !Present(input.audio.path))
    ensures MaterializeAudio(input.audio, io).Ok? ==>
      var f := MaterializeAudio(input.audio, io).value;
      var w := whisper(ModelName(a, input), f.path, OptionsFor(input));
      (r.outcome.Ok? <==> w.Ok?) && (w.Err? ==> r.outcome == Err(WhisperFailed(w.error)))
    ensures r.outcome.Ok? ==> (MaterializeAudio(input.audio, io).Ok? &&
      var f := MaterializeAudio(input.audio, io).value;
      whisper(ModelName(a, input), f.path, OptionsFor(input)).Ok? &&
      var raw := whisper(ModelName(a, input), f.path, OptionsFor(input)).value;
      r.outcome.value.segments == OutputSegments(raw) && r.outcome.value.raw == raw &&
      r.outcome.value.text == raw.text && r.outcome.value.language == raw.language &&
      r.outcome.value.duration == raw.duration)
  {
    match MaterializeAudio(input.audio, io)
    case Err(e) => TranscribeRun(Err(AudioFailed(e)), None)
    case Ok(f) =>
      var deleted := if f.cleanup then Some(f.path) else None;
      match whisper(ModelName(a, input), f.path, OptionsFor(input))
      case Err(reason) => TranscribeRun(Err(WhisperFailed(reason)), deleted)
      case Ok(raw) =>
        TranscribeRun(Ok(TranscribeOutput(raw.text, raw.language, raw.duration, OutputSegments(raw), raw)), deleted)
  }

  /** A caller's own file is never deleted, even when Whisper fails. */
  lemma CallerPathIsKept(
    a: LocalWhisperAdapter, input: TranscribeInput, io: AudioIo,
    whisper: (string, string, WhisperOptions) -> Result<WhisperResult, string>)
    requires Present(input.audio.path)
    ensures Transcribe(a, input, io, whisper).deleted.None?
    ensures Transcribe(a, input, io, whisper).outcome.Ok? <==>
      whisper(ModelName(a, input), input.audio.path.value, OptionsFor(input)).Ok?
  {
  }
}
