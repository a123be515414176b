/** The Flask proxy (`server.py`): the `/synthesize` decision logic and the
    `/health` report, as pure functions of the parsed request body, the
    configured API key and what the upstream text-to-speech service did.
    Nothing here performs the HTTP call; `Synthesize` returns the call it
    would make. */
module Server {
  import opened Wrappers
  import opened Text
  import opened JsonValue

  const Endpoint: string := "https://texttospeech.googleapis.com/v1beta1/text:synthesize"
  const UpstreamTimeout: nat := 30
  /** The path and query of the upstream URL, as a connection error quotes
      it, up to the key. */
  const QueryPath: string := "/v1beta1/text:synthesize?key="

  const TextRequiredMessage: string := "Text is required"
  // written in pieces so that the verifier can look inside the literal
  const MissingKeyMessage: string :=
    "Google Cloud " + "API key" + " not configured. Please set GOOGLE_CLOUD_API_KEY environment variable."
  const TimeoutMessage: string := "Request" + " timeout. Please " + "try again."

  const DefaultVoice: string := "Kore"
  const DefaultLanguage: string := "en-US"
  const DefaultModel: string := "gemini-2.5-pro-preview-tts"
  const DefaultPitch: Json := JInt(0)
  const DefaultRate: Json := JFloat(1.0)

  /** What `request.get_json()` gave: the decoded body, or the exception it
      raised (an unsupported media type or a body that is not JSON). */
  datatype RequestBody = Parsed(json: Json) | Unparseable(reason: string)

  /** What `requests.post` to the upstream service did. A reply carries the
      status, the body text and what `response.json()` makes of it (its
      decoding error otherwise). `TimedOut` is `requests.exceptions.Timeout`,
      `ConnectionFailed` any other `RequestException`, `Crashed` any other
      exception. The text of a `RequestException` raised by the connection
      pool ("Max retries exceeded with url: ...") quotes the request path
      with its query, key included: `quotesUrl` says whether it does, and
      the text is `before`, then that path when it does, then `after`. */
  datatype Upstream =
    | Replied(status: int, text: string, json: Result<Json, string>)
    | TimedOut
    | ConnectionFailed(before: string, quotesUrl: bool, after: string)
    | Crashed(reason: string)

  /** The JSON record the endpoint answers with. */
  datatype Reply =
    | Success(audioContent: Json, timepoints: Json)
    | Failure(error: string, mockAudio: bool)

  /** The upstream request: URL (with the key in its query), JSON payload
      and timeout in seconds. */
  datatype UpstreamCall = UpstreamCall(url: string, payload: Json, timeout: nat)

  /** The HTTP status and reply, and the upstream call made on the way. */
  datatype Exchange = Exchange(status: int, reply: Reply, call: Option<UpstreamCall>)

  /** `not GOOGLE_CLOUD_API_KEY` is false: the variable is set and non-empty. */
  predicate KeyConfigured(key: Option<string>) {
    key.Some? && key.value != []
  }

  /** The request lacks text: the body is falsy, or `'text' in data` is
      false for the dict, list or string it is. */
  predicate LacksText(data: Json) {
    !PyTruthy(data)
    || (data.JObject? && "text" !in data.fields)
    || (data.JArray? && JString("text") !in data.items)
    || (data.JString? && !Contains(data.s, "text"))
  }

  /** Python's `'text' in data` on a truthy decoded body: key membership for
      a dict, element equality for a list, substring search for a string,
      and a `TypeError` for a number or `True`. */
  function TextIn(data: Json): (r: Result<bool, string>)
    requires PyTruthy(data)
    ensures r.Err? <==> !(data.JObject? || data.JArray? || data.JString?)
    ensures r == Ok(false) <==> LacksText(data)
  {
    match data
    case JObject(fields) => Ok("text" in fields)
    case JArray(items) => Ok(JString("text") in items)
    case JString(s) => Ok(Contains(s, "text"))
    case _ => Err("argument of type '" + PyTypeName(data) + "' is not iterable")
  }

  /** The Google Cloud request built from the resolved values. */
  function Payload(text: Json, voice: Json, language: Json, model: Json, pitch: Json, rate: Json): Json {
    JObject(map[
      "audioConfig" := JObject(map[
        "audioEncoding" := JString("LINEAR16"),
        "pitch" := pitch,
        "speakingRate" := rate,
        "enableTimePointing" := JArray([JString("SSML")])]),
      "input" := JObject(map["text" := text]),
      "voice" := JObject(map[
        "languageCode" := language,
        "modelName" := model,
        "name" := voice])])
  }

  /** The value at a path of object keys, if every step is an object that
      has the key. */
  function At(j: Json, path: seq<string>): (r: Option<Json>)
    ensures path == [] ==> r == Some(j)
    decreases |path|
  {
    if path == [] then Some(j)
    else if j.JObject? && path[0] in j.fields then At(j.fields[path[0]], path[1..])
    else None
  }

  function InternalError(reason: string): Exchange {
    Exchange(500, Failure("Internal server error: " + reason, false), None)
  }

  /** The text of a connection error raised while calling with `key`. */
  function ConnectionErrorText(before: string, quotesUrl: bool, after: string, key: string): string {
    if quotesUrl then before + QueryPath + key + after else before + after
  }

  /** How the endpoint answers once the upstream call with `key` has been
      made. */
  function Respond(upstream: Upstream, key: string): (x: (int, Reply))
    ensures x.0 in {200, 408, 500}
    ensures x.0 == 200 <==> x.1.Success?
    ensures x.0 == 408 <==> upstream.TimedOut?
  {
    match upstream
    case Replied(status, text, json) =>
      if status == 200 then
        match json
        case Ok(JObject(result)) =>
          (200, Success(Get(result, "audioContent", JNull), Get(result, "timepoints", JArray([]))))
        case Ok(other) =>
          (500, Failure("Internal server error: '" + PyTypeName(other) + "' object has no attribute 'get'", false))
        case Err(decodeError) =>
          (500, Failure("Network error: " + decodeError, true))
      else
        (500, Failure("Google Cloud TTS API error: " + IntToString(status) + " - " + text, true))
    case TimedOut => (408, Failure(TimeoutMessage, false))
    case ConnectionFailed(before, quotesUrl, after) =>
      (500, Failure("Network error: " + ConnectionErrorText(before, quotesUrl, after, key), true))
    case Crashed(reason) => (500, Failure("Internal server error: " + reason, false))
  }

  /** The rest of the handler once the body is a dict holding "text":
      defaults, the key check, the upstream call and its outcome. */
  function Forward(fields: map<string, Json>, key: Option<string>, upstream: Upstream): (x: Exchange)
    requires "text" in fields
    ensures x.call.Some? <==> KeyConfigured(key)
    ensures x.status != 400
  {
    var text := fields["text"];
    var voice := Get(fields, "voice", JString(DefaultVoice));
    var language := Get(fields, "languageCode", JString(DefaultLanguage));
    var model := Get(fields, "modelName", JString(DefaultModel));
    var pitch := Get(fields, "pitch", DefaultPitch);
    var rate := Get(fields, "speakingRate", DefaultRate);
    if !KeyConfigured(key) then
      Exchange(500, Failure(MissingKeyMessage, true), None)
    else
      var call := UpstreamCall(Endpoint + "?key=" + key.value,
                               Payload(text, voice, language, model, pitch, rate), UpstreamTimeout);
      var (status, reply) := Respond(upstream, key.value);
      Exchange(status, reply, Some(call))
  }

  /** `POST /synthesize`. */
  function Synthesize(body: RequestBody, key: Option<string>, upstream: Upstream): (x: Exchange)
    ensures x.status in {200, 400, 408, 500}
    ensures x.status == 200 <==> x.reply.Success?
    ensures x.status == 400 <==> body.Parsed? && LacksText(body.json)
    ensures x.status == 400 ==> x.reply == Failure(TextRequiredMessage, false) && x.call.None?
    ensures x.call.Some? <==>
      body.Parsed? && body.json.JObject? && "text" in body.json.fields && KeyConfigured(key)
  {
    match body
    case Unparseable(reason) => InternalError(reason)
    case Parsed(data) =>
      if !PyTruthy(data) then Exchange(400, Failure(TextRequiredMessage, false), None)
      else
        match TextIn(data)
        case Err(e) => InternalError(e)
        case Ok(present) =>
          if !present then Exchange(400, Failure(TextRequiredMessage, false), None)
          else if data.JObject? then Forward(data.fields, key, upstream)
          else if data.JArray? then InternalError("list indices must be integers or slices, not str")
          else InternalError("string indices must be integers, not 'str'")
  }

  /** The JSON object `jsonify` sends for a reply. */
  function ReplyJson(r: Reply): (j: Json)
    ensures j.JObject?
    ensures r.Success? <==> "success" in j.fields
    ensures r.Failure? ==> "error" in j.fields && j.fields["error"] == JString(r.error)
    ensures r.Failure? ==> (r.mockAudio <==> "mockAudio" in j.fields)
  {
    match r
    case Success(audio, timepoints) =>
      JObject(map["audioContent" := audio, "timepoints" := timepoints, "success" := JBool(true)])
    case Failure(error, mock) =>
      if mock then JObject(map["error" := JString(error), "mockAudio" := JBool(true)])
      else JObject(map["error" := JString(error)])
  }

  /** `GET /health`. */
  datatype Health = Health(status: string, apiKeyConfigured: bool)

  function HealthReport(key: Option<string>): (h: Health)
    ensures h.status == "healthy"
    ensures h.apiKeyConfigured <==> key.Some? && key.value != []
  {
    Health("healthy", KeyConfigured(key))
  }

  // --------------------------------------------------------------- lemmas

  /** Without a usable key, a request that passed the text check gets 500
      with `mockAudio` and nothing is sent; the text check comes first, so a
      request without text still gets 400. */
  lemma MissingKey(body: RequestBody, key: Option<string>, upstream: Upstream)
    requires !KeyConfigured(key)
    ensures Synthesize(body, key, upstream).call.None?
    ensures body.Parsed? && body.json.JObject? && "text" in body.json.fields ==>
      Synthesize(body, key, upstream) == Exchange(500, Failure(MissingKeyMessage, true), None)
    ensures body.Parsed? && LacksText(body.json) ==> Synthesize(body, key, upstream).status == 400
  {
  }

  /** Where each resolved value sits in the payload. */
  lemma PayloadAt(text: Json, voice: Json, language: Json, model: Json, pitch: Json, rate: Json)
    ensures var p := Payload(text, voice, language, model, pitch, rate);
      At(p, ["input", "text"]) == Some(text) &&
      At(p, ["voice", "name"]) == Some(voice) &&
      At(p, ["voice", "languageCode"]) == Some(language) &&
      At(p, ["voice", "modelName"]) == Some(model) &&
      At(p, ["audioConfig", "pitch"]) == Some(pitch) &&
      At(p, ["audioConfig", "speakingRate"]) == Some(rate) &&
      At(p, ["audioConfig", "audioEncoding"]) == Some(JString("LINEAR16")) &&
      At(p, ["audioConfig", "enableTimePointing"]) == Some(JArray([JString("SSML")])) &&
      p.JObject? && p.fields.Keys == {"audioConfig", "input", "voice"}
  {
    PayloadInput(text, voice, language, model, pitch, rate);
    PayloadVoice(text, voice, language, model, pitch, rate);
    PayloadAudioConfig(text, voice, language, model, pitch, rate);
  }

  lemma PayloadInput(text: Json, voice: Json, language: Json, model: Json, pitch: Json, rate: Json)
    ensures var p := Payload(text, voice, language, model, pitch, rate);
      At(p, ["input", "text"]) == Some(text) &&
      p.JObject? && p.fields.Keys == {"audioConfig", "input", "voice"}
  {
    AtTwo(Payload(text, voice, language, model, pitch, rate), "input", "text");
  }

  lemma PayloadVoice(text: Json, voice: Json, language: Json, model: Json, pitch: Json, rate: Json)
    ensures var p := Payload(text, voice, language, model, pitch, rate);
      At(p, ["voice", "name"]) == Some(voice) &&
      At(p, ["voice", "languageCode"]) == Some(language) &&
      At(p, ["voice", "modelName"]) == Some(model)
  {
    var p := Payload(text, voice, language, model, pitch, rate);
    AtTwo(p, "voice", "name");
    AtTwo(p, "voice", "languageCode");
    AtTwo(p, "voice", "modelName");
  }

  lemma PayloadAudioConfig(text: Json, voice: Json, language: Json, model: Json, pitch: Json, rate: Json)
    ensures var p := Payload(text, voice, language, model, pitch, rate);
      At(p, ["audioConfig", "pitch"]) == Some(pitch) &&
      At(p, ["audioConfig", "speakingRate"]) == Some(rate) &&
      At(p, ["audioConfig", "audioEncoding"]) == Some(JString("LINEAR16")) &&
      At(p, ["audioConfig", "enableTimePointing"]) == Some(JArray([JString("SSML")]))
  {
    var p := Payload(text, voice, language, model, pitch, rate);
    AtTwo(p, "audioConfig", "pitch");
    AtTwo(p, "audioConfig", "speakingRate");
    AtTwo(p, "audioConfig", "audioEncoding");
    AtTwo(p, "audioConfig", "enableTimePointing");
  }

  /** A path of two keys, both present, reaches the inner value. */
  lemma AtTwo(j: Json, outer: string, inner: string)
    requires j.JObject? && outer in j.fields
    requires j.fields[outer].JObject? && inner in j.fields[outer].fields
    ensures At(j, [outer, inner]) == Some(j.fields[outer].fields[inner])
  {
    assert [outer, inner][1..] == [inner];
    assert [inner][1..] == [];
  }

  /** Each optional field is copied unchanged when present and takes its
      default when absent; the text is copied as it is. */
  lemma PayloadFields(fields: map<string, Json>, key: Option<string>, upstream: Upstream)
    requires "text" in fields && KeyConfigured(key)
    ensures var x := Synthesize(Parsed(JObject(fields)), key, upstream);
      x.call.Some? &&
      var p := x.call.value.payload;
      At(p, ["input", "text"]) == Some(fields["text"]) &&
      At(p, ["voice", "name"]) == Some(if "voice" in fields then fields["voice"] else JString("Kore")) &&
      At(p, ["voice", "languageCode"]) ==
        Some(if "languageCode" in fields then fields["languageCode"] else JString("en-US")) &&
      At(p, ["voice", "modelName"]) ==
        Some(if "modelName" in fields then fields["modelName"] else JString("gemini-2.5-pro-preview-tts")) &&
      At(p, ["audioConfig", "pitch"]) == Some(if "pitch" in fields then fields["pitch"] else JInt(0)) &&
      At(p, ["audioConfig", "speakingRate"]) ==
        Some(if "speakingRate" in fields then fields["speakingRate"] else JFloat(1.0))
  {
    assert Synthesize(Parsed(JObject(fields)), key, upstream) == Forward(fields, key, upstream);
    PayloadAt(fields["text"], Get(fields, "voice", JString(DefaultVoice)),
      Get(fields, "languageCode", JString(DefaultLanguage)), Get(fields, "modelName", JString(DefaultModel)),
      Get(fields, "pitch", DefaultPitch), Get(fields, "speakingRate", DefaultRate));
  }

  /** The fixed parts of every upstream call: LINEAR16 audio, SSML time
      points, the key in the URL query and a 30-second timeout. */
  lemma CallShape(body: RequestBody, key: Option<string>, upstream: Upstream)
    requires Synthesize(body, key, upstream).call.Some?
    ensures var c := Synthesize(body, key, upstream).call.value;
      c.url == Endpoint + "?key=" + key.value && c.timeout == 30 &&
      At(c.payload, ["audioConfig", "audioEncoding"]) == Some(JString("LINEAR16")) &&
      At(c.payload, ["audioConfig", "enableTimePointing"]) == Some(JArray([JString("SSML")])) &&
      c.payload.JObject? && c.payload.fields.Keys == {"audioConfig", "input", "voice"}
  {
    var fields := body.json.fields;
    assert Synthesize(body, key, upstream) == Forward(fields, key, upstream);
    PayloadAt(fields["text"], Get(fields, "voice", JString(DefaultVoice)),
      Get(fields, "languageCode", JString(DefaultLanguage)), Get(fields, "modelName", JString(DefaultModel)),
      Get(fields, "pitch", DefaultPitch), Get(fields, "speakingRate", DefaultRate));
  }

  /** Unless a connection error quotes the request URL, the key reaches
      nothing but the URL: two configured keys give the same status, reply
      and payload. */
  lemma KeyOnlyInUrl(body: RequestBody, k1: string, k2: string, upstream: Upstream)
    requires k1 != [] && k2 != []
    requires !(upstream.ConnectionFailed? && upstream.quotesUrl)
    ensures var x1 := Synthesize(body, Some(k1), upstream);
      var x2 := Synthesize(body, Some(k2), upstream);
      x1.status == x2.status && x1.reply == x2.reply && x1.call.Some? == x2.call.Some? &&
      (x1.call.Some? ==> x1.call.value.payload == x2.call.value.payload)
  {
  }

  /** An upstream 200 with a JSON object becomes a success record copying
      `audioContent` (null when absent) and `timepoints` (empty when
      absent). */
  lemma UpstreamSuccess(fields: map<string, Json>, key: Option<string>, text: string, result: map<string, Json>)
    requires "text" in fields && KeyConfigured(key)
    ensures Synthesize(Parsed(JObject(fields)), key, Replied(200, text, Ok(JObject(result)))) ==
      Exchange(200,
        Success(if "audioContent" in result then result["audioContent"] else JNull,
                if "timepoints" in result then result["timepoints"] else JArray([])),
        Synthesize(Parsed(JObject(fields)), key, Replied(200, text, Ok(JObject(result)))).call)
  {
  }

  /** An upstream status other than 200 becomes 500 with `mockAudio`, and
      the error names both the upstream status and its body text. */
  lemma UpstreamRejection(fields: map<string, Json>, key: Option<string>, status: int, text: string, json: Result<Json, string>)
    requires "text" in fields && KeyConfigured(key) && status != 200
    ensures var x := Synthesize(Parsed(JObject(fields)), key, Replied(status, text, json));
      x.status == 500 && x.reply.Failure? && x.reply.mockAudio &&
      Contains(x.reply.error, IntToString(status)) && Contains(x.reply.error, text)
  {
    var e := Synthesize(Parsed(JObject(fields)), key, Replied(status, text, json)).reply.error;
    var head := "Google Cloud TTS API error: ";
    assert e == head + IntToString(status) + (" - " + text);
    ContainsPiece(head, IntToString(status), " - " + text);
    assert e == (head + IntToString(status) + " - ") + text + "";
    ContainsPiece(head + IntToString(status) + " - ", text, "");
  }

  /** Exceptions are told apart in order: a timeout gives 408 without
      `mockAudio`, any other request exception 500 with `mockAudio`, and
      anything else 500 without it. */
  lemma ExceptionMapping(fields: map<string, Json>, key: Option<string>, reason: string)
    requires "text" in fields && KeyConfigured(key)
    ensures Synthesize(Parsed(JObject(fields)), key, TimedOut).status == 408
    ensures Synthesize(Parsed(JObject(fields)), key, TimedOut).reply == Failure(TimeoutMessage, false)
    ensures Synthesize(Parsed(JObject(fields)), key, ConnectionFailed(reason, false, "")).status == 500
    ensures Synthesize(Parsed(JObject(fields)), key, ConnectionFailed(reason, false, "")).reply ==
      Failure("Network error: " + reason, true)
    ensures Synthesize(Parsed(JObject(fields)), key, Crashed(reason)).status == 500
    ensures Synthesize(Parsed(JObject(fields)), key, Crashed(reason)).reply ==
      Failure("Internal server error: " + reason, false)
  {
  }

  /** A connection error that quotes the request URL hands the configured
      key back to the browser inside the error text, and the reply then
      differs for every two keys. */
  lemma KeyEchoedOnConnectionFailure(fields: map<string, Json>, k1: string, k2: string, before: string, after: string)
    requires "text" in fields && k1 != [] && k2 != []
    ensures var x := Synthesize(Parsed(JObject(fields)), Some(k1), ConnectionFailed(before, true, after));
      x.status == 500 && x.reply.Failure? && x.reply.mockAudio && Contains(x.reply.error, k1)
    ensures k1 != k2 ==>
      Synthesize(Parsed(JObject(fields)), Some(k1), ConnectionFailed(before, true, after)).reply !=
      Synthesize(Parsed(JObject(fields)), Some(k2), ConnectionFailed(before, true, after)).reply
  {
    var head := "Network error: " + before + QueryPath;
    var e1 := Synthesize(Parsed(JObject(fields)), Some(k1), ConnectionFailed(before, true, after)).reply.error;
    var e2 := Synthesize(Parsed(JObject(fields)), Some(k2), ConnectionFailed(before, true, after)).reply.error;
    assert e1 == head + k1 + after;
    assert e2 == head + k2 + after;
    ContainsPiece(head, k1, after);
    if k1 != k2 && e1 == e2 {
      MiddleSlice(head, k1, after);
      MiddleSlice(head, k2, after);
      assert false;
    }
  }

  /** `/health` reports a key exactly when `/synthesize` would call the
      upstream service for a request with text. */
  lemma HealthPredictsCall(fields: map<string, Json>, key: Option<string>, upstream: Upstream)
    requires "text" in fields
    ensures HealthReport(key).apiKeyConfigured <==>
      Synthesize(Parsed(JObject(fields)), key, upstream).call.Some?
  {
  }
}
