/** The browser side of one synthesis request (`callTTSService` in
    `script.js`): the JSON body it posts to `/synthesize` and how it turns
    what `fetch` gives back into audio or an error message. */
module TtsService {
  import opened Wrappers
  import opened Text
  import opened JsonValue

  const ErrorPrefix: string := "Could not generate audio."
  const Lead: string := ErrorPrefix + " "
  const NetworkAdvice: string := Lead + "Please check your internet connection and try again."
  // written in pieces so that the verifier can look inside the literal
  const DefaultFailure: string :=
    Lead + "The API key may be " + "invalid or you may " + "have exceeded your " + "quota."

  /** The fields of the server's JSON reply that the client reads: `error`
      ("" when absent or empty, both falsy), whether `mockAudio` is truthy,
      and `audioContent`. */
  datatype ServerData = ServerData(error: string, mockAudio: bool, audioContent: Json)

  /** What `fetch('/synthesize', …)` settled with: a rejected promise with its
      message, or a response whose `json()` gave the data or a syntax error. */
  datatype FetchOutcome =
    | Rejected(reason: string)
    | Answered(status: int, statusText: string, body: Result<ServerData, string>)

  /** `response.ok`. */
  predicate IsOk(status: int) {
    200 <= status <= 299
  }

  /** The body posted for one chunk: the chunk, or the whole document when
      the chunk is empty (`text || this.pdfText`), with fixed language and
      model. */
  function ClientRequest(text: string, pdfText: string, voice: string, pitch: int, rate: real): (j: Json)
    ensures j.JObject?
    ensures j.fields.Keys == {"text", "voice", "languageCode", "modelName", "pitch", "speakingRate"}
    ensures j.fields["text"] == JString(if text != [] then text else pdfText)
    ensures j.fields["languageCode"] == JString("en-US")
    ensures j.fields["modelName"] == JString("gemini-2.5-pro-preview-tts")
  {
    JObject(map[
      "text" := JString(if text != "" then text else pdfText),
      "voice" := JString(voice),
      "languageCode" := JString("en-US"),
      "modelName" := JString("gemini-2.5-pro-preview-tts"),
      "pitch" := JInt(pitch),
      "speakingRate" := JFloat(rate)])
  }

  /** The `catch` block: every message thrown inside the `try` is re-thrown
      with the "Could not generate audio." prefix. */
  function Rethrow(m: string): (r: string)
    ensures StartsWith(r, ErrorPrefix)
    ensures Contains(m, "API request failed") || !Contains(m, "Network error") ==> r == Lead + m
    ensures !Contains(m, "API request failed") && Contains(m, "Network error") ==> r == NetworkAdvice
  {
    PrefixContained(ErrorPrefix, " " + m);
    PrefixContained(ErrorPrefix, " Please check your internet connection and try again.");
    if Contains(m, "API request failed") then Lead + m
    else if Contains(m, "Network error") then NetworkAdvice
    else Lead + m
  }

  /** The message thrown for a response that is not ok. */
  function RequestFailed(status: int, statusText: string, error: string): string {
    "API request failed" + ": " + IntToString(status) + " " + statusText + " - "
      + (if error != "" then error else "Unknown error")
  }

  /** `callTTSService`: the audio content, or the message of the error it
      throws. */
  function CallTTSService(o: FetchOutcome): (r: Result<Json, string>)
    ensures r.Err? ==> StartsWith(r.error, ErrorPrefix)
    ensures r.Ok? <==> (o.Answered? && IsOk(o.status) && o.body.Ok?
                        && !o.body.value.mockAudio && JsTruthy(o.body.value.audioContent))
    ensures r.Ok? ==> r.value == o.body.value.audioContent
  {
    match o
    case Rejected(reason) => Err(Rethrow(reason))
    case Answered(status, statusText, body) =>
      match body
      case Err(syntaxError) => Err(Rethrow(syntaxError))
      case Ok(data) =>
        if !IsOk(status) then Err(Rethrow(RequestFailed(status, statusText, data.error)))
        else if data.mockAudio || !JsTruthy(data.audioContent) then
          Err(Rethrow(if data.error != "" then data.error else DefaultFailure))
        else Ok(data.audioContent)
  }

  /** The test in `processNextChunk` that stops the whole queue. */
  predicate IsCritical(m: string) {
    Contains(m, "API key") || Contains(m, "quota") || Contains(m, "invalid")
  }

  // --------------------------------------------------------------- lemmas

  /** A response that is not ok with a JSON body surfaces as "API request
      failed" with its status, its status text and the server's error (or
      "Unknown error"). */
  lemma RejectedResponseMessage(status: int, statusText: string, data: ServerData)
    requires !IsOk(status)
    ensures CallTTSService(Answered(status, statusText, Ok(data))) ==
      Err(Lead + RequestFailed(status, statusText, data.error))
    ensures Contains(CallTTSService(Answered(status, statusText, Ok(data))).error, IntToString(status))
  {
    RequestFailedHead(status, statusText, data.error);
    RequestFailedStatus(status, statusText, data.error);
  }

  lemma RequestFailedHead(status: int, statusText: string, error: string)
    ensures Contains(RequestFailed(status, statusText, error), "API request failed")
  {
    var rest := ": " + IntToString(status) + " " + statusText + " - "
      + (if error != "" then error else "Unknown error");
    AppendAssoc5("API request failed", ": ", IntToString(status), " " + statusText + " - ",
      if error != "" then error else "Unknown error");
    PrefixContained("API request failed", rest);
  }

  lemma RequestFailedStatus(status: int, statusText: string, error: string)
    ensures Contains(Lead + RequestFailed(status, statusText, error), IntToString(status))
  {
    PieceAfterHead(Lead, "API request failed", ": ", IntToString(status), " ", statusText, " - ",
      if error != "" then error else "Unknown error");
  }

  /** The third piece of a text built as `RequestFailed` builds it, behind
      a lead, occurs in it. */
  lemma PieceAfterHead(lead: string, a: string, b: string, code: string,
                       c: string, d: string, e: string, f: string)
    ensures Contains(lead + (a + b + code + c + d + e + f), code)
  {
    assert lead + (a + b + code + c + d + e + f) == (lead + (a + b)) + code + (c + d + e + f);
    ContainsPiece(lead + (a + b), code, c + d + e + f);
  }

  /** `a + b + c + d + e`, the way `RequestFailed` builds it, with the first
      piece split off. */
  lemma AppendAssoc5(a: string, b: string, c: string, d: string, e: string)
    ensures a + b + c + d + e == a + (b + c + d + e)
  {
  }

  lemma DefaultFailureNoNetwork()
    ensures !Contains(DefaultFailure, "Network error")
  {
    NoCapitalNInLead();
    NoCapitalNInAdvice();
    LacksChar(Lead, "The API key may be ", 'N');
    LacksChar(Lead + "The API key may be ", "invalid or you may ", 'N');
    LacksChar(Lead + "The API key may be " + "invalid or you may ", "have exceeded your ", 'N');
    LacksChar(Lead + "The API key may be " + "invalid or you may " + "have exceeded your ", "quota.", 'N');
    MissingCharacter(DefaultFailure, "Network error", 'N');
  }

  lemma NoCapitalNInLead()
    ensures 'N' !in Lead
  {
    assert 'N' !in ErrorPrefix;
    LacksChar(ErrorPrefix, " ", 'N');
  }

  lemma NoCapitalNInAdvice()
    ensures 'N' !in "The API key may be " && 'N' !in "invalid or you may "
    ensures 'N' !in "have exceeded your " && 'N' !in "quota."
  {
  }

  /** Without a server error text, a mock or empty reply falls back to the
      default message, which names both the key and the quota and so stops
      the queue. */
  lemma DefaultFailureIsCritical()
    ensures Contains(DefaultFailure, "API key") && Contains(DefaultFailure, "quota")
    ensures Rethrow(DefaultFailure) == Lead + DefaultFailure
    ensures IsCritical(Rethrow(DefaultFailure))
  {
    var a := Lead + "The ";
    var b := " may be " + "invalid or you may " + "have exceeded your ";
    assert DefaultFailure == a + "API key" + (b + "quota.");
    ContainsPiece(a, "API key", b + "quota.");
    assert DefaultFailure == (a + "API key" + b) + "quota" + ".";
    ContainsPiece(a + "API key" + b, "quota", ".");
    DefaultFailureNoNetwork();
    ContainsInRight(Lead, DefaultFailure, "API key");
  }

  /** A rejected `fetch` and a body `response.json()` cannot parse are
      thrown before the status is looked at: the message is the one
      `Rethrow` makes of theirs, so a "Network error" becomes the
      connection advice. */
  lemma ThrownBeforeStatus(o: FetchOutcome)
    requires o.Rejected? || o.body.Err?
    ensures var m := if o.Rejected? then o.reason else o.body.error;
      CallTTSService(o) == Err(Rethrow(m)) &&
      (!Contains(m, "API request failed") && Contains(m, "Network error") ==>
         CallTTSService(o).error == NetworkAdvice)
  {
  }

  /** An ok response flagged `mockAudio` or without audio content throws
      the server's error, or the default message naming the key and the
      quota when there is none; that default stops the queue. */
  lemma MockOrNoAudioMessage(status: int, statusText: string, data: ServerData)
    requires IsOk(status) && (data.mockAudio || !JsTruthy(data.audioContent))
    ensures CallTTSService(Answered(status, statusText, Ok(data))) ==
      Err(Rethrow(if data.error != "" then data.error else DefaultFailure))
    ensures data.error == "" ==>
      CallTTSService(Answered(status, statusText, Ok(data))) == Err(Lead + DefaultFailure) &&
      IsCritical(CallTTSService(Answered(status, statusText, Ok(data))).error)
  {
    DefaultFailureIsCritical();
  }

  /** The pieces of the report of a timeout lack the letters k, v and q. */
  lemma TimeoutPiecesClean(statusText: string)
    requires 'k' !in statusText && 'v' !in statusText && 'q' !in statusText
    ensures var first := Lead + "API ";
      'k' !in first && 'v' !in first && 'q' !in first
    ensures var middle := " failed: " + IntToString(408) + " " + statusText + " - ";
      'k' !in middle && 'v' !in middle && 'q' !in middle && middle != [] && middle[0] == ' '
    ensures var last := " timeout. Please " + "try again.";
      'k' !in last && 'v' !in last && 'q' !in last && last != [] && last[0] == ' '
  {
    LeadClean();
    MiddleClean(IntToString(408), statusText);
    Lacks(" timeout. Please " + "try again.", " timeout. Please ", "try again.");
  }

  lemma LeadClean()
    ensures 'k' !in Lead + "API " && 'v' !in Lead + "API " && 'q' !in Lead + "API "
  {
    PrefixLacksKvq();
    Lacks(Lead, ErrorPrefix, " ");
    Lacks(Lead + "API ", Lead, "API ");
  }

  lemma PrefixLacksKvq()
    ensures 'k' !in ErrorPrefix && 'v' !in ErrorPrefix && 'q' !in ErrorPrefix
  {
  }

  lemma MiddleClean(code: string, statusText: string)
    requires 'k' !in statusText && 'v' !in statusText && 'q' !in statusText
    requires forall i | 0 <= i < |code| :: '0' <= code[i] <= '9' || code[i] == '-'
    ensures var middle := " failed: " + code + " " + statusText + " - ";
      'k' !in middle && 'v' !in middle && 'q' !in middle && middle != [] && middle[0] == ' '
  {
    assert 'k' !in code && 'v' !in code && 'q' !in code;
    Lacks(" failed: " + code, " failed: ", code);
    Lacks(" failed: " + code + " ", " failed: " + code, " ");
    Lacks(" failed: " + code + " " + statusText, " failed: " + code + " ", statusText);
    Lacks(" failed: " + code + " " + statusText + " - ", " failed: " + code + " " + statusText, " - ");
  }

  /** A text made of pieces lacking the letters k, v and q around the words
      "request" and "Request", each word followed by a space, names no key,
      quota or invalid thing. */
  lemma NotCriticalPieces(first: string, middle: string, last: string)
    requires 'k' !in first && 'v' !in first && 'q' !in first
    requires 'k' !in middle && 'v' !in middle && 'q' !in middle
    requires 'k' !in last && 'v' !in last && 'q' !in last
    requires middle != [] && middle[0] == ' ' && last != [] && last[0] == ' '
    ensures !IsCritical(first + "request" + middle + "Request" + last)
  {
    NoKeyNoInvalid(first, middle, last);
    NoQuota(first, middle, last);
  }

  lemma NoKeyNoInvalid(first: string, middle: string, last: string)
    requires 'k' !in first && 'v' !in first
    requires 'k' !in middle && 'v' !in middle
    requires 'k' !in last && 'v' !in last
    ensures var e := first + "request" + middle + "Request" + last;
      !Contains(e, "API key") && !Contains(e, "invalid")
  {
    var e := first + "request" + middle + "Request" + last;
    Lacks(first + "request", first, "request");
    Lacks(first + "request" + middle, first + "request", middle);
    Lacks(first + "request" + middle + "Request", first + "request" + middle, "Request");
    Lacks(e, first + "request" + middle + "Request", last);
    MissingCharacter(e, "API key", 'k');
    MissingCharacter(e, "invalid", 'v');
  }

  lemma NoQuota(first: string, middle: string, last: string)
    requires 'q' !in first && 'q' !in middle && 'q' !in last
    requires middle != [] && middle[0] == ' ' && last != [] && last[0] == ' '
    ensures !Contains(first + "request" + middle + "Request" + last, "quota")
  {
    MissingCharacter(first, "quota", 'q');
    NoQuotaAround(first, "request", middle);
    NoQuotaAround(first + "request" + middle, "Request", last);
  }

  /** A word lacking the letter o, after a text without "quota" and before a
      piece lacking the letter q that starts with a space, gives no
      "quota". */
  lemma NoQuotaAround(a: string, word: string, b: string)
    requires !Contains(a, "quota") && 'q' !in b && 'o' !in word && word != [] && word[0] !in "quota"
    requires b != [] && b[0] == ' '
    ensures !Contains(a + word + b, "quota")
  {
    MissingCharacter(word, "quota", 'o');
    MissingCharacter(b, "quota", 'q');
    NoContainsAcrossSeam(a, word, "quota");
    NoContainsAcrossSeam(a + word, b, "quota");
  }

  /** A letter missing from both halves of a text is missing from it. */
  lemma LacksChar(a: string, b: string, c: char)
    ensures c !in a && c !in b ==> c !in a + b
  {
  }

  /** `LacksChar` for the letters k, v and q at once. */
  lemma Lacks(s: string, a: string, b: string)
    requires s == a + b
    ensures 'k' !in a && 'k' !in b ==> 'k' !in s
    ensures 'v' !in a && 'v' !in b ==> 'v' !in s
    ensures 'q' !in a && 'q' !in b ==> 'q' !in s
  {
  }

}
