/** The page's request meeting the server: what `callTTSService` makes of each
    answer of `/synthesize`, and how that decides whether the chunk queue
    goes on. */
module EndToEnd {
  import opened Wrappers
  import opened Text
  import opened JsonValue
  import opened TtsService
  import Server

  /** The page's view of an exchange: the HTTP status with the status text
      the browser reports, and the reply fields it reads. A missing `error`
      reads as "" and a missing `audioContent` as null, both falsy. */
  function ClientView(x: Server.Exchange, statusText: string): (o: FetchOutcome)
    ensures o.Answered? && o.status == x.status && o.body.Ok?
    ensures x.reply.Failure? ==> o.body.value == ServerData(x.reply.error, x.reply.mockAudio, JNull)
    ensures x.reply.Success? ==> o.body.value == ServerData("", false, x.reply.audioContent)
  {
    var data := match x.reply
      case Success(audio, _) => ServerData("", false, audio)
      case Failure(error, mock) => ServerData(error, mock, JNull);
    Answered(x.status, statusText, Ok(data))
  }

  /** The request the page posts for a chunk passes the server's checks and
      reaches the upstream service with its text, voice, language, model,
      pitch and rate. */
  lemma ClientRequestForwarded(chunk: string, pdfText: string, voice: string, pitch: int, rate: real,
                               key: string, upstream: Server.Upstream)
    requires key != []
    ensures var x := Server.Synthesize(Server.Parsed(ClientRequest(chunk, pdfText, voice, pitch, rate)),
                                       Some(key), upstream);
      x.call.Some? && x.status != 400 &&
      var p := x.call.value.payload;
      Server.At(p, ["input", "text"]) == Some(JString(if chunk != [] then chunk else pdfText)) &&
      Server.At(p, ["voice", "name"]) == Some(JString(voice)) &&
      Server.At(p, ["voice", "languageCode"]) == Some(JString("en-US")) &&
      Server.At(p, ["voice", "modelName"]) == Some(JString("gemini-2.5-pro-preview-tts")) &&
      Server.At(p, ["audioConfig", "pitch"]) == Some(JInt(pitch)) &&
      Server.At(p, ["audioConfig", "speakingRate"]) == Some(JFloat(rate))
  {
    var j := ClientRequest(chunk, pdfText, voice, pitch, rate);
    Server.PayloadFields(j.fields, Some(key), upstream);
  }

  /** The page gets audio exactly when the server answers with a success
      record whose audio content is truthy; it never reaches the branch
      for mock audio, because every reply carrying `mockAudio` has status
      500. */
  lemma ClientOkIff(body: Server.RequestBody, key: Option<string>, upstream: Server.Upstream,
                    statusText: string)
    ensures var x := Server.Synthesize(body, key, upstream);
      CallTTSService(ClientView(x, statusText)).Ok? <==>
        x.reply.Success? && JsTruthy(x.reply.audioContent)
    ensures var x := Server.Synthesize(body, key, upstream);
      x.reply.Failure? ==>
        CallTTSService(ClientView(x, statusText)) ==
          Err(Lead + RequestFailed(x.status, statusText, x.reply.error))
  {
    var x := Server.Synthesize(body, key, upstream);
    if x.reply.Failure? {
      assert x.status != 200;
      RejectedResponseMessage(x.status, statusText, ClientView(x, statusText).body.value);
    }
  }

  /** Without a key, every chunk's error names the API key, so the queue
      stops at the first chunk. */
  lemma MissingKeyIsCritical(chunk: string, pdfText: string, voice: string, pitch: int, rate: real,
                             key: Option<string>, upstream: Server.Upstream, statusText: string)
    requires !Server.KeyConfigured(key)
    ensures var x := Server.Synthesize(Server.Parsed(ClientRequest(chunk, pdfText, voice, pitch, rate)),
                                       key, upstream);
      x.status == 500 && x.call.None? &&
      CallTTSService(ClientView(x, statusText)).Err? &&
      IsCritical(CallTTSService(ClientView(x, statusText)).error)
  {
    var x := Server.Synthesize(Server.Parsed(ClientRequest(chunk, pdfText, voice, pitch, rate)),
                               key, upstream);
    assert x == Server.Exchange(500, Server.Failure(Server.MissingKeyMessage, true), None);
    ClientOkIff(Server.Parsed(ClientRequest(chunk, pdfText, voice, pitch, rate)), key, upstream, statusText);
    var m := RequestFailed(500, statusText, Server.MissingKeyMessage);
    var head := "API request failed" + ": " + IntToString(500) + " " + statusText + " - ";
    assert m == head + Server.MissingKeyMessage;
    ContainsPiece("Google Cloud ", "API key",
      " not configured. Please set GOOGLE_CLOUD_API_KEY environment variable.");
    ContainsInRight(head, Server.MissingKeyMessage, "API key");
    ContainsInRight(Lead, m, "API key");
  }

  /** A chunk whose upstream call timed out is reported and skipped: the
      message names neither the key, nor a quota, nor anything invalid
      (given a status text of capitals, like the standard "REQUEST
      TIMEOUT", or none at all). */
  lemma TimeoutIsNotCritical(chunk: string, pdfText: string, voice: string, pitch: int, rate: real,
                             key: string, statusText: string)
    requires key != []
    requires 'k' !in statusText && 'v' !in statusText && 'q' !in statusText
    ensures var x := Server.Synthesize(Server.Parsed(ClientRequest(chunk, pdfText, voice, pitch, rate)),
                                       Some(key), Server.TimedOut);
      x.status == 408 &&
      CallTTSService(ClientView(x, statusText)).Err? &&
      !IsCritical(CallTTSService(ClientView(x, statusText)).error)
  {
    var body := Server.Parsed(ClientRequest(chunk, pdfText, voice, pitch, rate));
    var x := Server.Synthesize(body, Some(key), Server.TimedOut);
    assert x.reply == Server.Failure(Server.TimeoutMessage, false);
    ClientOkIff(body, Some(key), Server.TimedOut, statusText);
    TimeoutReportNotCritical(statusText);
  }

  lemma TimeoutReportNotCritical(statusText: string)
    requires 'k' !in statusText && 'v' !in statusText && 'q' !in statusText
    ensures !IsCritical(Lead + RequestFailed(408, statusText, Server.TimeoutMessage))
  {
    TimeoutPiecesClean(statusText);
    TimeoutReportPieces(statusText);
    NotCriticalPieces(Lead + "API ", " failed: " + IntToString(408) + " " + statusText + " - ",
      " timeout. Please " + "try again.");
  }

  /** The report of a timeout, cut around the two words "request". */
  lemma TimeoutReportPieces(statusText: string)
    ensures Lead + RequestFailed(408, statusText, Server.TimeoutMessage) ==
      (Lead + "API ") + "request" + (" failed: " + IntToString(408) + " " + statusText + " - ")
      + "Request" + (" timeout. Please " + "try again.")
  {
    assert "API request failed" + ": " == "API " + "request" + " failed: ";
    ReportAssoc(Lead, "API ", "request", " failed: ", IntToString(408), statusText,
      "Request", " timeout. Please ", "try again.");
  }

  /** How the pieces of a report regroup, whatever they hold. */
  lemma ReportAssoc(lead: string, a: string, r: string, f: string, code: string, st: string,
                    big: string, t1: string, t2: string)
    ensures lead + ((a + r + f) + code + " " + st + " - " + (big + t1 + t2)) ==
      (lead + a) + r + (f + code + " " + st + " - ") + big + (t1 + t2)
  {
  }

  /** Audio from the upstream service reaches the page unchanged. */
  lemma AudioReachesPage(fields: map<string, Json>, key: string, text: string,
                         result: map<string, Json>, statusText: string)
    requires "text" in fields && key != []
    requires "audioContent" in result && JsTruthy(result["audioContent"])
    ensures var x := Server.Synthesize(Server.Parsed(JObject(fields)), Some(key),
                                       Server.Replied(200, text, Ok(JObject(result))));
      CallTTSService(ClientView(x, statusText)) == Ok(result["audioContent"])
  {
    var x := Server.Synthesize(Server.Parsed(JObject(fields)), Some(key),
                               Server.Replied(200, text, Ok(JObject(result))));
    Server.UpstreamSuccess(fields, Some(key), text, result);
  }
}
