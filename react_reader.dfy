/** The React reader of `TTS/src/TTSReader.tsx`. Its `useState` hooks form one
    immutable state value; each handler is a transition from one state to
    the next. pdf.js, `fetch`, `atob`, Blob URLs and the audio element are
    outside: what they deliver arrives as parameters. */
module ReactReader {
  import opened Wrappers
  import opened Text
  import opened JsonValue
  import opened RegexSplit
  import opened Pagination
  import TtsService
  import opened Reader

  datatype Progress = Progress(visible: bool, text: string, percent: int)

  /** The component's state hooks; `text` is `textRef.current`. */
  datatype ReaderState = ReaderState(
    pdfPages: seq<string>,
    currentPage: nat,
    voice: string,
    speed: real,
    pitch: int,
    progress: Progress,
    error: string,
    audioUrls: seq<string>,
    audioIndex: nat,
    text: string)

  const Hidden: Progress := Progress(false, "", 0)
  const InvalidFile: string := "Please select a valid PDF file."
  const PdfFailure: string := "Error processing PDF. Please try again."
  const NoText: string := "No text to synthesize."
  const RequestFailed: string := "TTS request failed"
  const NoAudio: string := "No audio returned"

  /** The page shown is one of the pages (page 0 before any are loaded). */
  predicate Valid(s: ReaderState) {
    if s.pdfPages == [] then s.currentPage == 0 else s.currentPage < |s.pdfPages|
  }

  function Initial(): (s: ReaderState)
    ensures Valid(s) && s.pdfPages == [] && s.audioUrls == [] && s.text == ""
    ensures s.voice == "Kore" && s.speed == 1.0 && s.pitch == 0 && !s.progress.visible
  {
    ReaderState([], 0, "Kore", 1.0, 0, Hidden, "", [], 0, "")
  }

  // ------------------------------------------------------------ the file

  /** `handleFile` after pdf.js: `extracted` is the text gathered from the
      pages, or `None` when reading the document threw. The upload area that
      calls it is only rendered while there are no pages. */
  method HandleFile(s: ReaderState, file: Option<FileInfo>, extracted: Option<string>)
    returns (t: ReaderState)
    ensures (file.None? || file.value.mimeType != "application/pdf") ==> t == s.(error := InvalidFile)
    ensures file.Some? && file.value.mimeType == "application/pdf" && extracted.None? ==>
      t == s.(error := PdfFailure, progress := Hidden)
    ensures file.Some? && file.value.mimeType == "application/pdf" && extracted.Some? ==>
      t == s.(text := Trim(extracted.value), pdfPages := t.pdfPages, progress := Hidden)
      && t.pdfPages == PagesOf(Split(Whitespace, Trim(extracted.value))) && t.pdfPages != []
    ensures Valid(s) && s.pdfPages == [] ==> Valid(t)
  {
    if file.None? || file.value.mimeType != "application/pdf" {
      return s.(error := InvalidFile);
    }
    t := s.(progress := Progress(true, "Extracting text from PDF...", 0));
    if extracted.None? {
      return t.(error := PdfFailure, progress := Hidden);
    }
    var text := Trim(extracted.value);
    var pages := Paginate(Split(Whitespace, text));
    t := t.(text := text, pdfPages := pages, progress := Hidden);
  }

  /** `files[0]` of a drop: the first file, if any. */
  function DroppedFile(files: seq<FileInfo>): Option<FileInfo> {
    if |files| > 0 then Some(files[0]) else None
  }

  /** `onDrop`: the first dropped file goes to `handleFile`; dropping
      nothing, or a first file that is not a PDF, only sets the invalid-file
      error. */
  method OnDrop(s: ReaderState, files: seq<FileInfo>, extracted: Option<string>)
    returns (t: ReaderState)
    ensures (files == [] || files[0].mimeType != "application/pdf") ==> t == s.(error := InvalidFile)
    ensures files != [] && files[0].mimeType == "application/pdf" && extracted.None? ==>
      t == s.(error := PdfFailure, progress := Hidden)
    ensures files != [] && files[0].mimeType == "application/pdf" && extracted.Some? ==>
      t == s.(text := Trim(extracted.value), pdfPages := t.pdfPages, progress := Hidden)
      && t.pdfPages == PagesOf(Split(Whitespace, Trim(extracted.value))) && t.pdfPages != []
    ensures Valid(s) && s.pdfPages == [] ==> Valid(t)
  {
    t := HandleFile(s, DroppedFile(files), extracted);
  }

  // ------------------------------------------------------------ navigation

  predicate PrevDisabled(s: ReaderState) {
    s.currentPage == 0
  }

  predicate NextDisabled(s: ReaderState) {
    s.currentPage == |s.pdfPages| - 1
  }

  /** The Previous button; a disabled button does not fire. */
  function PrevClicked(s: ReaderState): (t: ReaderState)
    requires Valid(s) && s.pdfPages != []
    ensures Valid(t)
    ensures t == s.(currentPage := t.currentPage)
    ensures PrevDisabled(s) ==> t == s
    ensures !PrevDisabled(s) ==> t.currentPage + 1 == s.currentPage
  {
    if PrevDisabled(s) then s else s.(currentPage := s.currentPage - 1)
  }

  /** The Next button; a disabled button does not fire. */
  function NextClicked(s: ReaderState): (t: ReaderState)
    requires Valid(s) && s.pdfPages != []
    ensures Valid(t)
    ensures t == s.(currentPage := t.currentPage)
    ensures NextDisabled(s) ==> t == s
    ensures !NextDisabled(s) ==> t.currentPage == s.currentPage + 1
  {
    if NextDisabled(s) then s else s.(currentPage := s.currentPage + 1)
  }

  /** Next then Previous comes back to the same page, whenever Next was
      enabled. */
  lemma NextThenPrev(s: ReaderState)
    requires Valid(s) && s.pdfPages != [] && !NextDisabled(s)
    ensures PrevClicked(NextClicked(s)) == s
  {
  }

  /** Previous then Next comes back to the same page, whenever Previous was
      enabled. */
  lemma PrevThenNext(s: ReaderState)
    requires Valid(s) && s.pdfPages != [] && !PrevDisabled(s)
    ensures NextClicked(PrevClicked(s)) == s
  {
  }

  // ------------------------------------------------------------ synthesis

  /** The body `synthesizeAudio` posts: the whole document text. */
  function Request(s: ReaderState): (j: Json)
    ensures j.JObject?
    ensures j.fields.Keys == {"text", "voice", "languageCode", "modelName", "pitch", "speakingRate"}
    ensures j.fields["text"] == JString(s.text) && j.fields["voice"] == JString(s.voice)
    ensures j.fields["pitch"] == JInt(s.pitch) && j.fields["speakingRate"] == JFloat(s.speed)
    ensures j.fields["languageCode"] == JString("en-US")
    ensures j.fields["modelName"] == JString("gemini-2.5-pro-preview-tts")
  {
    JObject(map[
      "text" := JString(s.text),
      "voice" := JString(s.voice),
      "languageCode" := JString("en-US"),
      "modelName" := JString("gemini-2.5-pro-preview-tts"),
      "pitch" := JInt(s.pitch),
      "speakingRate" := JFloat(s.speed)])
  }

  datatype Step = Step(state: ReaderState, sent: Option<Json>)

  /** Whether the answer carries audio the page can use. */
  predicate Delivers(outcome: TtsService.FetchOutcome, decoded: Result<string, string>) {
    outcome.Answered? && TtsService.IsOk(outcome.status) && outcome.body.Ok?
    && JsTruthy(outcome.body.value.audioContent) && decoded.Ok?
  }

  /** `synthesizeAudio`: `outcome` is what `fetch` and `res.json()` gave,
      `decoded` what `atob` made of the audio (or the message it threw), and
      `url` the object URL made for the blob. */
  function Synthesize(s: ReaderState, outcome: TtsService.FetchOutcome,
                      decoded: Result<string, string>, url: string): (r: Step)
    ensures r.sent.None? <==> s.text == ""
    ensures r.sent.Some? ==> r.sent.value == Request(s)
    ensures r.state.pdfPages == s.pdfPages && r.state.currentPage == s.currentPage && r.state.text == s.text
    ensures s.text == "" ==> r.state == s.(error := NoText)
    ensures s.text != "" && Delivers(outcome, decoded) ==>
      r.state == s.(audioUrls := [url], progress := Progress(false, "", 100))
    ensures s.text != "" && !Delivers(outcome, decoded) ==>
      r.state == s.(error := r.state.error, progress := Hidden)
    ensures s.text != "" && outcome.Answered? && !TtsService.IsOk(outcome.status) ==>
      r.state.error == RequestFailed
    ensures (s.text != "" && outcome.Answered? && TtsService.IsOk(outcome.status) && outcome.body.Ok?
             && !JsTruthy(outcome.body.value.audioContent)) ==>
      r.state.error == NoAudio
    ensures s.text != "" && outcome.Rejected? ==> r.state.error == outcome.reason
    ensures (s.text != "" && outcome.Answered? && TtsService.IsOk(outcome.status) && outcome.body.Err?) ==>
      r.state.error == outcome.body.error
    ensures (s.text != "" && outcome.Answered? && TtsService.IsOk(outcome.status) && outcome.body.Ok?
             && JsTruthy(outcome.body.value.audioContent) && decoded.Err?) ==>
      r.state.error == decoded.error
  {
    if s.text == "" then Step(s.(error := NoText), None)
    else
      var failed := (m: string) => s.(error := m, progress := Hidden);
      var sent := Some(Request(s));
      match outcome
      case Rejected(reason) => Step(failed(reason), sent)
      case Answered(status, _, body) =>
        if !TtsService.IsOk(status) then Step(failed(RequestFailed), sent)
        else if body.Err? then Step(failed(body.error), sent)
        else if !JsTruthy(body.value.audioContent) then Step(failed(NoAudio), sent)
        else if decoded.Err? then Step(failed(decoded.error), sent)
        else Step(s.(audioUrls := [url], progress := Progress(false, "", 100)), sent)
  }

  /** A failed request leaves the audio as it was. */
  lemma FailureKeepsAudio(s: ReaderState, outcome: TtsService.FetchOutcome,
                          decoded: Result<string, string>, url: string)
    requires !Delivers(outcome, decoded)
    ensures Synthesize(s, outcome, decoded, url).state.audioUrls == s.audioUrls
    ensures s.text != "" ==> !Synthesize(s, outcome, decoded, url).state.progress.visible
  {
  }

  // ------------------------------------------------------------ audio bytes

  newtype byte = x: int | 0 <= x < 256

  /** The loop of `base64ToBlob`: the decoded string's characters into a
      `Uint8Array`, which keeps each code modulo 256. */
  method Base64ToBytes(bin: string) returns (arr: array<byte>)
    ensures fresh(arr) && arr.Length == |bin|
    ensures forall i | 0 <= i < |bin| :: arr[i] as int == (bin[i] as int) % 256
    ensures forall i | 0 <= i < |bin| :: (bin[i] as int) < 256 ==> arr[i] as int == bin[i] as int
  {
    arr := new byte[|bin|];
    for i := 0 to |bin|
      invariant forall k | 0 <= k < i :: arr[k] as int == (bin[k] as int) % 256
    {
      arr[i] := ((bin[i] as int) % 256) as byte;
    }
  }
}
