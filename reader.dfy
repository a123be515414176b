/** The page-side reader of `script.js`: class `TTSReader`, its book view,
    its synthesis queue and its playback flags. Document elements become
    fields holding what they display; pdf.js, `fetch`, timers and the audio
    element are outside, and what they deliver arrives as method
    parameters. */
module Reader {
  import opened Wrappers
  import opened Text
  import opened JsonValue
  import opened RegexSplit
  import opened Pagination
  import opened Chunking
  import opened TtsService

  /** A file offered by the file input or a drop, known by its MIME type. */
  datatype FileInfo = FileInfo(mimeType: string)

  /** The voice, pitch and speed controls as `callTTSService` reads them. */
  datatype Controls = Controls(voice: string, pitch: int, rate: real)

  /** One piece of `split(/(\s+)/)` in the highlight layer. */
  datatype Token = Token(text: string, highlighted: bool)

  /** The highlight layer for `tokens`: each token in order, marked exactly
      when it starts before `position`. */
  predicate IsHighlighting(tokens: seq<string>, position: nat, h: seq<Token>) {
    |h| == |tokens| &&
    forall j | 0 <= j < |h| :: h[j] == Token(tokens[j], |Concat(tokens[..j])| < position)
  }

  function TokenTexts(h: seq<Token>): (texts: seq<string>)
    ensures |texts| == |h| && forall j | 0 <= j < |h| :: texts[j] == h[j].text
  {
    seq(|h|, j requires 0 <= j < |h| => h[j].text)
  }

  function PageLabel(page: nat, count: nat): string {
    "Page " + NatToString(page + 1) + " of " + NatToString(count)
  }

  /** What the error element shows: one of the page's fixed messages, or a
      report about one chunk. `Render` gives the text displayed. */
  datatype Notice =
    | NoNotice
    | InvalidFile
    | PdfFailure
    | NoText
    | Busy
    | NoChunks
    | CombineFailure
    | CriticalError(reason: string)
    | ChunkError(chunk: nat, reason: string)

  function Render(n: Notice): string {
    match n
    case NoNotice => ""
    case InvalidFile => "Please select a valid PDF file."
    case PdfFailure => "Error processing PDF. Please try a different file."
    case NoText => "No text available to synthesize."
    case Busy => "Audio generation already in progress. Please wait..."
    case NoChunks => "Error generating audio. Please check your API configuration."
    case CombineFailure => "Error combining audio chunks. Please try again."
    case CriticalError(reason) => "Critical error: " + reason + ". Stopping audio generation."
    case ChunkError(chunk, reason) =>
      "Error processing chunk " + NatToString(chunk) + ": " + reason + ". Continuing with remaining chunks..."
  }

  /** What one chunk's `try` in `processNextChunk` ends with: the message
      `callTTSService` threw, else the message `atob` threw while decoding
      the audio, else the object URL of the decoded audio. */
  function ChunkOutcome(outcome: FetchOutcome, decoded: Result<string, string>): (r: Result<string, string>)
    ensures r.Ok? <==> CallTTSService(outcome).Ok? && decoded.Ok?
  {
    match CallTTSService(outcome)
    case Err(thrown) => Err(thrown)
    case Ok(_) => decoded
  }

  class TTSReader {
    var pdfText: string
    /** Source of the audio element, absent until audio is combined. */
    var audio: Option<string>
    var isPlaying: bool
    var isPaused: bool

    // the chunk queue
    var textChunks: seq<string>
    var currentChunkIndex: nat
    var audioChunks: seq<string>
    var isProcessingChunks: bool
    const maxChunkSize: nat

    // the book view
    var pdfPages: seq<string>
    var currentPage: nat
    var currentReadingPosition: nat
    var isReading: bool
    /** Whether `showBookInterface` has built the page elements. */
    var bookShown: bool
    var pageText: string
    var pageLabel: string
    var prevDisabled: bool
    var nextDisabled: bool
    var highlight: seq<Token>

    // the rest of the page
    /** The error element, whose text is `Render(notice)`. */
    var notice: Notice
    var progressVisible: bool
    var controlsVisible: bool
    var synthesizeDisabled: bool
    var playDisabled: bool
    var pauseDisabled: bool
    var stopDisabled: bool

    /** Whether the current audio element walks through several chunks
        (`setupChunkedAudioEvents`), and the chunk it is at. */
    var chunkedPlayback: bool
    var playlistIndex: nat

    /** The current page is a page of the book (page 0 of an empty one). */
    ghost predicate PageValid()
      reads this`pdfPages, this`currentPage
    {
      if pdfPages == [] then currentPage == 0 else currentPage < |pdfPages|
    }

    /** Audio arrives only for chunks already taken from the queue. */
    ghost predicate QueueValid()
      reads this`audioChunks, this`currentChunkIndex, this`textChunks
    {
      |audioChunks| <= currentChunkIndex <= |textChunks|
    }

    /** The reader is never playing and paused at once. */
    ghost predicate PlaybackValid()
      reads this`isPlaying, this`isPaused
    {
      !(isPlaying && isPaused)
    }

    /** The book, its view and the chunk queue are as they were. */
    twostate predicate BookUnchanged()
      reads this
    {
      pdfText == old(pdfText) && pdfPages == old(pdfPages) && currentPage == old(currentPage)
      && bookShown == old(bookShown) && pageText == old(pageText) && pageLabel == old(pageLabel)
      && prevDisabled == old(prevDisabled) && nextDisabled == old(nextDisabled)
      && currentReadingPosition == old(currentReadingPosition) && highlight == old(highlight)
      && controlsVisible == old(controlsVisible)
      && audioChunks == old(audioChunks) && textChunks == old(textChunks)
      && currentChunkIndex == old(currentChunkIndex)
    }

    /** What `processPDF` leaves: without text, the failure notice and
        nothing else changed; with text, the trimmed text as the book shown
        at its first page, the controls shown and the queue emptied. The
        progress bar is hidden either way. */
    twostate predicate PdfProcessed(extracted: Option<string>)
      reads this
    {
      && !progressVisible
      && (extracted.None? ==> notice == PdfFailure && BookUnchanged())
      && (extracted.Some? ==>
        notice == old(notice) && pdfText == Trim(extracted.value)
        && pdfPages == PagesOf(Split(Whitespace, pdfText)) && currentPage == 0
        && bookShown && PageShown() && controlsVisible
        && audioChunks == [] && textChunks == [] && currentChunkIndex == 0)
    }

    /** What one chunk's outcome does to the queue: audio appended and the
        index moved on; a critical error stops synthesis where it is; any
        other error is reported and the chunk skipped. */
    twostate predicate ResponseTaken(result: Result<string, string>)
      reads this
    {
      && (result.Ok? ==>
            audioChunks == old(audioChunks) + [result.value]
            && currentChunkIndex == old(currentChunkIndex) + 1
            && notice == old(notice) && progressVisible == old(progressVisible)
            && isProcessingChunks == old(isProcessingChunks) && synthesizeDisabled == old(synthesizeDisabled))
      && (result.Err? && IsCritical(result.error) ==>
            audioChunks == old(audioChunks) && currentChunkIndex == old(currentChunkIndex)
            && notice == CriticalError(result.error)
            && !progressVisible && !isProcessingChunks && !synthesizeDisabled)
      && (result.Err? && !IsCritical(result.error) ==>
            audioChunks == old(audioChunks) && currentChunkIndex == old(currentChunkIndex) + 1
            && notice == ChunkError(old(currentChunkIndex) + 1, result.error)
            && progressVisible == old(progressVisible)
            && isProcessingChunks == old(isProcessingChunks) && synthesizeDisabled == old(synthesizeDisabled))
    }

    /** What `combineAudioChunks` leaves: synthesis over; without audio the
        failure notice and the player as it was, otherwise the player on the
        first chunk with Play and Stop enabled and the progress bar hidden. */
    twostate predicate Combined()
      reads this
    {
      !isProcessingChunks && !synthesizeDisabled &&
      if audioChunks == [] then
        notice == CombineFailure && audio == old(audio) && progressVisible == old(progressVisible)
        && playDisabled == old(playDisabled) && stopDisabled == old(stopDisabled)
        && chunkedPlayback == old(chunkedPlayback) && playlistIndex == old(playlistIndex)
      else
        notice == old(notice) && audio == Some(audioChunks[0]) && !playDisabled && !stopDisabled
        && !progressVisible && chunkedPlayback == (|audioChunks| > 1) && playlistIndex == 0
    }

    /** The state the constructor leaves; the buttons start as the page's
        markup would have them: only synthesis enabled. */
    constructor ()
      ensures PageValid() && QueueValid() && PlaybackValid()
      ensures pdfText == "" && audio.None? && !isPlaying && !isPaused
      ensures textChunks == [] && currentChunkIndex == 0 && audioChunks == [] && !isProcessingChunks
      ensures maxChunkSize == 5000
      ensures pdfPages == [] && currentPage == 0 && currentReadingPosition == 0 && !isReading
      ensures !bookShown && highlight == []
    {
      pdfText := "";
      audio := None;
      isPlaying, isPaused := false, false;
      textChunks, currentChunkIndex, audioChunks := [], 0, [];
      isProcessingChunks := false;
      maxChunkSize := 5000;
      pdfPages, currentPage, currentReadingPosition := [], 0, 0;
      isReading := false;
      bookShown := false;
      pageText, pageLabel := "", "";
      prevDisabled, nextDisabled := true, false;
      highlight := [];
      notice := NoNotice;
      progressVisible, controlsVisible := false, false;
      synthesizeDisabled, playDisabled, pauseDisabled, stopDisabled := false, true, true, true;
      chunkedPlayback, playlistIndex := false, 0;
    }

    // ---------------------------------------------------------- loading

    /** `handleFileSelect`: only a PDF is processed. */
    method HandleFileSelect(file: Option<FileInfo>, extracted: Option<string>)
      requires PageValid() && QueueValid()
      modifies this`progressVisible, this`notice, this`pdfText, this`pdfPages, this`currentPage,
        this`bookShown, this`pageText, this`pageLabel, this`prevDisabled, this`nextDisabled,
        this`currentReadingPosition, this`highlight, this`controlsVisible,
        this`audioChunks, this`textChunks, this`currentChunkIndex
      ensures PageValid() && QueueValid()
      ensures file.None? || file.value.mimeType != "application/pdf" ==>
        notice == InvalidFile && progressVisible == old(progressVisible) && BookUnchanged()
      ensures file.Some? && file.value.mimeType == "application/pdf" ==> PdfProcessed(extracted)
    {
      if file.Some? && file.value.mimeType == "application/pdf" {
        ProcessPdf(extracted);
      } else {
        notice := InvalidFile;
      }
    }

    /** `handleDrop`: only a first dropped file that is a PDF is processed. */
    method HandleDrop(files: seq<FileInfo>, extracted: Option<string>)
      requires PageValid() && QueueValid()
      modifies this`progressVisible, this`notice, this`pdfText, this`pdfPages, this`currentPage,
        this`bookShown, this`pageText, this`pageLabel, this`prevDisabled, this`nextDisabled,
        this`currentReadingPosition, this`highlight, this`controlsVisible,
        this`audioChunks, this`textChunks, this`currentChunkIndex
      ensures PageValid() && QueueValid()
      ensures files == [] || files[0].mimeType != "application/pdf" ==>
        notice == InvalidFile && progressVisible == old(progressVisible) && BookUnchanged()
      ensures files != [] && files[0].mimeType == "application/pdf" ==> PdfProcessed(extracted)
    {
      if |files| > 0 && files[0].mimeType == "application/pdf" {
        ProcessPdf(extracted);
      } else {
        notice := InvalidFile;
      }
    }

    /** `processPDF` after pdf.js: the extracted text (pages' items joined by
        spaces, each page followed by a blank line), or `None` when
        extraction threw. */
    method ProcessPdf(extracted: Option<string>)
      requires PageValid() && QueueValid()
      modifies this`progressVisible, this`notice, this`pdfText, this`pdfPages, this`currentPage,
        this`bookShown, this`pageText, this`pageLabel, this`prevDisabled, this`nextDisabled,
        this`currentReadingPosition, this`highlight, this`controlsVisible,
        this`audioChunks, this`textChunks, this`currentChunkIndex
      ensures PageValid() && QueueValid()
      ensures PdfProcessed(extracted)
    {
      progressVisible := true;
      if extracted.None? {
        notice := PdfFailure;
        progressVisible := false;
        return;
      }
      LoadText(extracted.value);
      FinishLoading();
    }

    /** The end of `processPDF` once the book is shown: the progress bar
        hidden, the controls shown and the previous audio chunks dropped;
        the page view stays as shown. */
    method FinishLoading()
      modifies this`progressVisible, this`controlsVisible, this`audioChunks, this`textChunks, this`currentChunkIndex
      ensures !progressVisible && controlsVisible
      ensures audioChunks == [] && textChunks == [] && currentChunkIndex == 0
      ensures old(PageShown()) ==> PageShown()
    {
      progressVisible := false;
      controlsVisible := true;
      CleanupAudioChunks();
    }

    /** The successful part of `processPDF`: the trimmed text becomes the
        book, shown at its first page. */
    method LoadText(fullText: string)
      modifies this`pdfText, this`pdfPages, this`currentPage, this`bookShown, this`pageText, this`pageLabel,
        this`prevDisabled, this`nextDisabled, this`currentReadingPosition, this`highlight
      ensures pdfText == Trim(fullText)
      ensures pdfPages == PagesOf(Split(Whitespace, pdfText)) && currentPage == 0
      ensures bookShown && PageShown()
    {
      pdfText := Trim(fullText);
      CreateBookPages();
      ShowBookInterface();
    }

    /** `createBookPages`: groups of 200 words of the text, back to page 0. */
    method CreateBookPages()
      modifies this`pdfPages, this`currentPage
      ensures PageValid()
      ensures pdfPages == PagesOf(Split(Whitespace, pdfText))
      ensures pdfPages != [] && currentPage == 0
    {
      pdfPages := Paginate(Split(Whitespace, pdfText));
      currentPage := 0;
    }

    /** `showBookInterface`: builds the page elements and shows the current
        page. */
    method ShowBookInterface()
      requires PageValid()
      modifies this`bookShown, this`pageText, this`pageLabel, this`prevDisabled, this`nextDisabled,
        this`currentReadingPosition, this`highlight
      ensures bookShown
      ensures pdfPages != [] ==>
        pageText == pdfPages[currentPage] && pageLabel == PageLabel(currentPage, |pdfPages|)
        && prevDisabled == (currentPage == 0) && nextDisabled == (currentPage == |pdfPages| - 1)
        && currentReadingPosition == 0 && highlight == []
      ensures pdfPages == [] ==>
        pageText == "" && pageLabel == PageLabel(0, 0) && prevDisabled && !nextDisabled && highlight == []
        && currentReadingPosition == old(currentReadingPosition)
    {
      bookShown := true;
      pageText, pageLabel := "", PageLabel(0, |pdfPages|);
      prevDisabled, nextDisabled := true, false;
      highlight := [];
      DisplayCurrentPage();
    }

    // ---------------------------------------------------------- book view

    /** `displayCurrentPage`. */
    method DisplayCurrentPage()
      requires PageValid()
      modifies this`pageText, this`pageLabel, this`prevDisabled, this`nextDisabled,
        this`currentReadingPosition, this`highlight
      ensures !bookShown || pdfPages == [] ==>
        pageText == old(pageText) && pageLabel == old(pageLabel) && prevDisabled == old(prevDisabled)
        && nextDisabled == old(nextDisabled) && currentReadingPosition == old(currentReadingPosition)
        && highlight == old(highlight)
      ensures bookShown && pdfPages != [] ==>
        pageText == pdfPages[currentPage] && pageLabel == PageLabel(currentPage, |pdfPages|)
        && prevDisabled == (currentPage == 0) && nextDisabled == (currentPage == |pdfPages| - 1)
        && currentReadingPosition == 0 && highlight == []
    {
      if !bookShown || |pdfPages| == 0 {
        return;
      }
      pageText := pdfPages[currentPage];
      pageLabel := PageLabel(currentPage, |pdfPages|);
      prevDisabled := currentPage == 0;
      nextDisabled := currentPage == |pdfPages| - 1;
      currentReadingPosition := 0;
      UpdateTextHighlight();
    }

    /** `updateTextHighlight`: while reading, the tokens of the page that
        start before the reading position are marked. */
    method UpdateTextHighlight()
      modifies this`highlight
      ensures !bookShown ==> highlight == old(highlight)
      ensures bookShown && !(isReading && currentReadingPosition > 0) ==> highlight == []
      ensures bookShown && isReading && currentReadingPosition > 0 ==>
        IsHighlighting(SplitKeepingSpace(pageText), currentReadingPosition, highlight)
    {
      if !bookShown {
        return;
      }
      highlight := [];
      if isReading && currentReadingPosition > 0 {
        highlight := MarkTokens(SplitKeepingSpace(pageText), currentReadingPosition);
      }
    }

    /** The current page displayed: its text, its label, the buttons that
        can move from it, and the reading position and highlight reset. */
    ghost predicate PageShown()
      reads this`pdfPages, this`currentPage, this`pageText, this`pageLabel, this`prevDisabled,
        this`nextDisabled, this`currentReadingPosition, this`highlight
    {
      currentPage < |pdfPages| && pageText == pdfPages[currentPage]
      && pageLabel == PageLabel(currentPage, |pdfPages|)
      && prevDisabled == (currentPage == 0) && nextDisabled == (currentPage == |pdfPages| - 1)
      && currentReadingPosition == 0 && highlight == []
    }

    /** The page view is as it was. */
    twostate predicate ViewUnchanged()
      reads this
    {
      pageText == old(pageText) && pageLabel == old(pageLabel) && prevDisabled == old(prevDisabled)
      && nextDisabled == old(nextDisabled) && currentReadingPosition == old(currentReadingPosition)
      && highlight == old(highlight)
    }

    /** The Previous button: back one page unless at the first. */
    method PrevClicked()
      requires PageValid() && bookShown
      modifies this`currentPage, this`pageText, this`pageLabel, this`prevDisabled, this`nextDisabled,
        this`currentReadingPosition, this`highlight
      ensures PageValid()
      ensures currentPage == if old(currentPage) > 0 then old(currentPage) - 1 else old(currentPage)
      ensures old(currentPage) > 0 ==> PageShown()
      ensures old(currentPage) == 0 ==> ViewUnchanged()
    {
      if currentPage > 0 {
        currentPage := currentPage - 1;
        DisplayCurrentPage();
      }
    }

    /** The Next button: on one page unless at the last. */
    method NextClicked()
      requires PageValid() && bookShown
      modifies this`currentPage, this`pageText, this`pageLabel, this`prevDisabled, this`nextDisabled,
        this`currentReadingPosition, this`highlight
      ensures PageValid()
      ensures currentPage ==
        if old(currentPage) < |pdfPages| - 1 then old(currentPage) + 1 else old(currentPage)
      ensures old(currentPage) < |pdfPages| - 1 ==> PageShown()
      ensures old(currentPage) >= |pdfPages| - 1 ==> ViewUnchanged()
    {
      if currentPage < |pdfPages| - 1 {
        currentPage := currentPage + 1;
        DisplayCurrentPage();
      }
    }

    // ---------------------------------------------------------- the queue

    /** `cleanupAudioChunks`. */
    method CleanupAudioChunks()
      modifies this`audioChunks, this`textChunks, this`currentChunkIndex
      ensures audioChunks == [] && textChunks == [] && currentChunkIndex == 0
    {
      audioChunks := [];
      textChunks := [];
      currentChunkIndex := 0;
    }

    /** The queue and the synthesis flags are as they were. */
    twostate predicate QueueUnchanged()
      reads this
    {
      textChunks == old(textChunks) && isProcessingChunks == old(isProcessingChunks)
      && currentChunkIndex == old(currentChunkIndex) && audioChunks == old(audioChunks)
      && synthesizeDisabled == old(synthesizeDisabled) && progressVisible == old(progressVisible)
    }

    /** `synthesizeAudio` up to the first `processNextChunk`, which is the
        next step. */
    method SynthesizeAudio()
      requires QueueValid()
      modifies this`notice, this`audioChunks, this`textChunks, this`currentChunkIndex,
        this`isProcessingChunks, this`synthesizeDisabled, this`progressVisible
      ensures QueueValid()
      ensures old(pdfText) == "" ==>
        notice == NoText && QueueUnchanged()
      ensures old(pdfText) != "" && old(isProcessingChunks) ==>
        notice == Busy && QueueUnchanged()
      ensures old(pdfText) != "" && !old(isProcessingChunks) ==>
        audioChunks == [] && currentChunkIndex == 0
        && GoodChunks(textChunks, maxChunkSize) && ConcatWords(textChunks) == Words(pdfText)
        && (textChunks == [] <==> IsBlank(pdfText))
        && (textChunks != [] ==>
              notice == old(notice) && isProcessingChunks && synthesizeDisabled && progressVisible)
        && (textChunks == [] ==>
              notice == NoChunks && !isProcessingChunks && !synthesizeDisabled && !progressVisible)
    {
      if pdfText == "" {
        notice := NoText;
        return;
      }
      if isProcessingChunks {
        notice := Busy;
        return;
      }
      StartSynthesis();
    }

    /** The `try` of `synthesizeAudio`: a fresh queue of chunks of the text,
        or, when chunking gives none, the `catch`. */
    method StartSynthesis()
      modifies this`notice, this`audioChunks, this`textChunks, this`currentChunkIndex,
        this`isProcessingChunks, this`synthesizeDisabled, this`progressVisible
      ensures audioChunks == [] && currentChunkIndex == 0
      ensures GoodChunks(textChunks, maxChunkSize) && ConcatWords(textChunks) == Words(pdfText)
      ensures textChunks == [] <==> IsBlank(pdfText)
      ensures textChunks != [] ==>
        isProcessingChunks && synthesizeDisabled && progressVisible && notice == old(notice)
      ensures textChunks == [] ==>
        notice == NoChunks && !isProcessingChunks && !synthesizeDisabled && !progressVisible
    {
      CleanupAudioChunks();
      isProcessingChunks, synthesizeDisabled := true, true;
      ChunkPdfText();
      if |textChunks| == 0 {
        StopSynthesis(NoChunks);
      } else {
        progressVisible := true;
      }
    }

    /** `this.textChunks = this.chunkText(this.pdfText)`. */
    method ChunkPdfText()
      modifies this`textChunks
      ensures GoodChunks(textChunks, maxChunkSize) && ConcatWords(textChunks) == Words(pdfText)
      ensures textChunks == [] <==> IsBlank(pdfText)
    {
      textChunks := ChunkText(pdfText, maxChunkSize);
    }

    /** Synthesis given up: the notice shown, the progress bar hidden and
        the Synthesize button enabled again. */
    method StopSynthesis(n: Notice)
      modifies this`notice, this`progressVisible, this`isProcessingChunks, this`synthesizeDisabled
      ensures notice == n && !progressVisible && !isProcessingChunks && !synthesizeDisabled
    {
      notice := n;
      progressVisible := false;
      isProcessingChunks := false;
      synthesizeDisabled := false;
    }

    /** `processNextChunk` as one step: past the last chunk it combines the
        audio; otherwise it sends the current chunk (the request is
        returned). `outcome` is what the server answered with, `decoded`
        what `base64ToBlob` and `URL.createObjectURL` made of the audio: the
        object URL, or the message of the error `atob` threw. */
    method ProcessNextChunk(outcome: FetchOutcome, decoded: Result<string, string>, controls: Controls)
      returns (sent: Option<Json>)
      requires QueueValid()
      modifies this`notice, this`audio, this`playDisabled, this`stopDisabled, this`progressVisible,
        this`isProcessingChunks, this`synthesizeDisabled, this`chunkedPlayback, this`playlistIndex,
        this`audioChunks, this`currentChunkIndex
      ensures QueueValid()
      ensures old(currentChunkIndex == |textChunks|) ==>
        sent.None? && Combined()
        && audioChunks == old(audioChunks) && currentChunkIndex == old(currentChunkIndex)
      ensures old(currentChunkIndex < |textChunks|) ==>
        sent == Some(old(ClientRequest(textChunks[currentChunkIndex], pdfText,
                                       controls.voice, controls.pitch, controls.rate)))
        && ResponseTaken(ChunkOutcome(outcome, decoded))
        && audio == old(audio) && playDisabled == old(playDisabled) && stopDisabled == old(stopDisabled)
        && chunkedPlayback == old(chunkedPlayback) && playlistIndex == old(playlistIndex)
    {
      if currentChunkIndex >= |textChunks| {
        CombineAudioChunks();
        return None;
      }
      sent := SendChunk(ChunkOutcome(outcome, decoded), controls);
    }

    /** The `try` of `processNextChunk`: the current chunk sent, then its
        outcome (`ChunkOutcome`) taken. */
    method SendChunk(result: Result<string, string>, controls: Controls)
      returns (sent: Option<Json>)
      requires QueueValid() && currentChunkIndex < |textChunks|
      modifies this`notice, this`progressVisible, this`isProcessingChunks, this`synthesizeDisabled,
        this`audioChunks, this`currentChunkIndex
      ensures QueueValid()
      ensures sent == Some(old(ClientRequest(textChunks[currentChunkIndex], pdfText,
                                             controls.voice, controls.pitch, controls.rate)))
      ensures ResponseTaken(result)
    {
      var currentChunk := textChunks[currentChunkIndex];
      sent := Some(ClientRequest(currentChunk, pdfText, controls.voice, controls.pitch, controls.rate));
      TakeResponse(result);
    }

    /** The `try`/`catch` of `processNextChunk` around one chunk's outcome:
        the object URL of its audio, or the message of the error thrown. */
    method TakeResponse(result: Result<string, string>)
      requires QueueValid() && currentChunkIndex < |textChunks|
      modifies this`notice, this`progressVisible, this`isProcessingChunks, this`synthesizeDisabled,
        this`audioChunks, this`currentChunkIndex
      ensures QueueValid()
      ensures ResponseTaken(result)
    {
      if result.Ok? {
        audioChunks := audioChunks + [result.value];
        currentChunkIndex := currentChunkIndex + 1;
      } else {
        var message := result.error;
        if IsCritical(message) {
          StopSynthesis(CriticalError(message));
          return;
        }
        notice := ChunkError(currentChunkIndex + 1, message);
        currentChunkIndex := currentChunkIndex + 1;
      }
    }

    /** `combineAudioChunks`: the first chunk goes into a new audio element;
        with several, the element walks through them. */
    method CombineAudioChunks()
      modifies this`notice, this`audio, this`playDisabled, this`stopDisabled, this`progressVisible,
        this`isProcessingChunks, this`synthesizeDisabled, this`chunkedPlayback, this`playlistIndex
      ensures Combined()
    {
      if |audioChunks| == 0 {
        notice := CombineFailure;
      } else {
        SetUpAudio();
      }
      isProcessingChunks := false;
      synthesizeDisabled := false;
    }

    /** The audio element on the first chunk (with `setupChunkedAudioEvents`
        when there are several), the playback buttons enabled and the
        progress bar hidden. */
    method SetUpAudio()
      requires audioChunks != []
      modifies this`audio, this`playDisabled, this`stopDisabled, this`progressVisible,
        this`chunkedPlayback, this`playlistIndex
      ensures audio == Some(audioChunks[0]) && !playDisabled && !stopDisabled && !progressVisible
      ensures chunkedPlayback == (|audioChunks| > 1) && playlistIndex == 0
    {
      audio := Some(audioChunks[0]);
      chunkedPlayback := |audioChunks| > 1;
      playlistIndex := 0;
      playDisabled := false;
      stopDisabled := false;
      progressVisible := false;
    }

    // ---------------------------------------------------------- playback

    /** The audio element's `play` event. */
    method OnPlay()
      requires PlaybackValid()
      modifies this`isPlaying, this`isPaused, this`playDisabled, this`pauseDisabled
      ensures PlaybackValid()
      ensures isPlaying && !isPaused && playDisabled && !pauseDisabled
    {
      isPlaying, isPaused := true, false;
      playDisabled, pauseDisabled := true, false;
    }

    /** The audio element's `pause` event. */
    method OnPause()
      requires PlaybackValid()
      modifies this`isPlaying, this`isPaused, this`playDisabled, this`pauseDisabled
      ensures PlaybackValid()
      ensures !isPlaying && isPaused && !playDisabled && pauseDisabled
    {
      isPlaying, isPaused := false, true;
      playDisabled, pauseDisabled := false, true;
    }

    /** The audio element's `ended` event: with several chunks the element
        moves on to the next one; then the flags go back to stopped. */
    method OnEnded()
      requires PlaybackValid()
      modifies this`isPlaying, this`isPaused, this`playDisabled, this`pauseDisabled,
        this`playlistIndex, this`audio
      ensures PlaybackValid()
      ensures !isPlaying && !isPaused && !playDisabled && pauseDisabled
      ensures playlistIndex == if chunkedPlayback then old(playlistIndex) + 1 else old(playlistIndex)
      ensures audio == if chunkedPlayback && playlistIndex < |audioChunks|
                       then Some(audioChunks[playlistIndex]) else old(audio)
    {
      if chunkedPlayback {
        playlistIndex := playlistIndex + 1;
        if playlistIndex < |audioChunks| {
          audio := Some(audioChunks[playlistIndex]);
        }
      }
      isPlaying, isPaused := false, false;
      playDisabled, pauseDisabled := false, true;
    }

    /** `stopAudio`: with an audio element, back to stopped. */
    method StopAudio()
      requires PlaybackValid()
      modifies this`isPlaying, this`isPaused, this`playDisabled, this`pauseDisabled
      ensures PlaybackValid()
      ensures old(audio).Some? ==> !isPlaying && !isPaused && !playDisabled && pauseDisabled
      ensures old(audio).None? ==>
        isPlaying == old(isPlaying) && isPaused == old(isPaused)
        && playDisabled == old(playDisabled) && pauseDisabled == old(pauseDisabled)
    {
      if audio.Some? {
        isPlaying, isPaused := false, false;
        playDisabled, pauseDisabled := false, true;
      }
    }
  }

  /** The loop of `updateTextHighlight`: walks the tokens keeping the
      offset of the current one, and marks those starting before
      `position`. */
  method MarkTokens(tokens: seq<string>, position: nat) returns (marked: seq<Token>)
    ensures IsHighlighting(tokens, position, marked)
  {
    var currentPos := 0;
    marked := [];
    for i := 0 to |tokens|
      invariant currentPos == |Concat(tokens[..i])|
      invariant IsHighlighting(tokens[..i], position, marked)
    {
      HighlightStep(tokens, i, position, marked);
      marked := marked + [Token(tokens[i], currentPos < position)];
      ConcatStep(tokens, i);
      currentPos := currentPos + |tokens[i]|;
    }
    assert tokens[..|tokens|] == tokens;
  }

  /** Marking token `i` extends the highlighting of the tokens before it. */
  lemma HighlightStep(tokens: seq<string>, i: nat, position: nat, marked: seq<Token>)
    requires i < |tokens| && IsHighlighting(tokens[..i], position, marked)
    ensures IsHighlighting(tokens[..i + 1], position,
      marked + [Token(tokens[i], |Concat(tokens[..i])| < position)])
  {
    var ts, h := tokens[..i + 1], marked + [Token(tokens[i], |Concat(tokens[..i])| < position)];
    forall j | 0 <= j < |h|
      ensures h[j] == Token(ts[j], |Concat(ts[..j])| < position)
    {
      assert ts[..j] == tokens[..j];
      if j < i {
        assert tokens[..i][..j] == tokens[..j];
      }
    }
  }

  lemma ConcatStep(tokens: seq<string>, i: nat)
    requires i < |tokens|
    ensures Concat(tokens[..i + 1]) == Concat(tokens[..i]) + tokens[i]
  {
    assert tokens[..i + 1][..i] == tokens[..i];
  }

  lemma ConcatPrefixLength(tokens: seq<string>, i: nat, j: nat)
    requires i <= j <= |tokens|
    ensures |Concat(tokens[..i])| <= |Concat(tokens[..j])|
  {
    assert tokens[..j] == tokens[..i] + tokens[i..j];
    ConcatAppend(tokens[..i], tokens[i..j]);
  }

  /** The marked tokens are a prefix: a marked token is preceded only by
      marked tokens. */
  lemma HighlightIsPrefix(tokens: seq<string>, position: nat, h: seq<Token>, i: nat, j: nat)
    requires IsHighlighting(tokens, position, h)
    requires i <= j < |h| && h[j].highlighted
    ensures h[i].highlighted
  {
    ConcatPrefixLength(tokens, i, j);
  }

  /** The highlight layer spells out the page text exactly. */
  lemma HighlightCoversPage(text: string, position: nat, h: seq<Token>)
    requires IsHighlighting(SplitKeepingSpace(text), position, h)
    ensures Concat(TokenTexts(h)) == text
  {
    assert TokenTexts(h) == SplitKeepingSpace(text);
    SplitKeepingSpaceConcat(text);
  }
}
