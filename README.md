# NeuralTTS in Dafny

NeuralTTS turns the text of a PDF into speech. It has three parts:

- a Flask proxy (`server.py`) that holds the Google Cloud API key and forwards synthesis requests to the text-to-speech service;
- a browser reader written as a plain class (`script.js`, class `TTSReader`) that:
  - extracts the PDF text and pages it into 200-word pages for a book view;
  - cuts the text into chunks of at most about 5000 characters;
  - sends the chunks to the proxy one after another and plays the resulting audio chunk by chunk;
- a React version of the reader (`TTS/src/TTSReader.tsx`) that sends the whole text in one request.

A small sign-up validator (`account.js`) completes the core.

This project models those parts and proves properties about the model:

- `Server` models the two endpoints, `synthesize` and `health`, as pure functions of:
  - the decoded request body;
  - the configured API key;
  - what the upstream service did.

  `synthesize` returns the HTTP status, the JSON reply and the upstream call it makes. `health` returns the health report.
- `Reader.TTSReader` is a class whose fields are the reader's state. Its methods are the event handlers and the steps of the chunk queue, each with a `modifies` frame and a contract tying the new state to the old one.
- `Chunking.ChunkText` and `Pagination.Paginate` are loops, like the source's. Each is proved against a specification:
  - chunking loses no word and keeps each chunk within the limit;
  - pagination yields the unique split into 200-word pages, and it preserves the words.
- `TtsService` models how the browser turns a `fetch` outcome into audio or an error message, and which messages stop the queue.
- `EndToEnd` connects the two sides:
  - a request built by the browser reaches the upstream service with the browser's fields;
  - a missing key stops the browser's queue;
  - a timeout does not stop it.
- `ReactReader` models the React component's state hooks as one immutable record, with each handler a transition between records.
- `Account.OnSubmit` models the click handler of the sign-up form. It is proved to show exactly the messages its four rules call for.

The supporting modules are:

- `Text`: JavaScript's whitespace class, `trim`, substring search, decimal rendering, joining, and the words of a string.
- `RegexSplit`: the three regular-expression splits the reader uses, written as leftmost-match scans.
- `JsonValue`: JSON values with Python's and JavaScript's notions of truthiness.

Things the model does that the repository's own description does not lead one to expect (the model follows the code):

- A request body that `get_json` cannot decode raises inside the handler's `try`. The final `except Exception` turns it into a 500 "Internal server error: …". It is not the 400 "Text is required" the description promises for a malformed body (`Server.Synthesize`, `RequestBody.Unparseable`).
- The text check is `'text' not in data`, so a request whose `text` is the empty string is forwarded upstream rather than refused (`Server.Forward`).
- When the upstream answers 200 with a body that is not JSON, `response.json()` raises a decoding error. In `requests` that error is a `RequestException`, so the reply is "Network error: …" with `mockAudio` set, rather than a generic internal error (`Server.Respond`).
- A body that is truthy but not a dict reaches a `TypeError` or an `AttributeError`. The model reproduces Python's own message for it (`Server.Synthesize`).
- A `RequestException` raised by the connection pool ("Max retries exceeded with url: …") quotes the request path with its query string. The query holds the API key, so the "Network error: …" reply can hand the key back to the browser (`Server.KeyEchoedOnConnectionFailure`).
- When the server flags `mockAudio` or sends no audio and no error, the browser throws "Could not generate audio. The API key …". Its own `catch` then prefixes that message with "Could not generate audio." a second time (`TtsService.DefaultFailureIsCritical`). The message still counts as critical, because it contains "API key".

## Model

| member | source | states |
|---|---|---|
| Server.Synthesize | server.py:32-103 | The status is always one of 200, 400, 408 or 500. It is 200 exactly when the reply is a success. It is 400 exactly when the decoded body is falsy or lacks "text", and that reply is "Text is required" with no upstream call. An upstream call is made exactly when the body is a dict holding "text" and the key is configured. |
| Server.TextIn | server.py:42 | `'text' in data` on a truthy body: raises (an error) exactly for values other than dicts, lists and strings, and is false exactly when the body lacks the text. |
| Server.Forward | server.py:45-96 | Once the body is a dict with "text": an upstream call is made exactly when the key is configured, and the answer is never a 400. |
| Server.Respond | server.py:85-103 | The mapping of the upstream outcome of a call made with the key: status in {200, 408, 500}, 200 exactly for a success reply, 408 exactly for a timeout. |
| Server.ReplyJson | server.py:87-96 | The JSON `jsonify` sends: "success" exactly for a success reply; a failure carries its message under "error", and "mockAudio" exactly when the mock flag is set. |
| Server.HealthReport | server.py:105-111 | The status is always "healthy"; `api_key_configured` holds exactly when the key is set and non-empty. |
| Server.MissingKey | server.py:53-57 | Without a configured key, the upstream service is never contacted. A dict holding "text" gets 500 with the configuration message and `mockAudio`. A body lacking text still gets 400, because the text check comes first. |
| Server.PayloadAt | server.py:60-75 | The upstream payload has exactly the sections audioConfig, input and voice. It carries the text, the voice name, the language, the model, the pitch and the rate at their places, LINEAR16 encoding and SSML time-pointing. |
| Server.PayloadFields | server.py:45-50 | For a dict with "text" and a configured key, the payload carries the request's own fields. Each missing field is replaced by its default: Kore, en-US, gemini-2.5-pro-preview-tts, pitch 0, rate 1.0. |
| Server.CallShape | server.py:77-83 | Every upstream call goes to the endpoint with `?key=` and the key appended, with a 30-second timeout, a LINEAR16 and SSML audio configuration, and exactly the three payload sections. |
| Server.KeyOnlyInUrl | server.py:77-103 | Unless a connection error quotes the request URL, two different non-empty keys give the same status, the same reply and the same payload: the key appears only in the URL. |
| Server.KeyEchoedOnConnectionFailure | server.py:100-101 | A connection error that quotes the request URL answers 500 with `mockAudio` and an error text containing the key, and two different keys give two different replies. |
| Server.UpstreamSuccess | server.py:85-91 | An upstream 200 with a JSON object answers 200 with its audioContent (None when absent) and its timepoints ([] when absent). |
| Server.UpstreamRejection | server.py:92-96 | An upstream non-200 answers 500 with `mockAudio`, and the error message contains both the status code and the upstream body text verbatim. |
| Server.ExceptionMapping | server.py:98-103 | A timeout gives 408 with the timeout message and no mock flag. Any other request exception whose text does not quote the URL gives 500 with "Network error: " and that text, plus `mockAudio`. Any other exception gives 500 with "Internal server error: " and the reason, without `mockAudio`. |
| Server.HealthPredictsCall | server.py:105-111 | For a request with text, the health report's `api_key_configured` holds exactly when synthesis contacts the upstream service. |
| TtsService.ClientRequest | script.js:534-543 | The body posted has exactly the six fields. Its text is the chunk, or the whole document when the chunk is empty; its language is en-US and its model is gemini-2.5-pro-preview-tts. |
| TtsService.Rethrow | script.js:571-581 | Every re-thrown message starts with "Could not generate audio.". A message mentioning "API request failed", or not mentioning "Network error", is kept after the prefix. Otherwise it is replaced by the connection advice. |
| TtsService.CallTTSService | script.js:534-582 | The result is audio exactly when the response is ok, its JSON decodes, `mockAudio` is falsy and `audioContent` is truthy, and the audio is that content. Every error message starts with "Could not generate audio.". |
| TtsService.RejectedResponseMessage | script.js:554-557 | A response that is not ok gives "Could not generate audio. API request failed: …", built from the status, the status text and the server's error (or "Unknown error"). The message contains the status code. |
| TtsService.ThrownBeforeStatus | script.js:545-581 | A rejected `fetch` or a body that is not JSON throws its own message through the `catch`, so a "Network error" without "API request failed" becomes the connection advice. |
| TtsService.MockOrNoAudioMessage | script.js:559-567 | An ok response flagged `mockAudio` or without audio content throws the server's error, or, when there is none, the doubly prefixed default message, which is critical. |
| TtsService.RequestFailedHead | script.js:556 | The message for a failed response contains "API request failed", so the `catch` keeps it. |
| TtsService.RequestFailedStatus | script.js:556 | The prefixed failure message contains the decimal status code. |
| TtsService.DefaultFailureNoNetwork | script.js:566 | The default failure message does not mention "Network error". |
| TtsService.DefaultFailureIsCritical | script.js:562-567 | The default failure message mentions "API key" and "quota". Re-thrown, it is prefixed once more, and the result is a critical error for the queue. |
| EndToEnd.ClientView | script.js:554-562 | The server's exchange as the browser sees it: the same status, with the server's error and mock flag, or its audio. |
| EndToEnd.ClientRequestForwarded | script.js:534-543 | A request built by the browser, sent with a configured key, always reaches the upstream service. It carries the chunk (or the document), the voice, en-US, the model, the pitch and the rate at their payload places. It is never answered 400. |
| EndToEnd.ClientOkIff | script.js:554-570 | The browser gets audio exactly when the server replied success with truthy audio. Every server failure surfaces as "Could not generate audio. API request failed: …" with the server's status. |
| EndToEnd.MissingKeyIsCritical | server.py:53-57 | Without a key, a chunk's request gets 500 without contacting the upstream service. The browser's error for it is critical, so the queue stops (script.js:464). |
| EndToEnd.TimeoutIsNotCritical | server.py:98-99 | An upstream timeout gives 408. The browser's error for it is not critical, so the queue goes on to the next chunk (script.js:472-477). |
| EndToEnd.TimeoutReportNotCritical | script.js:556 | The browser's message for a 408 with the timeout text is not critical. |
| EndToEnd.AudioReachesPage | server.py:85-91 | Truthy audio content from an upstream 200 is exactly what the browser's `callTTSService` returns. |
| Chunking.ChunkText | script.js:312-386 | Every chunk is non-empty and trimmed, and at most two characters over the limit unless it is a single longer word. The chunks' words, concatenated, are exactly the words of the text. There are no chunks exactly when the text is blank. |
| Chunking.PackParagraph | script.js:322-378 | One paragraph added to the running chunk (joined with a blank line, or split further when too long): the chunks stay good, the running chunk stays within the limit plus two, and the words so far grow by exactly the paragraph's words. |
| Chunking.ChunkSentences | script.js:332-371 | A paragraph split at sentence ends: good chunks, a left-over sentence chunk within the limit plus one, and exactly the paragraph's words added. |
| Chunking.PackSentence | script.js:336-367 | One sentence added to the sentence chunk: the chunks stay good, the sentence chunk stays within the limit plus one, and exactly the sentence's words are added. |
| Chunking.ChunkWords | script.js:344-360 | A sentence split at whitespace into chunks of whole words: good chunks, and exactly the sentence's words added. |
| Chunking.PackWord | script.js:348-356 | One word added to the word chunk, flushing it first when the word would overflow: good chunks, a word chunk within the limit (or a single word), and exactly the word added. |
| Chunking.Flush | script.js:326-329 | Pushing the trimmed running chunk when it has content: good chunks, no words lost, and the running chunk is emptied exactly when it was pushed. |
| Chunking.Append | script.js:376 | Joining with a separator adds the separator's length only when the running chunk is non-empty. |
| Chunking.AppendWords | script.js:376 | Joining with a blank separator concatenates the two parts' words. |
| Chunking.PushTrimmed | script.js:326-327 | Pushing `trim()` of a running chunk with content keeps every chunk good and adds exactly that chunk's words. |
| Chunking.BlankHasNoWords | script.js:381 | A running chunk that is empty once trimmed has no words, so dropping it loses nothing. |
| Chunking.GoodChunksHaveWords | script.js:409-411 | A list of good chunks has no words exactly when it is empty, so "No text chunks created" happens exactly for blank text. |
| Pagination.Paginate | script.js:194-206 | The page loop gives exactly `PagesOf` of the words. |
| Pagination.PagesOfPaginates | script.js:200-203 | `PagesOf` is a pagination: page k is the words from 200·k up to 200·(k+1) (or the end) joined by spaces, and the pages cover the words. |
| Pagination.PaginationUnique | script.js:200-203 | A list of words has only one pagination. |
| Pagination.PagesOf | script.js:194-206 | Words give at least one page. |
| Pagination.PagesPreserveWords | script.js:194-206 | For words with no whitespace, the words of the pages, concatenated, are exactly the original words. |
| Pagination.PagesOfPreserveWords | script.js:194-206 | The same for `PagesOf`, by induction on the words. |
| Pagination.FullPages | script.js:196-202 | Every page but the last has exactly 200 words. |
| Pagination.TrimmedSplitAreWords | script.js:197 | `split(/\s+/)` of non-empty trimmed text is exactly its words, each non-empty and free of whitespace. |
| Pagination.TextPagination | script.js:173-206 | The pages of a document that is not blank hold exactly its words, and all but the last hold 200. |
| Pagination.BlankTextPagination | script.js:173-206 | A blank document gives a single empty page. |
| RegexSplit.FindMatch | script.js:318 | The leftmost match at or after the start: a blank stretch where the pattern matches, with no match before it; none means no match anywhere after the start. |
| RegexSplit.MatchAt | script.js:333 | A match of the paragraph, sentence or whitespace pattern is a non-empty blank stretch. |
| RegexSplit.SpaceRunEnd | script.js:345 | `\s+` extends to the end of the whitespace run. |
| RegexSplit.LastNewline | script.js:318 | The newline found lies in the searched range. |
| RegexSplit.Split | script.js:197 | A split always gives at least one piece. |
| RegexSplit.SplitStep | script.js:318 | A split is the text before the first match followed by the split of the rest. |
| RegexSplit.SplitKeepsWords | script.js:318 | The pieces of a split on a whitespace pattern hold exactly the words of the text. |
| RegexSplit.WhitespacePiecesHaveNoSpace | script.js:197 | No piece of `split(/\s+/)` contains whitespace. |
| RegexSplit.SplitTrimmedIsWords | script.js:197 | On non-empty trimmed text, `split(/\s+/)` gives exactly its words. |
| RegexSplit.SplitKeepingSpace | script.js:294 | `split(/(\s+)/)` gives at least one token. |
| RegexSplit.SplitKeepingSpaceStep | script.js:294 | That split yields the text before the match, the captured whitespace, then the split of the rest. |
| RegexSplit.SplitKeepingSpaceConcat | script.js:294 | The tokens of `split(/(\s+)/)`, concatenated, give back the text. |
| Text.Trim | script.js:173 | The trimmed string has no whitespace at either end and is no longer than the input. |
| Text.TrimSplit | script.js:173 | Every string is blank leading text, then its trim, then blank trailing text: `trim` removes only whitespace at the ends. |
| Text.TrimEmptyIffBlank | account.js:11 | `trim() === ""` holds exactly for strings made only of whitespace. |
| Text.TrimOfTrimmed | script.js:173 | Trimming a trimmed string changes nothing. |
| Text.WordsTrim | script.js:173 | Trimming does not change a string's words. |
| Text.WordsAcrossSpace | script.js:376 | The words of two parts joined by blank text are the words of each part, in order. |
| Text.WordsOfJoin | script.js:202 | Joining whitespace-free non-empty words with single spaces gives back exactly those words. |
| Text.WordsAreWords | script.js:197 | Every word is non-empty and free of whitespace. |
| Text.WordsOfNonBlank | script.js:409 | A string that is not blank has at least one word. |
| Text.IntToString | server.py:94 | The decimal rendering of a status code is non-empty and made of digits and a minus sign. |
| Text.NatToString | script.js:274 | The decimal rendering of a page number is non-empty and made of digits. |
| Text.NatToStringValue | script.js:274 | The rendering of a page number reads back as that number, and begins with 0 only for 0 itself. |
| Text.IntToStringValue | server.py:94 | The rendering of a status code begins with a minus sign exactly for a negative code, and the digits read back as its magnitude. |
| JsonValue.Get | server.py:46-50 | `dict.get` gives the stored value when the key is present and the default otherwise. |
| Reader.TTSReader.constructor | script.js:2-25 | The initial state: no text, pages, chunks or audio; a chunk limit of 5000; not processing, playing, paused or reading; and every invariant holds. |
| Reader.TTSReader.HandleFileSelect | script.js:143-150 | Anything but a PDF shows "Please select a valid PDF file." and changes nothing else, the progress bar included. A PDF goes through `processPDF`, with the outcome stated for `ProcessPdf`. |
| Reader.TTSReader.HandleDrop | script.js:131-141 | The same, for the first dropped file; no file at all is refused. |
| Reader.TTSReader.ProcessPdf | script.js:152-187 | The progress bar ends hidden. A failed extraction shows the PDF error and changes nothing else. Extracted text is trimmed and paginated and shown at page 1: its text, its label, Previous disabled, Next enabled unless there is one page, no reading position or highlight. The controls are shown, the chunk queue is emptied and the notice is kept. |
| Reader.TTSReader.LoadText | script.js:173-175 | The trimmed text and its pages become the book, shown at the first page with its label, the buttons set for it, and no reading position or highlight. |
| Reader.TTSReader.FinishLoading | script.js:176-180 | The progress bar is hidden, the controls are shown and the queue is emptied; a page shown stays shown. |
| Reader.TTSReader.CreateBookPages | script.js:194-206 | The pages are `PagesOf` the text's whitespace split, there is at least one, and the reader is at page 0. |
| Reader.TTSReader.ShowBookInterface | script.js:208-249 | The book is shown at the current page, with its text, its "Page n of m" label, the navigation buttons, a reset reading position and no highlight. An empty book shows the markup's defaults: no text, the label "Page 1 of 0", Previous disabled and Next enabled, with the reading position unchanged. |
| Reader.TTSReader.DisplayCurrentPage | script.js:267-283 | Without the book or pages, nothing changes. Otherwise the page text, its label and both buttons follow the current page, and the reading position is reset. |
| Reader.TTSReader.UpdateTextHighlight | script.js:285-310 | Without the book nothing changes. While reading past position 0, the highlight layer is the page's tokens, marked exactly when they start before the position. Otherwise the layer is cleared. |
| Reader.TTSReader.PrevClicked | script.js:252-257 | Previous moves back one page and displays it: text, label, buttons, a reset reading position and no highlight. On the first page, nothing in the view changes. |
| Reader.TTSReader.NextClicked | script.js:259-264 | Next moves on one page and displays it the same way. On the last page, nothing in the view changes. |
| Reader.TTSReader.CleanupAudioChunks | script.js:667-677 | The audio and text chunks are emptied and the queue index is reset. |
| Reader.TTSReader.SynthesizeAudio | script.js:388-426 | Without text, it shows "No text available"; while processing, it shows the in-progress notice; either way the queue, the button and the progress bar are unchanged. Otherwise it starts a fresh queue of good chunks holding exactly the text's words, with the notice kept. A blank text instead ends in the configuration error with the button enabled again. The queue invariant is kept. |
| Reader.TTSReader.StartSynthesis | script.js:399-425 | The `try` of `synthesizeAudio`: an empty audio list, chunks that are good and hold exactly the text's words, and the error path exactly when there are no chunks. |
| Reader.TTSReader.ChunkPdfText | script.js:407 | The queue's chunks are good, hold exactly the text's words, and are empty exactly when the text is blank. |
| Reader.TTSReader.StopSynthesis | script.js:419-425 | The notice is shown, the progress bar hidden, processing stopped and the button enabled. |
| Reader.TTSReader.ProcessNextChunk | script.js:428-479 | Past the last chunk, the audio is combined and the queue is unchanged. Otherwise it posts the current chunk and takes its outcome, leaving the player untouched. Decoded audio appends its URL and moves on. A critical error, from the service or from decoding, stops the queue at that chunk with "Critical error: …". Any other error reports the chunk's number and moves on. Audio never outruns the queue. |
| Reader.TTSReader.SendChunk | script.js:434-478 | For a chunk that is sent: the request posted for it, and the outcomes stated for `TakeResponse`. |
| Reader.TTSReader.TakeResponse | script.js:441-478 | The three outcomes of a chunk, keeping the queue invariant. Audio changes only the queue. A critical error changes the queue flags, the progress bar and the notice, but not the index. A skipped chunk changes only the notice and the index. |
| Reader.ChunkOutcome | script.js:437-447 | A chunk yields audio exactly when the service returned audio and decoding it succeeded. |
| Reader.TTSReader.CombineAudioChunks | script.js:481-512 | Processing always ends. With no audio, the combine error is shown and the player, its buttons and the progress bar are unchanged. Otherwise the audio element plays the first chunk, walking through the chunks when there are several, with Play and Stop enabled, the progress bar hidden and the notice kept. |
| Reader.TTSReader.SetUpAudio | script.js:489-502 | The first chunk is loaded, the play and stop buttons are enabled and the progress bar hidden. |
| Reader.TTSReader.OnPlay | script.js:622-627 | Playing, not paused; Play disabled, Pause enabled. |
| Reader.TTSReader.OnPause | script.js:629-634 | Paused, not playing; Play enabled, Pause disabled. |
| Reader.TTSReader.OnEnded | script.js:517-531 | With several chunks, the element moves to the next chunk while there is one. Then the flags return to stopped, as the `ended` listener at script.js:636-641 sets them. |
| Reader.TTSReader.StopAudio | script.js:656-665 | With audio, it returns to stopped; without, nothing changes. |
| Reader.MarkTokens | script.js:295-306 | The loop marks each token exactly when the running offset, the total length of the tokens before it, is below the reading position. |
| Reader.HighlightStep | script.js:298-306 | One iteration extends a correct highlight of a prefix to the next token. |
| Reader.HighlightIsPrefix | script.js:300 | The marked tokens form a prefix: a marked token has only marked tokens before it. |
| Reader.HighlightCoversPage | script.js:294-308 | The highlight layer's tokens, joined, are exactly the page text. |
| Reader.ConcatPrefixLength | script.js:305 | The running offset never decreases. |
| Reader.TokenTexts | script.js:308 | The texts of the highlight layer, token by token. |
| ReactReader.Initial | TTS/src/TTSReader.tsx:9-20 | The initial hooks: no pages, no audio, no text, voice Kore, speed 1, pitch 0, progress hidden. |
| ReactReader.HandleFile | TTS/src/TTSReader.tsx:23-47 | Anything but a PDF sets the file error. A failed extraction sets the PDF error and hides progress. Extracted text is trimmed and paginated into at least one page, and progress is hidden. Nothing else changes. |
| ReactReader.OnDrop | TTS/src/TTSReader.tsx:50-53 | Dropping nothing, or a first file that is not a PDF, sets only the file error. A dropped PDF is handled as `HandleFile` handles it. |
| ReactReader.PrevClicked | TTS/src/TTSReader.tsx:120 | Previous is a no-op while disabled on the first page, and otherwise moves back one page; nothing else changes. |
| ReactReader.NextClicked | TTS/src/TTSReader.tsx:122 | Next is a no-op while disabled on the last page, and otherwise moves on one page; nothing else changes. |
| ReactReader.NextThenPrev | TTS/src/TTSReader.tsx:120-122 | Next followed by Previous returns to the same state. |
| ReactReader.PrevThenNext | TTS/src/TTSReader.tsx:120-122 | Previous followed by Next returns to the same state. |
| ReactReader.Request | TTS/src/TTSReader.tsx:64-71 | The body posted holds the whole text, the voice, the pitch and the speed, with the fixed language and model. |
| ReactReader.Synthesize | TTS/src/TTSReader.tsx:57-85 | Without text it only shows "No text to synthesize.". Otherwise it posts the request. Usable audio becomes the single audio URL. A response that is not ok shows "TTS request failed", missing audio shows "No audio returned", and a rejected fetch, a body that is not JSON or audio that does not decode shows the message thrown. Any failure hides progress. The pages are never touched. |
| ReactReader.FailureKeepsAudio | TTS/src/TTSReader.tsx:80-84 | A failed synthesis keeps the previous audio and hides progress. |
| ReactReader.Base64ToBytes | TTS/src/TTSReader.tsx:87-93 | The byte array is fresh and as long as the decoded string, and byte i is the low 8 bits of character i's code, which is the code itself for characters below 256. |
| Account.OnSubmit | account.js:7-22 | After a click, exactly the messages the four rules call for are shown, whatever was shown before. |
| Account.SetShown | account.js:12 | Showing or hiding one message leaves the others as they were. |
| Account.NoMessageIff | account.js:7-22 | No message is shown exactly when the three fields are non-blank and the confirmation equals the password. |
| Account.PasswordMessagesExclusive | account.js:14-21 | "Empty password" and "empty confirmation" never show together, and a mismatch shows alone. |
| Account.RawComparison | account.js:20 | The passwords are compared untrimmed: a confirmation with a trailing space is a mismatch. |

## Left out

- Flask routing, JSON serialisation and the process bootstrap (`main`, static file routes) are left out. The handlers are functions of their inputs.
- The `requests` call is left out: what the upstream service did arrives as a parameter of `Server.Synthesize`.
- pdf.js page extraction, the upload of a file and the drag-over and drag-leave styling are left out. The extracted text, or the failure, arrives as a parameter.
- The DOM is left out: the book markup, element creation and CSS classes. The page elements are fields of `Reader.TTSReader`.
- The 500 ms and 1000 ms timers between chunks are left out. Each call to `ProcessNextChunk` is one step of the queue.
- The 5-second timer that hides the error element is left out: the notice stays until replaced.
- `showSuccess` and the progress percentages and messages are left out: they are floating point and display text. Only the progress bar's visibility is modelled.
- `populateVoiceList` and the speed and pitch display handlers are left out: the voice, pitch and rate arrive as `Reader.Controls`.
- `parseInt` and `parseFloat` of the range inputs are left out: the pitch and rate are given already parsed.
- `generateMockAudio` and `arrayBufferToBase64` are left out: `generateMockAudio` is never called.
- `base64ToBlob` of `script.js`, `URL.createObjectURL` and `URL.revokeObjectURL` are left out. Their outcome for a chunk arrives as a parameter of `ProcessNextChunk`: the object URL, or the message `atob` threw.
- `ReactReader.Base64ToBytes` models the byte loop of the React component's `base64ToBlob`. `atob` itself is left out: a decoding failure arrives as a parameter.
- The audio element's own playback (`play`, `pause`, `currentTime`) is left out. Its events are the methods `OnPlay`, `OnPause` and `OnEnded`, and its source is the `audio` field.
- The React component's play, pause and stop buttons and its JSX are left out: the buttons only call the audio element.
- `isReading` is never set to true anywhere in `script.js`, so highlighting never happens in the running page. The model keeps the field and proves the highlighting loop for when it is set.
- `index.html`, `config.js`, `setup.py`, `App.tsx` and `Navbar.tsx` are not part of this model.
- Server.KeyOnlyInUrl: does not hold for a connection error whose text quotes the request URL. There the key is echoed in the reply, as `Server.KeyEchoedOnConnectionFailure` states.
- Chunking.ChunkText, Reader.MarkTokens: lengths count Unicode scalar values. JavaScript's `length` counts UTF-16 code units, so for text with characters outside the Basic Multilingual Plane the source's chunks can be shorter and its offsets larger than the model's.
- TtsService.CallTTSService: `ServerData` holds fields of a JSON object. A reply whose JSON is `null` or not an object is not represented; the server never sends one.
- EndToEnd.TimeoutReportNotCritical: only for a status text without the letters k, v and q, for the reason given on the next line.
- EndToEnd.TimeoutIsNotCritical: only for a status text without the letters k, v and q. The browser's status text is chosen by the HTTP stack, and one containing "API key", "quota" or "invalid" would make the timeout critical.
- Reader.TTSReader.ProcessNextChunk: one step per call. It does not model that the timers chain the steps until the queue is exhausted. Each step runs to completion, so a file loaded while a chunk request is pending is not modelled: in the page, that response can still append its audio to the new, emptied queue and advance its index.
