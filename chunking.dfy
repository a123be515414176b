/** `TTSReader.chunkText` (`script.js`): cutting a document into pieces the
    synthesis service accepts. It fills whole paragraphs into a chunk while
    they fit; a paragraph that is too long is cut at sentence ends, and a
    sentence that is still too long at whitespace. */
module Chunking {
  import opened Text
  import opened RegexSplit

  /** A chunk as `chunkText` emits it: non-empty, with no leading or trailing
      whitespace, and at most two characters over the limit unless it is a
      single word longer than the limit. */
  predicate GoodChunk(c: string, maxChunkSize: nat) {
    c != [] && IsTrimmed(c) && (|c| <= maxChunkSize + 2 || NoSpace(c))
  }

  predicate GoodChunks(chunks: seq<string>, maxChunkSize: nat) {
    forall i | 0 <= i < |chunks| :: GoodChunk(chunks[i], maxChunkSize)
  }

  /** `acc += (acc ? sep : '') + piece`. */
  function Append(acc: string, sep: string, piece: string): (r: string)
    ensures |r| == |acc| + (if acc == [] then 0 else |sep|) + |piece|
  {
    acc + (if acc != [] then sep else []) + piece
  }

  // ------------------------------------------------------------ helpers

  lemma AppendWords(acc: string, sep: string, piece: string)
    requires sep != [] && IsBlank(sep)
    ensures Words(Append(acc, sep, piece)) == Words(acc) + Words(piece)
  {
    if acc == [] {
      assert Append(acc, sep, piece) == piece;
    } else {
      WordsAcrossSpace(acc, sep, piece);
    }
  }

  lemma PushWords(chunks: seq<string>, c: string)
    ensures ConcatWords(chunks + [c]) == ConcatWords(chunks) + Words(c)
  {
    ConcatWordsAppend(chunks, [c]);
    ConcatWordsSingle(c);
  }

  lemma PrefixWords(pieces: seq<string>, i: nat)
    requires i < |pieces|
    ensures ConcatWords(pieces[..i + 1]) == ConcatWords(pieces[..i]) + Words(pieces[i])
  {
    assert pieces[..i + 1] == pieces[..i] + [pieces[i]];
    PushWords(pieces[..i], pieces[i]);
  }

  /** Emitting `Trim(acc)` keeps the words and yields a good chunk. */
  lemma PushTrimmed(chunks: seq<string>, acc: string, maxChunkSize: nat)
    requires GoodChunks(chunks, maxChunkSize)
    requires Trim(acc) != []
    requires |acc| <= maxChunkSize + 2 || NoSpace(acc)
    ensures GoodChunks(chunks + [Trim(acc)], maxChunkSize)
    ensures ConcatWords(chunks + [Trim(acc)]) == ConcatWords(chunks) + Words(acc)
  {
    var c := Trim(acc);
    assert GoodChunk(c, maxChunkSize) by {
      if NoSpace(acc) {
        NoSpaceTrim(acc);
      }
    }
    forall i | 0 <= i < |chunks + [c]| ensures GoodChunk((chunks + [c])[i], maxChunkSize) {
      if i < |chunks| {
        assert (chunks + [c])[i] == chunks[i];
      }
    }
    PushWords(chunks, c);
    WordsTrim(acc);
  }

  /** Text that trims to nothing has no words. */
  lemma BlankHasNoWords(acc: string)
    requires Trim(acc) == []
    ensures Words(acc) == []
  {
    TrimEmptyIffBlank(acc);
    WordsOfBlank(acc);
  }

  lemma WordStartTrim(w: string)
    requires w != [] && !IsSpace(w[0])
    ensures Trim(w) != []
  {
    TrimEmptyIffBlank(w);
  }

  /** Packing `piece` after a separator adds that piece's words. */
  lemma AppendThen(chunks: seq<string>, acc: string, sep: string, piece: string)
    requires sep != [] && IsBlank(sep)
    ensures ConcatWords(chunks) + Words(Append(acc, sep, piece)) ==
      (ConcatWords(chunks) + Words(acc)) + Words(piece)
  {
    AppendWords(acc, sep, piece);
    WordsAssoc(ConcatWords(chunks), Words(acc), Words(piece));
  }

  /** Once the accumulator holds no words, what follows it is what follows
      the chunks. */
  lemma EmptyThen(c: seq<string>, e: seq<string>, before: seq<string>, w: seq<string>)
    requires e == [] && c + e == before
    ensures c + w == before + w
  {
    assert c + e == c;
  }

  /** Packing one more word keeps the word chunk within the limit, or a
      single word. */
  lemma AppendWordShape(wordChunk: string, word: string, maxChunkSize: nat)
    requires wordChunk == [] || !IsSpace(wordChunk[0])
    requires NoSpace(word)
    requires wordChunk == [] || |wordChunk| + |word| + 1 <= maxChunkSize
    ensures var r := Append(wordChunk, " ", word);
      (|r| <= maxChunkSize || NoSpace(r)) && (r == [] || !IsSpace(r[0]))
  {
    var r := Append(wordChunk, " ", word);
    if wordChunk == [] {
      assert r == word;
    } else {
      assert r[0] == wordChunk[0];
    }
  }

  /** Good chunks carry words: a list of them has words exactly when it is
      not empty. */
  lemma {:induction false} GoodChunksHaveWords(chunks: seq<string>, maxChunkSize: nat)
    requires GoodChunks(chunks, maxChunkSize)
    ensures ConcatWords(chunks) == [] <==> chunks == []
  {
    if chunks != [] {
      var last := chunks[|chunks| - 1];
      assert GoodChunk(last, maxChunkSize);
      assert !IsBlank(last) by {
        assert !IsSpace(last[0]);
      }
      WordsOfNonBlank(last);
      assert chunks == chunks[..|chunks| - 1] + [last];
      PushWords(chunks[..|chunks| - 1], last);
    }
  }

  // ------------------------------------------------------------ the loops

  /** `if (acc.trim()) { chunks.push(acc.trim()); acc = ''; }`, the step
      all three loops take before starting a new piece. */
  method Flush(chunks0: seq<string>, acc0: string, maxChunkSize: nat)
    returns (chunks: seq<string>, acc: string)
    requires GoodChunks(chunks0, maxChunkSize)
    requires |acc0| <= maxChunkSize + 2 || NoSpace(acc0)
    ensures GoodChunks(chunks, maxChunkSize)
    ensures ConcatWords(chunks) + Words(acc) == ConcatWords(chunks0) + Words(acc0)
    ensures Words(acc) == []
    ensures Trim(acc0) != [] ==> chunks == chunks0 + [Trim(acc0)] && acc == []
    ensures Trim(acc0) == [] ==> chunks == chunks0 && acc == acc0
  {
    chunks, acc := chunks0, acc0;
    if Trim(acc) != "" {
      PushTrimmed(chunks, acc, maxChunkSize);
      chunks := chunks + [Trim(acc)];
      acc := "";
    } else {
      BlankHasNoWords(acc);
    }
  }

  /** One turn of the word loop: flush the packed words if `word` would
      take them past the limit, then pack `word`. */
  method PackWord(chunks0: seq<string>, wordChunk0: string, word: string, maxChunkSize: nat)
    returns (chunks: seq<string>, wordChunk: string)
    requires GoodChunks(chunks0, maxChunkSize) && NoSpace(word)
    requires |wordChunk0| <= maxChunkSize || NoSpace(wordChunk0)
    requires wordChunk0 == [] || !IsSpace(wordChunk0[0])
    ensures GoodChunks(chunks, maxChunkSize)
    ensures ConcatWords(chunks) + Words(wordChunk) ==
      (ConcatWords(chunks0) + Words(wordChunk0)) + Words(word)
    ensures |wordChunk| <= maxChunkSize || NoSpace(wordChunk)
    ensures wordChunk == [] || !IsSpace(wordChunk[0])
  {
    chunks, wordChunk := chunks0, wordChunk0;
    if |wordChunk| + |word| + 1 > maxChunkSize {
      if wordChunk != [] {
        WordStartTrim(wordChunk);
      }
      chunks, wordChunk := Flush(chunks, wordChunk, maxChunkSize);
    }
    AppendWordShape(wordChunk, word, maxChunkSize);
    AppendWords(wordChunk, " ", word);
    WordsAssoc(ConcatWords(chunks), Words(wordChunk), Words(word));
    wordChunk := Append(wordChunk, " ", word);
  }

  lemma WordsAssoc(a: seq<string>, b: seq<string>, c: seq<string>)
    ensures a + (b + c) == (a + b) + c
  {
  }

  /** The words packed so far grow by one piece per turn. */
  lemma PackStep(pieces: seq<string>, k: nat, base: seq<string>, before: seq<string>)
    requires k < |pieces| && before == base + ConcatWords(pieces[..k])
    ensures before + Words(pieces[k]) == base + ConcatWords(pieces[..k + 1])
  {
    PrefixWords(pieces, k);
  }

  /** The innermost loop: the words of an over-long sentence, packed with
      single spaces while the packed text stays within the limit. */
  method ChunkWords(chunks0: seq<string>, sentence: string, maxChunkSize: nat)
    returns (chunks: seq<string>)
    requires GoodChunks(chunks0, maxChunkSize)
    ensures GoodChunks(chunks, maxChunkSize)
    ensures ConcatWords(chunks) == ConcatWords(chunks0) + Words(sentence)
  {
    chunks := chunks0;
    var words := Split(Whitespace, sentence);
    WhitespacePiecesHaveNoSpace(sentence);
    var wordChunk := "";
    for k := 0 to |words|
      invariant GoodChunks(chunks, maxChunkSize)
      invariant ConcatWords(chunks) + Words(wordChunk) == ConcatWords(chunks0) + ConcatWords(words[..k])
      invariant |wordChunk| <= maxChunkSize || NoSpace(wordChunk)
      invariant wordChunk == [] || !IsSpace(wordChunk[0])
    {
      assert NoSpace(words[k]);
      ghost var before := ConcatWords(chunks) + Words(wordChunk);
      chunks, wordChunk := PackWord(chunks, wordChunk, words[k], maxChunkSize);
      PackStep(words, k, ConcatWords(chunks0), before);
    }
    assert words[..|words|] == words;
    SplitKeepsWords(Whitespace, sentence);
    chunks, wordChunk := Flush(chunks, wordChunk, maxChunkSize);
  }

  /** One turn of the sentence loop: flush the packed sentences if
      `sentence` would take them past the limit, then split an over-long
      sentence into words or start afresh with it; otherwise pack it after
      a single space. */
  method PackSentence(chunks0: seq<string>, acc0: string, sentence: string, maxChunkSize: nat)
    returns (chunks: seq<string>, acc: string)
    requires GoodChunks(chunks0, maxChunkSize) && |acc0| <= maxChunkSize + 1
    ensures GoodChunks(chunks, maxChunkSize) && |acc| <= maxChunkSize + 1
    ensures ConcatWords(chunks) + Words(acc) ==
      (ConcatWords(chunks0) + Words(acc0)) + Words(sentence)
  {
    if |acc0| + |sentence| > maxChunkSize {
      chunks, acc := Flush(chunks0, acc0, maxChunkSize);
      ghost var flushed := ConcatWords(chunks);
      EmptyThen(flushed, Words(acc), ConcatWords(chunks0) + Words(acc0), Words(sentence));
      if |sentence| > maxChunkSize {
        chunks := ChunkWords(chunks, sentence, maxChunkSize);
        assert ConcatWords(chunks) + Words(acc) == ConcatWords(chunks) + [];
      } else {
        acc := sentence;
      }
    } else {
      chunks := chunks0;
      AppendThen(chunks, acc0, " ", sentence);
      acc := Append(acc0, " ", sentence);
    }
  }

  /** The middle loop: the sentences of an over-long paragraph, packed with
      single spaces; returns the emitted chunks and the sentences still
      being packed. */
  method ChunkSentences(chunks0: seq<string>, paragraph: string, maxChunkSize: nat)
    returns (chunks: seq<string>, sentenceChunk: string)
    requires GoodChunks(chunks0, maxChunkSize)
    ensures GoodChunks(chunks, maxChunkSize)
    ensures |sentenceChunk| <= maxChunkSize + 1
    ensures ConcatWords(chunks) + Words(sentenceChunk) == ConcatWords(chunks0) + Words(paragraph)
  {
    chunks := chunks0;
    var sentences := Split(SentenceBreak, paragraph);
    sentenceChunk := "";
    for j := 0 to |sentences|
      invariant GoodChunks(chunks, maxChunkSize)
      invariant |sentenceChunk| <= maxChunkSize + 1
      invariant ConcatWords(chunks) + Words(sentenceChunk) == ConcatWords(chunks0) + ConcatWords(sentences[..j])
    {
      ghost var before := ConcatWords(chunks) + Words(sentenceChunk);
      chunks, sentenceChunk := PackSentence(chunks, sentenceChunk, sentences[j], maxChunkSize);
      PackStep(sentences, j, ConcatWords(chunks0), before);
    }
    assert sentences[..|sentences|] == sentences;
    SplitKeepsWords(SentenceBreak, paragraph);
  }

  /** One turn of the paragraph loop: flush the packed paragraphs if
      `paragraph` would take them past the limit, then split an over-long
      paragraph into sentences (keeping the sentences still being packed
      when they hold more than whitespace) or start afresh with it;
      otherwise pack it after a blank line. */
  method PackParagraph(chunks0: seq<string>, acc0: string, paragraph: string, maxChunkSize: nat)
    returns (chunks: seq<string>, acc: string)
    requires GoodChunks(chunks0, maxChunkSize) && |acc0| <= maxChunkSize + 2
    ensures GoodChunks(chunks, maxChunkSize) && |acc| <= maxChunkSize + 2
    ensures ConcatWords(chunks) + Words(acc) ==
      (ConcatWords(chunks0) + Words(acc0)) + Words(paragraph)
  {
    if |acc0| + |paragraph| > maxChunkSize {
      chunks, acc := Flush(chunks0, acc0, maxChunkSize);
      ghost var flushed := ConcatWords(chunks);
      EmptyThen(flushed, Words(acc), ConcatWords(chunks0) + Words(acc0), Words(paragraph));
      if |paragraph| > maxChunkSize {
        var sentenceChunk;
        chunks, sentenceChunk := ChunkSentences(chunks, paragraph, maxChunkSize);
        if Trim(sentenceChunk) != "" {
          acc := sentenceChunk;
        } else {
          BlankHasNoWords(sentenceChunk);
          assert ConcatWords(chunks) + Words(acc) == ConcatWords(chunks) + Words(sentenceChunk);
        }
      } else {
        acc := paragraph;
      }
    } else {
      chunks := chunks0;
      AppendThen(chunks, acc0, "\n\n", paragraph);
      acc := Append(acc0, "\n\n", paragraph);
    }
  }

  /** `chunkText(text)` with `this.maxChunkSize` as a parameter. */
  method ChunkText(text: string, maxChunkSize: nat) returns (chunks: seq<string>)
    ensures GoodChunks(chunks, maxChunkSize)
    ensures ConcatWords(chunks) == Words(text)
    ensures chunks == [] <==> IsBlank(text)
  {
    chunks := [];
    var paragraphs := Split(ParagraphBreak, text);
    var currentChunk := "";
    for i := 0 to |paragraphs|
      invariant GoodChunks(chunks, maxChunkSize)
      invariant |currentChunk| <= maxChunkSize + 2
      invariant ConcatWords(chunks) + Words(currentChunk) == [] + ConcatWords(paragraphs[..i])
    {
      ghost var before := ConcatWords(chunks) + Words(currentChunk);
      chunks, currentChunk := PackParagraph(chunks, currentChunk, paragraphs[i], maxChunkSize);
      PackStep(paragraphs, i, [], before);
    }
    assert paragraphs[..|paragraphs|] == paragraphs;
    SplitKeepsWords(ParagraphBreak, text);
    chunks, currentChunk := Flush(chunks, currentChunk, maxChunkSize);
    assert ConcatWords(chunks) + [] == ConcatWords(chunks);
    GoodChunksHaveWords(chunks, maxChunkSize);
    if IsBlank(text) {
      WordsOfBlank(text);
    } else {
      WordsOfNonBlank(text);
    }
  }
}
