/** Book pages of 200 words, as both readers build them from the text's
    whitespace-separated words (`createBookPages` in `script.js`, the page
    split in `TTSReader.tsx`). */
module Pagination {
  import opened Text
  import opened RegexSplit

  const WordsPerPage: nat := 200

  function Min(a: int, b: int): int {
    if a <= b then a else b
  }

  /** `pages` are the consecutive groups of `WordsPerPage` words, each joined
      by single spaces; the last group may be shorter. */
  predicate IsPagination(words: seq<string>, pages: seq<string>) {
    |pages| == (|words| + WordsPerPage - 1) / WordsPerPage &&
    forall k | 0 <= k < |pages| ::
      WordsPerPage * k < |words| &&
      pages[k] == Join(words[WordsPerPage * k .. Min(WordsPerPage * k + WordsPerPage, |words|)], " ")
  }

  /** The pages of `words`: the first `WordsPerPage` words joined by single
      spaces, then the pages of the words after them. */
  function PagesOf(words: seq<string>): (pages: seq<string>)
    ensures words != [] ==> pages != []
    decreases |words|
  {
    if words == [] then []
    else
      var n := Min(WordsPerPage, |words|);
      [Join(words[..n], " ")] + PagesOf(words[n..])
  }

  /** A list of words has exactly one pagination. */
  lemma PaginationUnique(words: seq<string>, p: seq<string>, q: seq<string>)
    requires IsPagination(words, p) && IsPagination(words, q)
    ensures p == q
  {
  }

  /** `PagesOf` paginates. */
  lemma {:induction false} PagesOfPaginates(words: seq<string>)
    ensures IsPagination(words, PagesOf(words))
    decreases |words|
  {
    if words != [] {
      var n := Min(WordsPerPage, |words|);
      var rest := words[n..];
      var pages := PagesOf(words);
      PagesOfPaginates(rest);
      if rest == [] {
        assert pages == [Join(words[..n], " ")];
        assert words[..n] == words[0..Min(0 + WordsPerPage, |words|)];
      } else {
        assert n == WordsPerPage;
        assert |pages| == (|words| + WordsPerPage - 1) / WordsPerPage by {
          assert |pages| == 1 + (|rest| + WordsPerPage - 1) / WordsPerPage;
          assert |words| + WordsPerPage - 1 == (|rest| + WordsPerPage - 1) + WordsPerPage;
        }
        forall k | 0 <= k < |pages|
          ensures WordsPerPage * k < |words|
          ensures pages[k] == Join(words[WordsPerPage * k .. Min(WordsPerPage * k + WordsPerPage, |words|)], " ")
        {
          if k == 0 {
            assert words[..n] == words[0..Min(0 + WordsPerPage, |words|)];
          } else {
            assert WordsPerPage * (k - 1) < |rest|;
            assert WordsPerPage * k == WordsPerPage * (k - 1) + WordsPerPage;
            ShiftedPage(words, k);
            assert pages[k] == PagesOf(rest)[k - 1];
          }
        }
      }
    }
  }

  /** Page `k` of `words` is page `k - 1` of the words after the first
      page. */
  lemma ShiftedPage(words: seq<string>, k: nat)
    requires 0 < k && WordsPerPage < |words| && WordsPerPage * k < |words|
    ensures var rest := words[WordsPerPage..];
      WordsPerPage * (k - 1) < |rest| &&
      words[WordsPerPage * k .. Min(WordsPerPage * k + WordsPerPage, |words|)] ==
      rest[WordsPerPage * (k - 1) .. Min(WordsPerPage * (k - 1) + WordsPerPage, |rest|)]
  {
    var rest := words[WordsPerPage..];
    var lo := WordsPerPage * (k - 1);
    assert lo + WordsPerPage == WordsPerPage * k;
    var hi := Min(lo + WordsPerPage, |rest|);
    assert hi + WordsPerPage == Min(WordsPerPage * k + WordsPerPage, |words|);
  }

  /** The page loop both readers run: `WordsPerPage` words at a time, the
      slice clamped at the end, each group joined by single spaces. */
  method Paginate(words: seq<string>) returns (pages: seq<string>)
    ensures pages == PagesOf(words)
  {
    pages := [];
    var i := 0;
    while i < |words|
      invariant i == WordsPerPage * |pages|
      invariant i <= |words| + WordsPerPage - 1
      invariant forall k | 0 <= k < |pages| ::
        WordsPerPage * k < |words| &&
        pages[k] == Join(words[WordsPerPage * k .. Min(WordsPerPage * k + WordsPerPage, |words|)], " ")
    {
      pages := pages + [Join(words[i .. Min(i + WordsPerPage, |words|)], " ")];
      i := i + WordsPerPage;
    }
    assert (|words| + WordsPerPage - 1) / WordsPerPage == |pages| by {
      assert |words| + 199 - 200 * |pages| < 200;
      assert 0 <= |words| + 199 - 200 * |pages|;
    }
    PagesOfPaginates(words);
    PaginationUnique(words, pages, PagesOf(words));
  }

  /** Reading the pages' words in order gives back the words paged. */
  lemma PagesPreserveWords(words: seq<string>, pages: seq<string>)
    requires IsPagination(words, pages)
    requires forall i | 0 <= i < |words| :: words[i] != [] && NoSpace(words[i])
    ensures ConcatWords(pages) == words
  {
    PagesOfPaginates(words);
    PaginationUnique(words, pages, PagesOf(words));
    PagesOfPreserveWords(words);
  }

  lemma {:induction false} PagesOfPreserveWords(words: seq<string>)
    requires forall i | 0 <= i < |words| :: words[i] != [] && NoSpace(words[i])
    ensures ConcatWords(PagesOf(words)) == words
    decreases |words|
  {
    if words != [] {
      var n := Min(WordsPerPage, |words|);
      var first, rest := words[..n], words[n..];
      var page := Join(first, " ");
      WordsOfParts(words, n);
      PagesOfPreserveWords(rest);
      WordsOfJoin(first);
      ConcatWordsAppend([page], PagesOf(rest));
      ConcatWordsSingle(page);
      assert words == first + rest;
    }
  }

  /** Both parts of a list of words are lists of words. */
  lemma WordsOfParts(words: seq<string>, m: nat)
    requires m <= |words|
    requires forall i | 0 <= i < |words| :: words[i] != [] && NoSpace(words[i])
    ensures forall i | 0 <= i < m :: words[..m][i] != [] && NoSpace(words[..m][i])
    ensures forall i | 0 <= i < |words| - m :: words[m..][i] != [] && NoSpace(words[m..][i])
  {
  }

  /** Every page but the last holds exactly `WordsPerPage` words. */
  lemma FullPages(words: seq<string>, pages: seq<string>)
    requires IsPagination(words, pages)
    requires forall i | 0 <= i < |words| :: words[i] != [] && NoSpace(words[i])
    ensures forall k | 0 <= k < |pages| - 1 :: |Words(pages[k])| == WordsPerPage
  {
    forall k | 0 <= k < |pages| - 1 ensures |Words(pages[k])| == WordsPerPage {
      assert WordsPerPage * (k + 1) < |words|;
      var group := words[WordsPerPage * k .. WordsPerPage * k + WordsPerPage];
      assert pages[k] == Join(group, " ");
      WordsOfJoin(group);
    }
  }

  lemma TrimmedSplitAreWords(t: string)
    requires t != [] && IsTrimmed(t)
    ensures Split(Whitespace, t) == Words(t)
    ensures forall i | 0 <= i < |Split(Whitespace, t)| ::
      Split(Whitespace, t)[i] != [] && NoSpace(Split(Whitespace, t)[i])
  {
    SplitTrimmedIsWords(t);
    WordsAreWords(t);
  }

  /** Paging a text with words, trimmed and split at whitespace, loses,
      repeats and reorders no word, and fills every page but the last. */
  lemma TextPagination(text: string, pages: seq<string>)
    requires IsPagination(Split(Whitespace, Trim(text)), pages)
    requires !IsBlank(text)
    ensures ConcatWords(pages) == Words(text)
    ensures forall k | 0 <= k < |pages| - 1 :: |Words(pages[k])| == WordsPerPage
  {
    var t := Trim(text);
    TrimEmptyIffBlank(text);
    WordsTrim(text);
    var ws := Split(Whitespace, t);
    TrimmedSplitAreWords(t);
    FullPages(ws, pages);
    PagesPreserveWords(ws, pages);
  }

  /** A blank text gives a single empty page. */
  lemma BlankTextPagination(text: string, pages: seq<string>)
    requires IsPagination(Split(Whitespace, Trim(text)), pages)
    requires IsBlank(text)
    ensures pages == [""]
  {
    TrimEmptyIffBlank(text);
    assert Split(Whitespace, Trim(text)) == [""];
    assert |pages| == 1;
    assert Min(WordsPerPage * 0 + WordsPerPage, 1) == 1;
    assert pages[0] == Join([""][0..1], " ");
    assert [""][0..1] == [""];
  }
}
