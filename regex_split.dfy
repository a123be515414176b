/** The regular-expression splits the reader applies to text, each evaluated
    as `String.prototype.split` does: find the leftmost match, cut the text
    there, and go on after the match. Every pattern here matches only
    whitespace and never the empty string. */
module RegexSplit {
  import opened Wrappers
  import opened Text

  datatype Pattern =
    | ParagraphBreak  // /\n\s*\n/
    | SentenceBreak   // /(?<=[.!?])\s+/
    | Whitespace      // /\s+/

  /** End of the run of whitespace starting at `i`. */
  function SpaceRunEnd(s: string, i: nat): (j: nat)
    requires i <= |s|
    ensures i <= j <= |s| && IsBlank(s[i..j])
    ensures j < |s| ==> !IsSpace(s[j])
    decreases |s| - i
  {
    if i < |s| && IsSpace(s[i]) then SpaceRunEnd(s, i + 1) else i
  }

  /** Position of the last line feed in `s[lo..hi]`. */
  function LastNewline(s: string, lo: nat, hi: nat): (r: Option<nat>)
    requires lo <= hi <= |s|
    ensures r.Some? ==> lo <= r.value < hi && s[r.value] == '\n'
    decreases hi - lo
  {
    if hi == lo then None
    else if s[hi - 1] == '\n' then Some(hi - 1)
    else LastNewline(s, lo, hi - 1)
  }

  /** End of the match of `p` that starts at `i`, if one does. For a
      paragraph break the greedy `\s*` backs off to the last line feed of
      the whitespace run; the sentence look-behind needs one of `.`, `!`,
      `?` just before `i`. */
  function MatchAt(p: Pattern, s: string, i: nat): (r: Option<nat>)
    requires i < |s|
    ensures r.Some? ==> i < r.value <= |s| && IsBlank(s[i..r.value])
  {
    match p
    case ParagraphBreak =>
      if s[i] != '\n' then None
      else
        var run := SpaceRunEnd(s, i + 1);
        var last := LastNewline(s, i + 1, run);
        if last.None? then None
        else
          assert s[i..last.value + 1] == [s[i]] + s[i + 1..run][..last.value - i];
          Some(last.value + 1)
    case SentenceBreak =>
      if 0 < i && (s[i - 1] == '.' || s[i - 1] == '!' || s[i - 1] == '?') && IsSpace(s[i])
      then Some(SpaceRunEnd(s, i))
      else None
    case Whitespace =>
      if IsSpace(s[i]) then Some(SpaceRunEnd(s, i)) else None
  }

  /** The leftmost match of `p` at or after `from`, as (start, end). */
  function FindMatch(p: Pattern, s: string, from: nat): (r: Option<(nat, nat)>)
    requires from <= |s|
    ensures r.Some? ==> from <= r.value.0 < r.value.1 <= |s| && IsBlank(s[r.value.0..r.value.1])
    ensures r.Some? ==> MatchAt(p, s, r.value.0) == Some(r.value.1)
    ensures r.Some? ==> forall k | from <= k < r.value.0 :: MatchAt(p, s, k).None?
    ensures r.None? ==> forall k | from <= k < |s| :: MatchAt(p, s, k).None?
    decreases |s| - from
  {
    if from == |s| then None
    else
      match MatchAt(p, s, from)
      case Some(e) => Some((from, e))
      case None => FindMatch(p, s, from + 1)
  }

  /** `s.split(p)`: the pieces between matches, separators dropped. */
  function Split(p: Pattern, s: string): (pieces: seq<string>)
    ensures |pieces| >= 1
    decreases |s|
  {
    match FindMatch(p, s, 0)
    case None => [s]
    case Some((a, b)) => [s[..a]] + Split(p, s[b..])
  }

  /** `s.split(/(\s+)/)`: the pieces between whitespace runs with the runs
      themselves kept, as the capturing group makes `split` do. */
  function SplitKeepingSpace(s: string): (tokens: seq<string>)
    ensures |tokens| >= 1
    decreases |s|
  {
    match FindMatch(Whitespace, s, 0)
    case None => [s]
    case Some((a, b)) => [s[..a], s[a..b]] + SplitKeepingSpace(s[b..])
  }

  // --------------------------------------------------------------- lemmas

  /** One step of `Split`: the first piece and the rest, around the leftmost
      match. */
  lemma SplitStep(p: Pattern, s: string)
    requires FindMatch(p, s, 0).Some?
    ensures var (a, b) := FindMatch(p, s, 0).value;
      Split(p, s) == [s[..a]] + Split(p, s[b..])
  {
  }

  /** Cutting at whitespace neither loses nor invents words: the words of
      the pieces, in order, are the words of the text. */
  lemma {:induction false} SplitKeepsWords(p: Pattern, s: string)
    ensures ConcatWords(Split(p, s)) == Words(s)
    decreases |s|
  {
    var m := FindMatch(p, s, 0);
    if m.None? {
      assert Split(p, s) == [s];
      ConcatWordsSingle(s);
    } else {
      var (a, b) := m.value;
      SplitStep(p, s);
      SplitKeepsWords(p, s[b..]);
      WordsAroundMatch(p, s);
      calc {
        ConcatWords(Split(p, s));
        ConcatWords([s[..a]] + Split(p, s[b..]));
        { ConcatWordsAppend([s[..a]], Split(p, s[b..]));
          ConcatWordsSingle(s[..a]); }
        Words(s[..a]) + ConcatWords(Split(p, s[b..]));
        Words(s[..a]) + Words(s[b..]);
        Words(s);
      }
    }
  }

  lemma CutAt(s: string, a: nat, b: nat)
    requires a <= b <= |s|
    ensures s == s[..a] + s[a..b] + s[b..]
  {
  }

  /** The words of a text are those before its leftmost match and those
      after it. */
  lemma WordsAroundMatch(p: Pattern, s: string)
    requires FindMatch(p, s, 0).Some?
    ensures var (a, b) := FindMatch(p, s, 0).value;
      Words(s) == Words(s[..a]) + Words(s[b..])
  {
    var (a, b) := FindMatch(p, s, 0).value;
    CutAt(s, a, b);
    WordsAcrossSpace(s[..a], s[a..b], s[b..]);
  }

  /** Where whitespace matching finds nothing before `n`, there is no
      whitespace before `n`. */
  lemma NoMatchNoSpace(s: string, n: nat)
    requires n <= |s|
    requires forall k | 0 <= k < n :: MatchAt(Whitespace, s, k).None?
    ensures NoSpace(s[..n])
  {
    forall k | 0 <= k < n ensures !IsSpace(s[..n][k]) {
      assert MatchAt(Whitespace, s, k).None?;
    }
  }

  /** The pieces of a whitespace split hold no whitespace. */
  lemma {:induction false} WhitespacePiecesHaveNoSpace(s: string)
    ensures forall i | 0 <= i < |Split(Whitespace, s)| :: NoSpace(Split(Whitespace, s)[i])
    decreases |s|
  {
    var m := FindMatch(Whitespace, s, 0);
    if m.None? {
      assert Split(Whitespace, s) == [s];
      NoMatchNoSpace(s, |s|);
      assert s[..|s|] == s;
    } else {
      var (a, b) := m.value;
      SplitStep(Whitespace, s);
      WhitespacePiecesHaveNoSpace(s[b..]);
      NoMatchNoSpace(s, a);
    }
  }

  /** Splitting a trimmed text with something in it at whitespace yields
      exactly its words; none of the pieces is empty. */
  lemma {:induction false} SplitTrimmedIsWords(s: string)
    requires s != [] && IsTrimmed(s)
    ensures Split(Whitespace, s) == Words(s)
    decreases |s|
  {
    var m := FindMatch(Whitespace, s, 0);
    if m.None? {
      assert Split(Whitespace, s) == [s];
      NoMatchNoSpace(s, |s|);
      assert s[..|s|] == s;
      WordsOfWord(s);
    } else {
      var (a, b) := m.value;
      SplitStep(Whitespace, s);
      assert IsSpace(s[a]) by {
        assert s[a..b][0] == s[a];
      }
      assert 0 < a;
      assert forall k | a <= k < b :: IsSpace(s[k]) by {
        forall k | a <= k < b ensures IsSpace(s[k]) {
          assert s[a..b][k - a] == s[k];
        }
      }
      assert !IsSpace(s[|s| - 1]);
      assert b < |s|;
      var rest := s[b..];
      assert rest[|rest| - 1] == s[|s| - 1];
      assert !IsSpace(rest[0]);
      SplitTrimmedIsWords(rest);
      NoMatchNoSpace(s, a);
      WordsOfWord(s[..a]);
      WordsAroundMatch(Whitespace, s);
    }
  }

  /** One step of `SplitKeepingSpace`: the piece before the leftmost
      whitespace run, the run, and the rest. */
  lemma SplitKeepingSpaceStep(s: string)
    requires FindMatch(Whitespace, s, 0).Some?
    ensures var (a, b) := FindMatch(Whitespace, s, 0).value;
      SplitKeepingSpace(s) == [s[..a], s[a..b]] + SplitKeepingSpace(s[b..])
  {
  }

  lemma ConcatSingle(x: string)
    ensures Concat([x]) == x
  {
    assert [x][..0] == [];
  }

  lemma ConcatPair(x: string, y: string)
    ensures Concat([x, y]) == x + y
  {
    assert [x, y][..1] == [x];
    ConcatSingle(x);
  }

  /** The tokens of `split(/(\s+)/)` laid end to end give back the text. */
  lemma {:induction false} SplitKeepingSpaceConcat(s: string)
    ensures Concat(SplitKeepingSpace(s)) == s
    decreases |s|
  {
    var m := FindMatch(Whitespace, s, 0);
    if m.None? {
      assert SplitKeepingSpace(s) == [s];
      ConcatSingle(s);
    } else {
      var a, b := m.value.0, m.value.1;
      var head, rest := [s[..a], s[a..b]], SplitKeepingSpace(s[b..]);
      SplitKeepingSpaceStep(s);
      SplitKeepingSpaceConcat(s[b..]);
      ConcatAppend(head, rest);
      ConcatPair(s[..a], s[a..b]);
      calc {
        Concat(SplitKeepingSpace(s));
        Concat(head + rest);
        Concat(head) + Concat(rest);
        (s[..a] + s[a..b]) + s[b..];
        { CutAt(s, a, b); }
        s;
      }
    }
  }
}
