/** Strings as the browser and the server see them: JavaScript's whitespace
    class, `String.prototype.trim`, substring search, joining, decimal
    rendering of integers, and the whitespace-separated words of a text. */
module Text {

  /** JavaScript's `\s` class, which is also the set `trim()` strips: the
      WhiteSpace and LineTerminator code points of ECMA-262 (sections 12.2
      and 12.3). */
  predicate IsSpace(c: char) {
    || c == '\t' || c == '\n' || c == '\U{000B}' || c == '\U{000C}' || c == '\r'
    || c == ' ' || c == '\U{00A0}' || c == '\U{1680}'
    || ('\U{2000}' <= c <= '\U{200A}')
    || c == '\U{2028}' || c == '\U{2029}' || c == '\U{202F}' || c == '\U{205F}'
    || c == '\U{3000}' || c == '\U{FEFF}'
  }

  predicate IsBlank(s: string) {
    forall i | 0 <= i < |s| :: IsSpace(s[i])
  }

  predicate NoSpace(s: string) {
    forall i | 0 <= i < |s| :: !IsSpace(s[i])
  }

  /** Neither end is whitespace. */
  predicate IsTrimmed(s: string) {
    s == [] || (!IsSpace(s[0]) && !IsSpace(s[|s| - 1]))
  }

  // ---------------------------------------------------------------- trim

  function TrimStart(s: string): (r: string)
    ensures |r| <= |s|
    ensures r == [] || !IsSpace(r[0])
  {
    if s != [] && IsSpace(s[0]) then TrimStart(s[1..]) else s
  }

  /** `TrimStart` drops a blank prefix and keeps the rest. */
  lemma {:induction false} TrimStartFacts(s: string)
    ensures var r := TrimStart(s);
      r == s[|s| - |r|..] && IsBlank(s[..|s| - |r|])
    decreases |s|
  {
    if s != [] && IsSpace(s[0]) {
      TrimStartFacts(s[1..]);
      var r := TrimStart(s);
      assert s[..|s| - |r|] == [s[0]] + s[1..][..|s| - 1 - |r|];
    }
  }

  function TrimEnd(s: string): (r: string)
    ensures |r| <= |s|
    ensures r == [] || (!IsSpace(r[|r| - 1]) && r[0] == s[0])
  {
    if s != [] && IsSpace(s[|s| - 1]) then TrimEnd(s[..|s| - 1]) else s
  }

  /** `TrimEnd` drops a blank suffix and keeps the rest. */
  lemma {:induction false} TrimEndFacts(s: string)
    ensures var r := TrimEnd(s);
      r == s[..|r|] && IsBlank(s[|r|..])
    decreases |s|
  {
    if s != [] && IsSpace(s[|s| - 1]) {
      TrimEndFacts(s[..|s| - 1]);
      var r := TrimEnd(s);
      assert s[|r|..] == s[..|s| - 1][|r|..] + [s[|s| - 1]];
    }
  }

  /** `s.trim()` in JavaScript. */
  function Trim(s: string): (r: string)
    ensures IsTrimmed(r) && |r| <= |s|
  {
    TrimEnd(TrimStart(s))
  }

  /** What trim removes is whitespace on both sides of what it keeps. */
  lemma TrimSplit(s: string) returns (lead: string, trail: string)
    ensures s == lead + Trim(s) + trail
    ensures IsBlank(lead) && IsBlank(trail)
  {
    var t := TrimStart(s);
    var r := TrimEnd(t);
    lead := s[..|s| - |t|];
    trail := t[|r|..];
    TrimStartFacts(s);
    TrimEndFacts(t);
    SuffixSplit(s, t);
    PrefixSplit(t, r);
    AppendAssoc(lead, r, trail);
  }

  lemma SuffixSplit(s: string, t: string)
    requires |t| <= |s| && t == s[|s| - |t|..]
    ensures s == s[..|s| - |t|] + t
  {
  }

  lemma PrefixSplit(s: string, r: string)
    requires |r| <= |s| && r == s[..|r|]
    ensures s == r + s[|r|..]
  {
  }

  lemma AppendAssoc(a: string, b: string, c: string)
    ensures a + (b + c) == a + b + c
  {
  }

  lemma TrimEmptyIffBlank(s: string)
    ensures Trim(s) == [] <==> IsBlank(s)
  {
    var lead, trail := TrimSplit(s);
    if Trim(s) == [] {
      assert s == lead + trail by {
        assert lead + Trim(s) == lead;
      }
      forall i | 0 <= i < |s| ensures IsSpace(s[i]) {
        if i >= |lead| { assert s[i] == trail[i - |lead|]; }
      }
    } else {
      assert !IsBlank(s) by {
        MiddleSlice(lead, Trim(s), trail);
        assert s[|lead|] == Trim(s)[0];
      }
    }
  }

  lemma TrimOfTrimmed(s: string)
    requires IsTrimmed(s)
    ensures Trim(s) == s
  {
  }

  lemma NoSpaceTrim(s: string)
    requires NoSpace(s)
    ensures NoSpace(Trim(s))
  {
    var lead, trail := TrimSplit(s);
    var r := Trim(s);
    MiddleSlice(lead, r, trail);
    assert r == s[|lead|..|lead| + |r|];
  }

  lemma MiddleSlice(a: string, b: string, c: string)
    ensures (a + b + c)[|a|..|a| + |b|] == b
  {
  }

  // ------------------------------------------------------- substrings

  predicate StartsWith(s: string, prefix: string) {
    |prefix| <= |s| && s[..|prefix|] == prefix
  }

  /** `s.includes(t)` in JavaScript, `t in s` in Python. */
  predicate Contains(s: string, t: string)
    decreases |s|
  {
    StartsWith(s, t) || (s != [] && Contains(s[1..], t))
  }

  lemma {:induction false} ContainsInRight(a: string, b: string, t: string)
    requires Contains(b, t)
    ensures Contains(a + b, t)
    decreases |a|
  {
    if a == [] {
      assert a + b == b;
    } else {
      assert (a + b)[1..] == a[1..] + b;
      ContainsInRight(a[1..], b, t);
    }
  }

  lemma {:induction false} ContainsInLeft(a: string, b: string, t: string)
    requires Contains(a, t)
    ensures Contains(a + b, t)
    decreases |a|
  {
    if StartsWith(a, t) {
      assert (a + b)[..|t|] == a[..|t|];
    } else {
      assert (a + b)[1..] == a[1..] + b;
      ContainsInLeft(a[1..], b, t);
    }
  }

  lemma PrefixContained(a: string, b: string)
    ensures StartsWith(a + b, a) && Contains(a + b, a)
  {
    assert (a + b)[..|a|] == a;
  }

  /** A text contains every piece it is assembled from. */
  lemma ContainsPiece(a: string, t: string, b: string)
    ensures Contains(a + t + b, t)
  {
    assert StartsWith(t, t);
    ContainsInRight(a, t, t);
    ContainsInLeft(a + t, b, t);
  }

  /** A text lacking one of the characters of `t` cannot contain `t`. */
  lemma {:induction false} MissingCharacter(s: string, t: string, c: char)
    requires c in t && c !in s
    ensures !Contains(s, t)
    decreases |s|
  {
    if s != [] {
      MissingCharacter(s[1..], t, c);
    }
  }

  /** An occurrence of `t` in `a + b` lies in `a`, in `b`, or across the
      seam; a seam with a character foreign to `t` on one side has none. */
  lemma {:induction false} NoContainsAcrossSeam(a: string, b: string, t: string)
    requires t != []
    requires !Contains(a, t) && !Contains(b, t)
    requires a == [] || b == [] || a[|a| - 1] !in t || b[0] !in t
    ensures !Contains(a + b, t)
    decreases |a|
  {
    if a == [] {
      assert a + b == b;
    } else {
      if |t| <= |a| {
        assert (a + b)[..|t|] == a[..|t|];
      } else if b != [] && |t| <= |a + b| {
        // the first |t| characters of a + b run across the seam
        if a[|a| - 1] !in t {
          assert (a + b)[..|t|][|a| - 1] == a[|a| - 1];
        } else {
          assert (a + b)[..|t|][|a|] == b[0];
        }
      }
      assert (a + b)[1..] == a[1..] + b;
      NoContainsAcrossSeam(a[1..], b, t);
    }
  }

  // ---------------------------------------------------------- numbers

  function Digit(d: nat): char
    requires d < 10
  {
    "0123456789"[d]
  }

  function NatToString(n: nat): (r: string)
    ensures r != []
    ensures forall i | 0 <= i < |r| :: '0' <= r[i] <= '9'
    decreases n
  {
    if n < 10 then [Digit(n)] else NatToString(n / 10) + [Digit(n % 10)]
  }

  /** Decimal rendering of an integer, as Python's `f"{n}"` and JavaScript's
      `${n}` both produce it. */
  function IntToString(n: int): (r: string)
    ensures r != []
    ensures forall i | 0 <= i < |r| :: '0' <= r[i] <= '9' || r[i] == '-'
  {
    if n < 0 then "-" + NatToString(-n) else NatToString(n)
  }

  /** The number a string of decimal digits denotes, each character taken
      for its distance from '0'. */
  function DecimalValue(s: string): int
    decreases |s|
  {
    if s == [] then 0 else DecimalValue(s[..|s| - 1]) * 10 + (s[|s| - 1] as int - '0' as int)
  }

  /** `NatToString` is the shortest decimal rendering: it reads back as `n`
      and starts with a zero only for zero itself. */
  lemma {:induction false} NatToStringValue(n: nat)
    ensures DecimalValue(NatToString(n)) == n
    ensures NatToString(n)[0] == '0' <==> n == 0
    decreases n
  {
    var r := NatToString(n);
    if n >= 10 {
      NatToStringValue(n / 10);
      assert r[..|r| - 1] == NatToString(n / 10);
      assert r[0] == NatToString(n / 10)[0];
    }
  }

  /** `IntToString` puts a minus sign first exactly for negative numbers and
      renders the magnitude after it. */
  lemma IntToStringValue(n: int)
    ensures IntToString(n)[0] == '-' <==> n < 0
    ensures n < 0 ==> DecimalValue(IntToString(n)[1..]) == -n
    ensures n >= 0 ==> DecimalValue(IntToString(n)) == n
  {
    if n < 0 {
      NegativeRendering(n);
    } else {
      NatToStringValue(n);
      assert IntToString(n) == NatToString(n);
    }
  }

  lemma NegativeRendering(n: int)
    requires n < 0
    ensures IntToString(n)[0] == '-' && DecimalValue(IntToString(n)[1..]) == -n
  {
    var s := IntToString(n);
    var digits := NatToString(-n);
    assert s == ['-'] + digits;
    assert s[1..] == digits;
    NatToStringValue(-n);
  }

  // ------------------------------------------------------------ joins

  /** `xs.join(sep)` in JavaScript. */
  function Join(xs: seq<string>, sep: string): string
    decreases |xs|
  {
    if xs == [] then ""
    else if |xs| == 1 then xs[0]
    else xs[0] + sep + Join(xs[1..], sep)
  }

  /** `xs.join('')`: the pieces laid end to end. */
  function Concat(xs: seq<string>): string
    decreases |xs|
  {
    if xs == [] then "" else Concat(xs[..|xs| - 1]) + xs[|xs| - 1]
  }

  lemma {:induction false} ConcatAppend(xs: seq<string>, ys: seq<string>)
    ensures Concat(xs + ys) == Concat(xs) + Concat(ys)
    decreases |ys|
  {
    if ys == [] {
      assert xs + ys == xs;
    } else {
      var zs, y := ys[..|ys| - 1], ys[|ys| - 1];
      assert (xs + ys)[..|xs + ys| - 1] == xs + zs;
      assert (xs + ys)[|xs + ys| - 1] == y;
      ConcatAppend(xs, zs);
      calc {
        Concat(xs + ys);
        Concat(xs + zs) + y;
        (Concat(xs) + Concat(zs)) + y;
        Concat(xs) + (Concat(zs) + y);
        Concat(xs) + Concat(ys);
      }
    }
  }

  // ------------------------------------------------------------ words

  /** Length of the run of non-space characters `s` begins with. */
  function WordLength(s: string): (n: nat)
    ensures n <= |s| && NoSpace(s[..n])
    ensures n < |s| ==> IsSpace(s[n])
  {
    if s == [] || IsSpace(s[0]) then 0 else 1 + WordLength(s[1..])
  }

  /** The maximal runs of non-whitespace characters of `s`, in order: what a
      reader calls the words of the text. */
  function Words(s: string): (ws: seq<string>)
    decreases |s|
  {
    if s == [] then []
    else if IsSpace(s[0]) then Words(s[1..])
    else
      var n := WordLength(s);
      [s[..n]] + Words(s[n..])
  }

  /** The words of consecutive pieces, laid end to end. */
  function ConcatWords(xs: seq<string>): seq<string>
    decreases |xs|
  {
    if xs == [] then [] else ConcatWords(xs[..|xs| - 1]) + Words(xs[|xs| - 1])
  }

  lemma {:induction false} ConcatWordsAppend(xs: seq<string>, ys: seq<string>)
    ensures ConcatWords(xs + ys) == ConcatWords(xs) + ConcatWords(ys)
    decreases |ys|
  {
    if ys == [] {
      assert xs + ys == xs;
    } else {
      var zs, y := ys[..|ys| - 1], ys[|ys| - 1];
      assert (xs + ys)[..|xs + ys| - 1] == xs + zs;
      assert (xs + ys)[|xs + ys| - 1] == y;
      ConcatWordsAppend(xs, zs);
      calc {
        ConcatWords(xs + ys);
        ConcatWords(xs + zs) + Words(y);
        (ConcatWords(xs) + ConcatWords(zs)) + Words(y);
        ConcatWords(xs) + (ConcatWords(zs) + Words(y));
        ConcatWords(xs) + ConcatWords(ys);
      }
    }
  }

  lemma ConcatWordsSingle(x: string)
    ensures ConcatWords([x]) == Words(x)
  {
    assert [x][..0] == [];
  }

  lemma {:induction false} WordLengthAppend(a: string, b: string)
    requires b == [] || IsSpace(b[0])
    ensures WordLength(a + b) == WordLength(a)
    decreases |a|
  {
    if a == [] {
      assert a + b == b;
    } else if !IsSpace(a[0]) {
      assert (a + b)[1..] == a[1..] + b;
      WordLengthAppend(a[1..], b);
    }
  }

  /** A piece ending where whitespace begins adds its own words and no
      others. */
  lemma {:induction false} WordsAppend(a: string, b: string)
    requires b == [] || IsSpace(b[0])
    ensures Words(a + b) == Words(a) + Words(b)
    decreases |a|, 2
  {
    if a == [] {
      assert a + b == b;
    } else if IsSpace(a[0]) {
      assert (a + b)[0] == a[0];
      assert (a + b)[1..] == a[1..] + b;
      WordsAppend(a[1..], b);
    } else {
      WordsAppendWord(a, b);
    }
  }

  /** The step of `WordsAppend` at a word. */
  lemma {:induction false} WordsAppendWord(a: string, b: string)
    requires b == [] || IsSpace(b[0])
    requires a != [] && !IsSpace(a[0])
    ensures Words(a + b) == Words(a) + Words(b)
    decreases |a|, 1
  {
    var n := WordLength(a);
    WordLengthAppend(a, b);
    SlicesOfAppend(a, b, n);
    WordsAtWord(a + b);
    WordsAtWord(a);
    WordsAppendRest(a[n..], b);
    calc {
      Words(a + b);
      [(a + b)[..n]] + Words((a + b)[n..]);
      [a[..n]] + Words(a[n..] + b);
      [a[..n]] + (Words(a[n..]) + Words(b));
      ([a[..n]] + Words(a[n..])) + Words(b);
      Words(a) + Words(b);
    }
  }

  lemma SlicesOfAppend(a: string, b: string, n: nat)
    requires n <= |a|
    ensures (a + b)[..n] == a[..n] && (a + b)[n..] == a[n..] + b
    ensures a != [] ==> (a + b)[0] == a[0]
  {
  }

  /** `Words` at a text starting with a word. */
  lemma WordsAtWord(s: string)
    requires s != [] && !IsSpace(s[0])
    ensures Words(s) == [s[..WordLength(s)]] + Words(s[WordLength(s)..])
  {
  }

  /** The step of `WordsAppend` after a word: what follows it is empty or
      starts with whitespace. */
  lemma {:induction false} WordsAppendRest(r: string, b: string)
    requires b == [] || IsSpace(b[0])
    requires r == [] || IsSpace(r[0])
    ensures Words(r + b) == Words(r) + Words(b)
    decreases |r|, 1
  {
    if r == [] {
      assert r + b == b;
    } else {
      assert (r + b)[0] == r[0];
      assert (r + b)[1..] == r[1..] + b;
      WordsAppend(r[1..], b);
    }
  }

  lemma {:induction false} WordsBlankPrefix(w: string, b: string)
    requires IsBlank(w)
    ensures Words(w + b) == Words(b)
    decreases |w|
  {
    if w == [] {
      assert w + b == b;
    } else {
      assert (w + b)[1..] == w[1..] + b;
      WordsBlankPrefix(w[1..], b);
    }
  }

  lemma WordsOfBlank(w: string)
    requires IsBlank(w)
    ensures Words(w) == []
  {
    WordsBlankPrefix(w, "");
    assert w + "" == w;
  }

  /** Joining two texts with a non-empty run of whitespace concatenates
      their words. */
  lemma WordsAcrossSpace(a: string, sep: string, b: string)
    requires sep != [] && IsBlank(sep)
    ensures Words(a + sep + b) == Words(a) + Words(b)
  {
    WordsAppend(a, sep + b);
    WordsBlankPrefix(sep, b);
    assert a + sep + b == a + (sep + b);
  }

  lemma WordsBlankSuffix(a: string, w: string)
    requires IsBlank(w)
    ensures Words(a + w) == Words(a)
  {
    if w == [] {
      assert a + w == a;
    } else {
      WordsAppend(a, w);
      WordsOfBlank(w);
    }
  }

  lemma WordsTrim(s: string)
    ensures Words(Trim(s)) == Words(s)
  {
    var lead, trail := TrimSplit(s);
    var t := Trim(s);
    var rest := t + trail;
    AppendAssoc(lead, t, trail);
    WordsBlankPrefix(lead, rest);
    WordsBlankSuffix(t, trail);
  }

  lemma WordsOfWord(w: string)
    requires w != [] && NoSpace(w)
    ensures Words(w) == [w]
  {
    assert w[..|w|] == w;
  }

  /** Text with something other than whitespace has at least one word. */
  lemma {:induction false} WordsOfNonBlank(s: string)
    requires !IsBlank(s)
    ensures Words(s) != []
    decreases |s|
  {
    if IsSpace(s[0]) {
      assert !IsBlank(s[1..]) by {
        var i :| 0 <= i < |s| && !IsSpace(s[i]);
        assert s[1..][i - 1] == s[i];
      }
      WordsOfNonBlank(s[1..]);
    }
  }

  /** Every word is non-empty and free of whitespace. */
  lemma {:induction false} WordsAreWords(s: string)
    ensures forall i | 0 <= i < |Words(s)| :: Words(s)[i] != [] && NoSpace(Words(s)[i])
    decreases |s|
  {
    if s == [] {
    } else if IsSpace(s[0]) {
      WordsAreWords(s[1..]);
    } else {
      var n := WordLength(s);
      assert n >= 1;
      WordsAreWords(s[n..]);
    }
  }

  /** Words separated by single spaces are read back as those words. */
  lemma {:induction false} WordsOfJoin(ws: seq<string>)
    requires forall i | 0 <= i < |ws| :: ws[i] != [] && NoSpace(ws[i])
    ensures Words(Join(ws, " ")) == ws
    decreases |ws|
  {
    if ws == [] {
    } else if |ws| == 1 {
      WordsOfWord(ws[0]);
    } else {
      WordsAcrossSpace(ws[0], " ", Join(ws[1..], " "));
      WordsOfWord(ws[0]);
      WordsOfJoin(ws[1..]);
    }
  }
}
