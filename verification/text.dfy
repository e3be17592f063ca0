/**
 The string operations the free-text and `/remove` handlers apply to message text:
 JavaScript's `String.prototype.trim`, `startsWith` and `split(/\s+/)`.
 */
module Text {

  /** JavaScript's WhiteSpace and LineTerminator characters: the set that both `trim`
      and the regular-expression class `\s` use. */
  predicate IsSpace(c: char) {
    || c == '\t' || c == '\n' || c == '\U{B}' || c == '\U{C}' || c == '\r' || c == ' '
    || c == '\U{A0}' || c == '\U{1680}' || ('\U{2000}' <= c <= '\U{200A}')
    || c == '\U{2028}' || c == '\U{2029}' || c == '\U{202F}' || c == '\U{205F}'
    || c == '\U{3000}' || c == '\U{FEFF}'
  }

  predicate NoSpace(s: string) {
    forall i | 0 <= i < |s| :: !IsSpace(s[i])
  }

  predicate AllSpace(s: string) {
    forall i | 0 <= i < |s| :: IsSpace(s[i])
  }

  /** `s` neither begins nor ends with white space. */
  predicate Trimmed(s: string) {
    |s| == 0 || (!IsSpace(s[0]) && !IsSpace(s[|s| - 1]))
  }

  /** `s.startsWith(c)` for a one-character prefix. */
  predicate StartsWith(s: string, c: char) {
    |s| > 0 && s[0] == c
  }

  /** Drops the leading white space: the result is the longest suffix of `s`
      not starting with white space. */
  function TrimStart(s: string): (r: string)
    ensures |r| <= |s| && r == s[|s| - |r|..]
    ensures AllSpace(s[..|s| - |r|])
    ensures |r| > 0 ==> !IsSpace(r[0])
  {
    if |s| > 0 && IsSpace(s[0]) then TrimStart(s[1..]) else s
  }

  /** Drops the trailing white space: the result is the longest prefix of `s`
      not ending with white space. */
  function TrimEnd(s: string): (r: string)
    ensures |r| <= |s| && r == s[..|r|]
    ensures AllSpace(s[|r|..])
    ensures |r| > 0 ==> !IsSpace(r[|r| - 1])
  {
    if |s| > 0 && IsSpace(s[|s| - 1]) then TrimEnd(s[..|s| - 1]) else s
  }

  /** `s.trim()`: the slice of `s` left once white space is removed from both ends. */
  function Trim(s: string): (r: string)
    ensures Trimmed(r)
    ensures exists a | 0 <= a <= |s| - |r| :: TrimmedSliceAt(s, r, a)
  {
    TrimFacts(s);
    TrimEnd(TrimStart(s))
  }

  lemma TrimFacts(s: string)
    ensures Trimmed(TrimEnd(TrimStart(s)))
    ensures exists a | 0 <= a <= |s| - |TrimEnd(TrimStart(s))| ::
              TrimmedSliceAt(s, TrimEnd(TrimStart(s)), a)
  {
    var t := TrimStart(s);
    var r := TrimEnd(t);
    TrimSlice(s, t, r);
    var a := |s| - |t|;
    assert 0 <= a <= |s| - |r| && TrimmedSliceAt(s, r, a);
  }

  /** `r` sits in `s` at offset `a` with only white space around it. */
  predicate TrimmedSliceAt(s: string, r: string, a: nat) {
    a + |r| <= |s| && r == s[a..a + |r|] && AllSpace(s[..a]) && AllSpace(s[a + |r|..])
  }

  lemma TrimSlice(s: string, t: string, r: string)
    requires |t| <= |s| && t == s[|s| - |t|..] && AllSpace(s[..|s| - |t|])
    requires |t| > 0 ==> !IsSpace(t[0])
    requires |r| <= |t| && r == t[..|r|] && AllSpace(t[|r|..])
    requires |r| > 0 ==> !IsSpace(r[|r| - 1])
    ensures Trimmed(r)
    ensures TrimmedSliceAt(s, r, |s| - |t|)
  {
    SliceOfSuffix(s, t, r, |s| - |t|);
    assert |r| > 0 ==> r[0] == t[0];
  }

  lemma SliceOfSuffix(s: string, t: string, r: string, a: nat)
    requires a <= |s| && t == s[a..] && |r| <= |t| && r == t[..|r|]
    ensures s[a..a + |r|] == r
    ensures s[a + |r|..] == t[|r|..]
  {
  }

  /** Trimming text that is already trimmed gives it back unchanged; in particular
      `Trim` is idempotent. */
  lemma TrimKeepsTrimmed(s: string)
    requires Trimmed(s)
    ensures Trim(s) == s
  {
  }

  lemma TrimIdempotent(s: string)
    ensures Trim(Trim(s)) == Trim(s)
  {
    TrimKeepsTrimmed(Trim(s));
  }

  /** Index of the first white-space character of `s`, or `|s|` when there is none. */
  function FirstSpace(s: string): (i: nat)
    ensures i <= |s|
    ensures NoSpace(s[..i])
    ensures i < |s| ==> IsSpace(s[i])
  {
    if |s| == 0 || IsSpace(s[0]) then 0 else 1 + FirstSpace(s[1..])
  }

  /** `s.split(/\s+/)`: the fields of `s` between maximal runs of white space. A leading
      (trailing) run yields an empty first (last) field, and `""` splits into `[""]`. */
  function Split(s: string): (parts: seq<string>)
    ensures |parts| >= 1
    ensures forall k | 0 <= k < |parts| :: NoSpace(parts[k])
    ensures parts[0] == s[..FirstSpace(s)]
    ensures NoSpace(s) <==> parts == [s]
    decreases |s|
  {
    var i := FirstSpace(s);
    if i == |s| then [s]
    else
      var rest := TrimStart(s[i..]);
      [s[..i]] + Split(rest)
  }

  /** The white-space runs `Split` cuts `s` at, in order. */
  function Separators(s: string): (seps: seq<string>)
    decreases |s|
  {
    var i := FirstSpace(s);
    if i == |s| then []
    else [LeadingSpace(s[i..])] + Separators(TrimStart(s[i..]))
  }

  /** The white space `TrimStart` drops from the front of `u`. */
  function LeadingSpace(u: string): (r: string)
    ensures r + TrimStart(u) == u && AllSpace(r)
    ensures |u| > 0 && IsSpace(u[0]) ==> |r| > 0
  {
    u[..|u| - |TrimStart(u)|]
  }

  /** One step of `Split` and `Separators` on text with white space: the first field,
      the white-space run after it, then the rest of the text handled on its own. */
  lemma SplitStep(t: string, i: nat, rest: string)
    requires i == FirstSpace(t) && i < |t| && rest == TrimStart(t[i..])
    ensures |rest| < |t| - i
    ensures Split(t) == [t[..i]] + Split(rest)
    ensures Separators(t) == [LeadingSpace(t[i..])] + Separators(rest)
  {
  }

  /** A run of white space that separates two tokens: non-empty, nothing but white space. */
  predicate IsSeparator(sep: string) {
    |sep| > 0 && AllSpace(sep)
  }

  predicate AreSeparators(seps: seq<string>) {
    forall k | 0 <= k < |seps| :: IsSeparator(seps[k])
  }

  /** `words` with the white-space run `seps[k]` between `words[k]` and `words[k + 1]`:
      the shape of a trimmed message made of several tokens. */
  function JoinWith(words: seq<string>, seps: seq<string>): string
    requires |words| >= 1 && |seps| == |words| - 1
    decreases |words|
  {
    if |words| == 1 then words[0] else words[0] + seps[0] + JoinWith(words[1..], seps[1..])
  }

  /** A non-empty word free of white space. */
  predicate IsWord(w: string) {
    |w| > 0 && NoSpace(w)
  }

  predicate AreWords(words: seq<string>) {
    forall k | 0 <= k < |words| :: IsWord(words[k])
  }

  /** On trimmed text, `split` yields at least two fields exactly when the text
      contains white space. */
  lemma SplitCountTrimmed(s: string)
    requires Trimmed(s)
    ensures |Split(s)| >= 2 <==> !NoSpace(s)
  {
    var i := FirstSpace(s);
    if i == |s| {
      assert s[..i] == s;
    } else {
    }
  }

  /** On trimmed, non-empty text every field of `split` is non-empty: the first is the
      text up to the first white space, and the rest follow one per run. */
  lemma {:induction false} SplitTrimmedFields(s: string)
    requires Trimmed(s) && |s| > 0
    ensures AreWords(Split(s))
    decreases |s|
  {
    var i := FirstSpace(s);
    if i < |s| {
      var rest := TrimStart(s[i..]);
      SplitStep(s, i, rest);
      assert i > 0 && |rest| > 0 && Trimmed(rest) by {
        assert s[i..] == LeadingSpace(s[i..]) + rest;
        assert rest[|rest| - 1] == s[|s| - 1];
      }
      SplitTrimmedFields(rest);
      WordsCons(s[..i], Split(rest));
    }
  }

  lemma WordsCons(w: string, words: seq<string>)
    requires IsWord(w) && AreWords(words)
    ensures AreWords([w] + words)
  {
    assert forall k | 1 <= k < |words| + 1 :: ([w] + words)[k] == words[k - 1];
  }

  lemma FirstSpaceAfterWord(w: string, t: string)
    requires NoSpace(w) && |t| > 0 && IsSpace(t[0])
    ensures FirstSpace(w + t) == |w|
  {
    var i := FirstSpace(w + t);
    assert forall k | 0 <= k < |w| :: (w + t)[k] == w[k];
    assert (w + t)[|w|] == t[0];
  }

  /** Leading white space in front of text that starts with a non-space character is
      exactly what `TrimStart` drops. */
  lemma {:induction false} TrimStartSpaces(sep: string, t: string)
    requires AllSpace(sep) && (|t| == 0 || !IsSpace(t[0]))
    ensures TrimStart(sep + t) == t
    decreases |sep|
  {
    if |sep| > 0 {
      assert (sep + t)[1..] == sep[1..] + t;
      TrimStartSpaces(sep[1..], t);
    } else {
      assert sep + t == t;
    }
  }

  /** Trailing white space after text that ends with a non-space character is exactly
      what `TrimEnd` drops. */
  lemma {:induction false} TrimEndSpaces(t: string, sep: string)
    requires AllSpace(sep) && (|t| == 0 || !IsSpace(t[|t| - 1]))
    ensures TrimEnd(t + sep) == t
    decreases |sep|
  {
    if |sep| > 0 {
      var u := sep[..|sep| - 1];
      assert (t + sep)[..|t + sep| - 1] == t + u;
      TrimEndSpaces(t, u);
    } else {
      assert t + sep == t;
    }
  }

  /** `trim` removes exactly the white space around non-empty trimmed text. */
  lemma TrimSurrounded(lead: string, m: string, trail: string)
    requires AllSpace(lead) && AllSpace(trail) && Trimmed(m) && |m| > 0
    ensures Trim(lead + m + trail) == m
  {
    assert lead + m + trail == lead + (m + trail);
    assert (m + trail)[0] == m[0];
    TrimStartSpaces(lead, m + trail);
    TrimEndSpaces(m, trail);
  }

  /** Splitting tokens separated by arbitrary runs of white space gives the tokens back. */
  lemma {:induction false} SplitJoinRoundTrip(words: seq<string>, seps: seq<string>)
    requires |words| >= 1 && |seps| == |words| - 1 && AreWords(words) && AreSeparators(seps)
    ensures Split(JoinWith(words, seps)) == words
    decreases |words|
  {
    if |words| == 1 {
      assert FirstSpace(words[0]) == |words[0]|;
    } else {
      var tail := JoinWith(words[1..], seps[1..]);
      assert Split(JoinWith(words, seps)) == [words[0]] + Split(tail) by {
        assert JoinWith(words, seps) == words[0] + seps[0] + tail;
        JoinWithStartsWithWord(words[1..], seps[1..]);
        SplitAfterWord(words[0], seps[0], tail);
      }
      assert Split(tail) == words[1..] by {
        SplitJoinRoundTrip(words[1..], seps[1..]);
      }
      ConsTail(words);
    }
  }

  /** A whole message: white space around tokens separated by white-space runs. After
      `trim`, `split(/\s+/)` yields exactly the tokens. */
  lemma SplitTrimmedMessage(lead: string, words: seq<string>, seps: seq<string>, trail: string)
    requires |words| >= 1 && |seps| == |words| - 1 && AreWords(words) && AreSeparators(seps)
    requires AllSpace(lead) && AllSpace(trail)
    ensures Trim(lead + JoinWith(words, seps) + trail) == JoinWith(words, seps)
    ensures Split(Trim(lead + JoinWith(words, seps) + trail)) == words
  {
    JoinWithStartsWithWord(words, seps);
    TrimSurrounded(lead, JoinWith(words, seps), trail);
    SplitJoinRoundTrip(words, seps);
  }

  /** Every trimmed, non-empty text is its `split` fields joined by the white-space runs
      between them, so the `JoinWith` lemmas cover every such text. */
  lemma {:induction false} SplitDecomposes(t: string)
    requires Trimmed(t) && |t| > 0
    ensures |Separators(t)| == |Split(t)| - 1
    ensures AreWords(Split(t)) && AreSeparators(Separators(t))
    ensures JoinWith(Split(t), Separators(t)) == t
    decreases |t|
  {
    assert AreWords(Split(t)) by {
      SplitTrimmedFields(t);
    }
    var i := FirstSpace(t);
    if i == |t| {
      assert Split(t) == [t] && Separators(t) == [] by {
        assert t[..i] == t;
      }
    } else {
      var rest := TrimStart(t[i..]);
      var sep := LeadingSpace(t[i..]);
      SplitStep(t, i, rest);
      assert |rest| > 0 && IsSeparator(sep) && Trimmed(rest) by {
        assert t[i..][0] == t[i];
        assert rest[|rest| - 1] == t[|t| - 1];
      }
      assert t == t[..i] + (sep + rest) by {
        SliceCat(t, i);
        assert sep + rest == t[i..];
      }
      SplitDecomposes(rest);
      JoinCons(t, t[..i], sep, rest, Split(rest), Separators(rest));
    }
  }

  /** Joining one more token and separator in front of a decomposed text. */
  lemma JoinCons(t: string, w: string, sep: string, rest: string,
                 words: seq<string>, seps: seq<string>)
    requires |words| >= 1 && |seps| == |words| - 1 && JoinWith(words, seps) == rest
    requires IsSeparator(sep) && AreSeparators(seps) && t == w + (sep + rest)
    ensures JoinWith([w] + words, [sep] + seps) == t
    ensures AreSeparators([sep] + seps)
  {
    assert JoinWith([w] + words, [sep] + seps) == w + sep + rest by {
      assert ([w] + words)[1..] == words;
      assert ([sep] + seps)[1..] == seps;
    }
    CatAssoc(w, sep, rest);
    assert AreSeparators([sep] + seps) by {
      assert forall k | 1 <= k < |seps| + 1 :: ([sep] + seps)[k] == seps[k - 1];
    }
  }

  lemma CatAssoc<T>(a: seq<T>, b: seq<T>, c: seq<T>)
    ensures a + b + c == a + (b + c)
  {
  }

  /** A sequence is its prefix followed by its suffix. */
  lemma SliceCat<T>(xs: seq<T>, i: nat)
    requires i <= |xs|
    ensures xs[..i] + xs[i..] == xs
  {
  }

  /** A non-empty sequence is its head followed by its tail. */
  lemma ConsTail<T>(xs: seq<T>)
    requires |xs| > 0
    ensures [xs[0]] + xs[1..] == xs
  {
  }

  /** A word, a white-space run, then text starting with a non-space character: the
      word is the first field and the text is split on its own. */
  lemma SplitAfterWord(w: string, sep: string, tail: string)
    requires NoSpace(w) && IsSeparator(sep) && |tail| > 0 && !IsSpace(tail[0])
    ensures Split(w + sep + tail) == [w] + Split(tail)
  {
    var s := w + sep + tail;
    assert s == w + (sep + tail);
    FirstSpaceAfterWord(w, sep + tail);
    assert s[..|w|] == w;
    assert s[|w|..] == sep + tail;
    TrimStartSpaces(sep, tail);
    SplitStep(s, |w|, tail);
  }

  lemma {:induction false} JoinWithStartsWithWord(words: seq<string>, seps: seq<string>)
    requires |words| >= 1 && |seps| == |words| - 1 && AreWords(words)
    ensures |JoinWith(words, seps)| > 0 && JoinWith(words, seps)[0] == words[0][0]
    ensures Trimmed(JoinWith(words, seps))
    decreases |words|
  {
    if |words| > 1 {
      JoinWithStartsWithWord(words[1..], seps[1..]);
      var tail := JoinWith(words[1..], seps[1..]);
      var s := words[0] + seps[0] + tail;
      assert s[|s| - 1] == tail[|tail| - 1];
    }
  }
}
