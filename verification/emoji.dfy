/**
 The index formatter of the `/balance` reply: `numberToEmoji` writes a number in
 decimal (`num.toString()`) and replaces each digit by its keycap emoji.
 */
module Emoji {
  import opened Options

  /** The keycap emoji for 0..9: the digit, VARIATION SELECTOR-16, COMBINING ENCLOSING KEYCAP. */
  const EmojiNumbers: seq<string> := [
    "0\U{FE0F}\U{20E3}", "1\U{FE0F}\U{20E3}", "2\U{FE0F}\U{20E3}", "3\U{FE0F}\U{20E3}",
    "4\U{FE0F}\U{20E3}", "5\U{FE0F}\U{20E3}", "6\U{FE0F}\U{20E3}", "7\U{FE0F}\U{20E3}",
    "8\U{FE0F}\U{20E3}", "9\U{FE0F}\U{20E3}"
  ]

  predicate IsDigit(c: char) {
    '0' <= c <= '9'
  }

  predicate AllDigits(s: string) {
    forall i | 0 <= i < |s| :: IsDigit(s[i])
  }

  function DigitChar(d: nat): (c: char)
    requires d < 10
    ensures IsDigit(c) && DigitValue(c) == d
  {
    ('0' as int + d) as char
  }

  /** `parseInt` of a single decimal digit. */
  function DigitValue(c: char): nat
    requires IsDigit(c)
  {
    c as int - '0' as int
  }

  /** `n.toString()` for a non-negative integer: its decimal digits, most significant
      first, with no leading zero. */
  function DecimalString(n: nat): (s: string)
    ensures |s| >= 1 && AllDigits(s)
    ensures s[0] == '0' <==> n == 0
  {
    if n < 10 then [DigitChar(n)] else DecimalString(n / 10) + [DigitChar(n % 10)]
  }

  /** The value of a string of decimal digits, read most significant first. */
  function ParseDecimal(s: string): nat
    requires AllDigits(s)
  {
    if |s| == 0 then 0 else ParseDecimal(s[..|s| - 1]) * 10 + DigitValue(s[|s| - 1])
  }

  /** Reading back the decimal string of `n` gives `n`. */
  lemma {:induction false} DecimalRoundTrip(n: nat)
    ensures ParseDecimal(DecimalString(n)) == n
  {
    if n >= 10 {
      var p := DecimalString(n / 10);
      var s := p + [DigitChar(n % 10)];
      assert s[..|s| - 1] == p;
      DecimalRoundTrip(n / 10);
    }
  }

  function Pow10(k: nat): (p: nat)
    ensures p >= 1
  {
    if k == 0 then 1 else 10 * Pow10(k - 1)
  }

  /** A positive `n` has `|DecimalString(n)|` decimal digits:
      10^(len-1) <= n < 10^len. */
  lemma {:induction false} DecimalLength(n: nat)
    requires n > 0
    ensures Pow10(|DecimalString(n)| - 1) <= n < Pow10(|DecimalString(n)|)
  {
    if n >= 10 {
      DecimalLength(n / 10);
    }
  }

  function Keycap(c: char): (e: string)
    requires IsDigit(c)
    ensures e == [c, '\U{FE0F}', '\U{20E3}']
  {
    EmojiNumbers[DigitValue(c)]
  }

  /** Each digit replaced by its keycap emoji, concatenated in order. */
  function Keycaps(s: string): (r: string)
    requires AllDigits(s)
    ensures |r| == 3 * |s|
  {
    if |s| == 0 then [] else Keycap(s[0]) + Keycaps(s[1..])
  }

  /** One keycap emoji per decimal digit of `n`, in order. */
  function NumberToEmoji(n: nat): (r: string)
    ensures |r| == 3 * |DecimalString(n)|
  {
    Keycaps(DecimalString(n))
  }

  /** The `i`-th three characters of the output are the keycap of the `i`-th digit. */
  lemma {:induction false} KeycapsBlocks(s: string)
    requires AllDigits(s)
    ensures forall i | 0 <= i < |s| :: Keycaps(s)[3 * i..3 * i + 3] == EmojiNumbers[DigitValue(s[i])]
    decreases |s|
  {
    if |s| > 0 {
      KeycapsBlocks(s[1..]);
      var r := Keycaps(s);
      var tail := Keycaps(s[1..]);
      assert r == Keycap(s[0]) + tail;
      forall i | 0 <= i < |s|
        ensures r[3 * i..3 * i + 3] == EmojiNumbers[DigitValue(s[i])]
      {
        if i > 0 {
          assert r[3 * i..3 * i + 3] == tail[3 * (i - 1)..3 * (i - 1) + 3];
          assert s[1..][i - 1] == s[i];
        }
      }
    }
  }

  lemma NumberToEmojiBlocks(n: nat)
    ensures var d := DecimalString(n);
            forall i | 0 <= i < |d| :: NumberToEmoji(n)[3 * i..3 * i + 3] == EmojiNumbers[DigitValue(d[i])]
  {
    KeycapsBlocks(DecimalString(n));
  }

  /** Reads a run of keycap emoji back to the digits they show; `None` for any other text. */
  function DigitsOfKeycaps(r: string): (d: Option<string>)
    ensures d.Some? ==> AllDigits(d.value)
    decreases |r|
  {
    if |r| == 0 then Some([])
    else if |r| >= 3 && IsDigit(r[0]) && r[1] == '\U{FE0F}' && r[2] == '\U{20E3}' then
      match DigitsOfKeycaps(r[3..])
      case None => None
      case Some(rest) => Some([r[0]] + rest)
    else None
  }

  /** Reads an emoji number back to its value; `None` unless it is a non-empty run of keycaps. */
  function EmojiToNumber(r: string): Option<nat> {
    match DigitsOfKeycaps(r)
    case Some(d) => if |d| > 0 then Some(ParseDecimal(d)) else None
    case None => None
  }

  lemma {:induction false} KeycapsRoundTrip(s: string)
    requires AllDigits(s)
    ensures DigitsOfKeycaps(Keycaps(s)) == Some(s)
    decreases |s|
  {
    if |s| > 0 {
      var r := Keycaps(s);
      assert r[3..] == Keycaps(s[1..]);
      KeycapsRoundTrip(s[1..]);
      assert [s[0]] + s[1..] == s;
    }
  }

  /** The emoji rendering of `n` reads back as `n`: no two indices render alike. */
  lemma NumberToEmojiRoundTrip(n: nat)
    ensures EmojiToNumber(NumberToEmoji(n)) == Some(n)
  {
    KeycapsRoundTrip(DecimalString(n));
    DecimalRoundTrip(n);
  }
}
