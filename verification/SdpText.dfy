/** The text parsing that codec negotiation rests on. */
module SdpText {
  import opened Primitives

  predicate IsDigit(c: char) {
    '0' <= c <= '9'
  }

  function DecimalValue(s: string): Option<nat> {
    if s == "" then Some(0)
    else
      var n := |s| - 1;
      match DecimalValue(s[..n])
      case Some(v) => if IsDigit(s[n]) then Some(10 * v + (s[n] as int - '0' as int)) else None
      case None => None
  }

  /** Unsigned integer parsing: an optional plus sign, at least one digit, no overflow. */
  function ParseUnsigned(s: string, limit: nat): Option<nat> {
    var digits := if |s| > 1 && s[0] == '+' then s[1..] else s;
    if digits == "" then None
    else
      match DecimalValue(digits)
      case Some(v) => if v < limit then Some(v) else None
      case None => None
  }

  function ParseU8(s: string): Option<nat> {
    ParseUnsigned(s, 0x100)
  }

  /** The pieces between separators; always at least one. */
  function Split(s: string, sep: char): (parts: seq<string>)
    ensures |parts| > 0
  {
    if s == "" then [""]
    else
      var rest := Split(s[1..], sep);
      if s[0] == sep then [""] + rest else [[s[0]] + rest[0]] + rest[1..]
  }

  /** Characters with the Unicode White_Space property. */
  predicate IsWhitespace(c: char) {
    var u := c as int;
    || 0x09 <= u <= 0x0D || u == 0x20 || u == 0x85 || u == 0xA0 || u == 0x1680
    || 0x2000 <= u <= 0x200A || u == 0x2028 || u == 0x2029 || u == 0x202F || u == 0x205F || u == 0x3000
  }

  function TakeWord(s: string): string {
    if s == "" || IsWhitespace(s[0]) then "" else [s[0]] + TakeWord(s[1..])
  }

  /** The first piece of non-blank text, if any. */
  function FirstWord(s: string): Option<string> {
    if s == "" then None
    else if IsWhitespace(s[0]) then FirstWord(s[1..])
    else Some(TakeWord(s))
  }

  predicate NoBlanks(s: string) {
    forall i :: 0 <= i < |s| ==> !IsWhitespace(s[i])
  }

  lemma {:induction false} DigitsAreNotBlank(s: string)
    requires DecimalValue(s).Some?
    ensures NoBlanks(s)
  {
    if s != "" {
      DigitsAreNotBlank(s[..|s| - 1]);
    }
  }

  lemma {:induction false} TakeWordStops(word: string, rest: string)
    requires NoBlanks(word) && (rest == "" || IsWhitespace(rest[0]))
    ensures TakeWord(word + rest) == word
  {
    if word == "" {
      assert word + rest == rest;
    } else {
      TakeWordStops(word[1..], rest);
      assert (word + rest)[1..] == word[1..] + rest;
    }
  }

  lemma {:induction false} SplitFirst(s: string, sep: char)
    ensures var parts := Split(s, sep);
            && (|parts| == 1 ==> s == parts[0])
            && (|parts| > 1 ==> |parts[0]| < |s| && s[..|parts[0]|] == parts[0] && s[|parts[0]|] == sep)
  {
    if s != "" && s[0] != sep {
      SplitFirst(s[1..], sep);
    }
  }

  /** When the part before the first blank is a number, it is the first word of the text. */
  lemma NumberIsFirstWord(s: string)
    requires |Split(s, ' ')| > 1 && ParseU8(Split(s, ' ')[0]).Some?
    ensures FirstWord(s) == Some(Split(s, ' ')[0])
  {
    SplitFirst(s, ' ');
    var word := Split(s, ' ')[0];
    NumbersAreWords(word);
    TakeWordStops(word, s[|word|..]);
    assert s == word + s[|word|..];
  }

  lemma NumbersAreWords(s: string)
    requires ParseU8(s).Some?
    ensures s != "" && NoBlanks(s)
  {
    var digits := if |s| > 1 && s[0] == '+' then s[1..] else s;
    DigitsAreNotBlank(digits);
    forall i | 0 <= i < |s| ensures !IsWhitespace(s[i]) {
      if digits != s && i > 0 {
        assert s[i] == digits[i - 1];
      }
    }
  }

  lemma {:induction false} SplitWhole(s: string, sep: char)
    requires sep !in s
    ensures Split(s, sep) == [s]
  {
    if s != "" {
      SplitWhole(s[1..], sep);
      assert s == [s[0]] + s[1..];
    }
  }

  lemma {:induction false} SplitAround(word: string, rest: string, sep: char)
    requires sep !in word
    ensures Split(word + [sep] + rest, sep) == [word] + Split(rest, sep)
  {
    var s := word + [sep] + rest;
    if word == "" {
      assert s[1..] == rest;
    } else {
      SplitAround(word[1..], rest, sep);
      assert s[1..] == word[1..] + [sep] + rest;
      assert word == [word[0]] + word[1..];
    }
  }

  /** Reading one more digit. */
  lemma DecimalStep(s: string, c: char)
    requires IsDigit(c) && DecimalValue(s).Some?
    ensures DecimalValue(s + [c]) == Some(10 * DecimalValue(s).value + (c as int - '0' as int))
  {
    assert (s + [c])[..|s|] == s;
  }

  lemma TwoDigits(c: char, d: char)
    requires IsDigit(c) && IsDigit(d)
    ensures DecimalValue([c, d]) == Some(10 * (c as int - '0' as int) + (d as int - '0' as int))
  {
    DecimalStep([], c);
    DecimalStep([c], d);
    assert [] + [c] == [c] && [c] + [d] == [c, d];
  }
}
