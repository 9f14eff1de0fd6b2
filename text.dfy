/** The string operations the filter relies on, stated as Python defines
    them: `str.strip()` and `str.strip('"')`, the case-insensitive "nan"
    test, and decimal digits in both directions (`int()` of a digit run and
    the `{n}` of an f-string). */
module Text {

  /** The characters Python's argument-less `str.strip()` removes
      (`str.isspace`). */
  predicate IsSpace(c: char)
  {
    || c == ' ' || ('\t' <= c <= '\r') || ('\U{001C}' <= c <= '\U{001F}')
    || c == '\U{0085}' || c == '\U{00A0}' || c == '\U{1680}' || ('\U{2000}' <= c <= '\U{200A}')
    || c == '\U{2028}' || c == '\U{2029}' || c == '\U{202F}' || c == '\U{205F}' || c == '\U{3000}'
  }

  predicate IsQuote(c: char)
  {
    c == '"'
  }

  /** The two character sets the filter strips: `strip()` and `strip('"')`. */
  datatype CharSet = Whitespace | QuoteMark

  predicate Drops(cs: CharSet, c: char)
  {
    match cs
    case Whitespace => IsSpace(c)
    case QuoteMark => IsQuote(c)
  }

  /** Number of leading characters of `s` that `cs` holds. */
  function LeadCount(s: string, cs: CharSet): (n: nat)
    ensures n <= |s|
    ensures forall k | 0 <= k < n :: Drops(cs, s[k])
    ensures n < |s| ==> !Drops(cs, s[n])
  {
    if s == [] || !Drops(cs, s[0]) then 0 else 1 + LeadCount(s[1..], cs)
  }

  /** Number of trailing characters of `s` that `cs` holds. */
  function TrailCount(s: string, cs: CharSet): (n: nat)
    ensures n <= |s|
    ensures forall k | |s| - n <= k < |s| :: Drops(cs, s[k])
    ensures n < |s| ==> !Drops(cs, s[|s| - 1 - n])
  {
    if s == [] || !Drops(cs, s[|s| - 1]) then 0 else 1 + TrailCount(s[..|s| - 1], cs)
  }

  /** `s.strip(chars)`: remove every leading and trailing character of
      the set `cs`. */
  function StripWith(s: string, cs: CharSet): string
  {
    var t := s[LeadCount(s, cs)..];
    t[..|t| - TrailCount(t, cs)]
  }

  /** The stripped text neither starts nor ends with a character of the set,
      is empty exactly when every character is in the set, and equals the
      input when the input has nothing to strip. */
  lemma StripWithSpec(s: string, cs: CharSet)
    ensures var r := StripWith(s, cs);
            && |r| <= |s|
            && (r == [] || (!Drops(cs, r[0]) && !Drops(cs, r[|r| - 1])))
            && (r == [] <==> forall k | 0 <= k < |s| :: Drops(cs, s[k]))
            && (s == [] || (!Drops(cs, s[0]) && !Drops(cs, s[|s| - 1])) ==> r == s)
  {
    var i := LeadCount(s, cs);
    var t := s[i..];
    var n := TrailCount(t, cs);
  }

  /** What strip removes is exactly a run of droppable characters at each
      end: the result is the infix `s[i..j]` with everything outside it
      droppable. */
  lemma StripWithIsInfix(s: string, cs: CharSet)
    ensures exists i, j ::
              && 0 <= i <= j <= |s| && StripWith(s, cs) == s[i..j]
              && (forall k | 0 <= k < i :: Drops(cs, s[k]))
              && (forall k | j <= k < |s| :: Drops(cs, s[k]))
  {
    var i := LeadCount(s, cs);
    var t := s[i..];
    var j := i + |t| - TrailCount(t, cs);
    assert StripWith(s, cs) == s[i..j];
    forall k | j <= k < |s| ensures Drops(cs, s[k]) {
      assert s[k] == t[k - i];
    }
  }

  /** `str.strip()` */
  function Strip(s: string): string
  {
    StripWith(s, Whitespace)
  }

  /** `str.strip('"')` */
  function StripQuotes(s: string): string
  {
    StripWith(s, QuoteMark)
  }

  /** A digit string wrapped in any number of quotes loses exactly the
      quotes. */
  lemma StripQuotesOfQuoted(d: string, left: nat, right: nat)
    requires AllDigits(d)
    ensures StripQuotes(Quotes(left) + d + Quotes(right)) == d
  {
    if d == [] {
      AllQuotes(left, right);
    } else {
      QuotedDigits(d, left, right);
    }
  }

  lemma QuotedDigits(d: string, left: nat, right: nat)
    requires AllDigits(d) && d != []
    ensures StripQuotes(Quotes(left) + d + Quotes(right)) == d
  {
    var t := d + Quotes(right);
    var s := Quotes(left) + d + Quotes(right);
    assert s == Quotes(left) + t;
    assert LeadCount(s, QuoteMark) == left by {
      LeadingQuotes(left, t);
    }
    assert s[left..] == t;
    TrailingQuotes(d, right);
  }

  lemma AllQuotes(left: nat, right: nat)
    ensures StripQuotes(Quotes(left) + [] + Quotes(right)) == []
  {
    var s := Quotes(left) + [] + Quotes(right);
    assert forall k | 0 <= k < |s| :: s[k] == '"';
    assert LeadCount(s, QuoteMark) == |s|;
  }

  lemma LeadingQuotes(n: nat, x: string)
    requires x != [] && !IsQuote(x[0])
    ensures LeadCount(Quotes(n) + x, QuoteMark) == n
  {
    assert (Quotes(n) + x)[n] == x[0];
  }

  lemma TrailingQuotes(x: string, n: nat)
    requires x != [] && !IsQuote(x[|x| - 1])
    ensures TrailCount(x + Quotes(n), QuoteMark) == n
    ensures (x + Quotes(n))[..|x|] == x
  {
    assert (x + Quotes(n))[|x| - 1] == x[|x| - 1];
  }

  function Quotes(n: nat): (q: string)
    ensures |q| == n && forall k | 0 <= k < n :: q[k] == '"'
  {
    if n == 0 then "" else "\"" + Quotes(n - 1)
  }

  function LowerChar(c: char): char
  {
    if 'A' <= c <= 'Z' then (c as int + 32) as char else c
  }

  /** `s.lower() == "nan"`: the placeholder pandas prints for a missing
      value, in any mix of upper and lower case. Only three-character texts
      can lower-case to "nan", so the test reads three characters. */
  predicate IsNanText(s: string)
  {
    |s| == 3 && LowerChar(s[0]) == 'n' && LowerChar(s[1]) == 'a' && LowerChar(s[2]) == 'n'
  }

  /** The placeholder test accepts exactly the eight spellings of "nan"
      in upper and lower case. */
  lemma NanTextSpellings(s: string)
    ensures IsNanText(s) <==> s in {"nan", "naN", "nAn", "nAN", "Nan", "NaN", "NAn", "NAN"}
  {
    if IsNanText(s) {
      assert s == [s[0], s[1], s[2]];
    }
  }

  predicate IsDigit(c: char)
  {
    '0' <= c <= '9'
  }

  predicate AllDigits(s: string)
  {
    forall k | 0 <= k < |s| :: IsDigit(s[k])
  }

  function DigitChar(d: nat): (c: char)
    requires d < 10
    ensures IsDigit(c) && c as int - '0' as int == d
  {
    ('0' as int + d) as char
  }

  /** `int(s)` for a run of decimal digits (leading zeros allowed). */
  function DigitsValue(s: string): nat
    requires AllDigits(s)
  {
    if s == [] then 0
    else DigitsValue(s[..|s| - 1]) * 10 + (s[|s| - 1] as int - '0' as int)
  }

  /** The decimal text of `n`, as an f-string writes it. */
  function NatToString(n: nat): (r: string)
    ensures |r| >= 1 && AllDigits(r)
    ensures r[0] == '0' ==> n == 0
  {
    if n < 10 then [DigitChar(n)] else NatToString(n / 10) + [DigitChar(n % 10)]
  }

  /** Reading back the decimal text of `n` gives `n`. */
  lemma {:induction false} DigitsValueOfNatToString(n: nat)
    ensures DigitsValue(NatToString(n)) == n
  {
    var r := NatToString(n);
    if n >= 10 {
      DigitsValueOfNatToString(n / 10);
      assert r[..|r| - 1] == NatToString(n / 10);
    }
  }

  /** Distinct numbers have distinct decimal texts. */
  lemma NatToStringInjective(m: nat, n: nat)
    requires m != n
    ensures NatToString(m) != NatToString(n)
  {
    DigitsValueOfNatToString(m);
    DigitsValueOfNatToString(n);
  }
}
