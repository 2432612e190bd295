/** The string operations of the routes: `trim`, the `\s` class, ASCII case mapping,
    `toUpperCase`, and the `replace(/[^\d+]/g, '')` filter on phone numbers. */
module Text {

  /** ECMAScript WhiteSpace and LineTerminator code points: what `String.prototype.trim`
      removes from both ends and what the regular-expression class `\s` matches. */
  predicate IsWhitespace(c: char) {
    || c == '\t' || c == '\n' || c == '\U{000B}' || c == '\U{000C}' || c == '\r'
    || c == ' ' || c == '\U{00A0}' || c == '\U{1680}' || ('\U{2000}' <= c <= '\U{200A}')
    || c == '\U{2028}' || c == '\U{2029}' || c == '\U{202F}' || c == '\U{205F}'
    || c == '\U{3000}' || c == '\U{FEFF}'
  }

  /** The regular-expression class `\d`: ASCII digits only. */
  predicate IsDigit(c: char) { '0' <= c <= '9' }

  predicate IsAsciiUpper(c: char) { 'A' <= c <= 'Z' }

  predicate IsAsciiLower(c: char) { 'a' <= c <= 'z' }

  predicate IsAsciiLetter(c: char) { IsAsciiUpper(c) || IsAsciiLower(c) }

  predicate IsAscii(c: char) { c < '\U{0080}' }

  predicate AllWhitespace(s: string) {
    forall k :: 0 <= k < |s| ==> IsWhitespace(s[k])
  }

  // ---------------------------------------------------------------------------
  // trim

  /** Number of whitespace characters at the front of `s`. */
  function LeadingWhitespace(s: string): (n: nat)
    ensures n <= |s|
    ensures forall k :: 0 <= k < n ==> IsWhitespace(s[k])
    ensures n < |s| ==> !IsWhitespace(s[n])
  {
    if s == [] || !IsWhitespace(s[0]) then 0 else 1 + LeadingWhitespace(s[1..])
  }

  /** Number of whitespace characters at the back of `s`. */
  function TrailingWhitespace(s: string): (n: nat)
    ensures n <= |s|
    ensures forall k :: |s| - n <= k < |s| ==> IsWhitespace(s[k])
    ensures n < |s| ==> !IsWhitespace(s[|s| - 1 - n])
  {
    if s == [] || !IsWhitespace(s[|s| - 1]) then 0 else 1 + TrailingWhitespace(s[..|s| - 1])
  }

  /** `String.prototype.trim`. */
  function Trim(s: string): (r: string)
    ensures |r| <= |s|
    ensures r == [] <==> AllWhitespace(s)
    ensures r != [] ==> !IsWhitespace(r[0]) && !IsWhitespace(r[|r| - 1])
  {
    var i := LeadingWhitespace(s);
    if i == |s| then [] else s[i..|s| - TrailingWhitespace(s)]
  }

  /** Where the trimmed string sits inside the original: everything around it is whitespace. */
  lemma TrimSpan(s: string) returns (i: nat, j: nat)
    ensures i <= j <= |s| && Trim(s) == s[i..j]
    ensures forall k :: 0 <= k < i ==> IsWhitespace(s[k])
    ensures forall k :: j <= k < |s| ==> IsWhitespace(s[k])
  {
    i := LeadingWhitespace(s);
    if i == |s| {
      j := i;
    } else {
      j := |s| - TrailingWhitespace(s);
    }
  }

  /** Trimming is determined by its two defining facts: a slice whose surroundings are
      whitespace and whose ends are not is the trimmed string. */
  lemma TrimCharacterized(s: string, i: nat, j: nat)
    requires i <= j <= |s|
    requires forall k :: 0 <= k < i ==> IsWhitespace(s[k])
    requires forall k :: j <= k < |s| ==> IsWhitespace(s[k])
    requires i < j ==> !IsWhitespace(s[i]) && !IsWhitespace(s[j - 1])
    ensures Trim(s) == s[i..j]
  {
    var a, b := TrimSpan(s);
    if i == j {
      assert AllWhitespace(s);
    } else {
      assert !AllWhitespace(s) by { assert !IsWhitespace(s[i]); }
      var t := Trim(s);
      assert t != [];
      assert a < b && s[a] == t[0] && s[b - 1] == t[|t| - 1];
      assert !IsWhitespace(s[a]) && !IsWhitespace(s[b - 1]);
      assert !IsWhitespace(s[i]) && !IsWhitespace(s[j - 1]);
    }
  }

  lemma {:induction false} TrimIdempotent(s: string)
    ensures Trim(Trim(s)) == Trim(s)
  {
    var t := Trim(s);
    TrimCharacterized(t, 0, |t|);
  }

  /** Whitespace added around a string does not change what `trim` gives. */
  lemma {:induction false} TrimPadded(p: string, s: string, q: string)
    requires AllWhitespace(p) && AllWhitespace(q)
    ensures Trim(p + s + q) == Trim(s)
  {
    var u := p + s + q;
    var i, j := TrimSpan(s);
    if i == j {
      assert AllWhitespace(s) by {
        forall k | 0 <= k < |s| ensures IsWhitespace(s[k]) {
          if k >= i { assert k >= j; }
        }
      }
      TrimCharacterized(u, 0, 0);
    } else {
      assert u[|p| + i..|p| + j] == s[i..j];
      TrimCharacterized(u, |p| + i, |p| + j);
    }
  }

  // ---------------------------------------------------------------------------
  // case mapping

  /** Case-insensitive equality of two characters, on the ASCII letters. */
  predicate SameIgnoringCase(a: char, b: char) {
    a == b || (IsAsciiLetter(a) && IsAsciiLetter(b) && (a as int - b as int == 32 || b as int - a as int == 32))
  }

  /** Case-insensitive equality of two strings, character by character. */
  predicate EqualIgnoringCase(s: string, t: string) {
    |s| == |t| && forall k :: 0 <= k < |s| ==> SameIgnoringCase(s[k], t[k])
  }

  function LowerChar(c: char): char {
    if IsAsciiUpper(c) then (c as int + 32) as char else c
  }

  /** `String.prototype.toLowerCase`, on the ASCII letters: each character is kept up to
      case, and no upper-case ASCII letter is left. */
  function ToLower(s: string): (r: string)
    ensures |r| == |s|
    ensures forall k :: 0 <= k < |r| ==> SameIgnoringCase(r[k], s[k]) && !IsAsciiUpper(r[k])
  {
    if s == [] then [] else [LowerChar(s[0])] + ToLower(s[1..])
  }

  /** `toLowerCase` turns a string into a keyword written in lower case exactly when the
      string is that keyword up to the case of its letters. */
  lemma {:induction false} ToLowerIsKeyword(s: string, kw: string)
    requires forall k :: 0 <= k < |kw| ==> !IsAsciiUpper(kw[k])
    ensures ToLower(s) == kw <==> EqualIgnoringCase(s, kw)
  {
    if s != [] && kw != [] {
      ToLowerIsKeyword(s[1..], kw[1..]);
      assert ToLower(s) == [LowerChar(s[0])] + ToLower(s[1..]);
      assert LowerChar(s[0]) == kw[0] <==> SameIgnoringCase(s[0], kw[0]);
      if EqualIgnoringCase(s, kw) {
        assert EqualIgnoringCase(s[1..], kw[1..]) by {
          forall k | 0 <= k < |s| - 1 ensures SameIgnoringCase(s[1..][k], kw[1..][k]) {
            assert SameIgnoringCase(s[k + 1], kw[k + 1]);
          }
        }
      }
      if ToLower(s) == kw {
        assert ToLower(s[1..]) == kw[1..];
        forall k | 0 <= k < |s| ensures SameIgnoringCase(s[k], kw[k]) {
          if k > 0 { assert s[k] == s[1..][k - 1]; }
        }
      }
    }
  }

  /** JavaScript's upper-case form of one character: the ASCII letters, plus the
      non-ASCII characters whose upper-case form is made of ASCII letters only. */
  function UpperChar(c: char): string {
    if IsAsciiLower(c) then [(c as int - 32) as char]
    else if c == '\U{0131}' then "I"    // dotless i
    else if c == '\U{017F}' then "S"    // long s
    else if c == '\U{00DF}' then "SS"   // sharp s
    else if c == '\U{FB00}' then "FF"
    else if c == '\U{FB01}' then "FI"
    else if c == '\U{FB02}' then "FL"
    else if c == '\U{FB03}' then "FFI"
    else if c == '\U{FB04}' then "FFL"
    else if c == '\U{FB05}' || c == '\U{FB06}' then "ST"
    else [c]
  }

  /** `String.prototype.toUpperCase`: each character is replaced by its upper-case form,
      which may be longer than one character. */
  function ToUpper(s: string): (r: string)
    ensures |r| >= |s|
    ensures s != [] ==> r != []
  {
    if s == [] then [] else UpperChar(s[0]) + ToUpper(s[1..])
  }

  /** On ASCII input, `toUpperCase` turns a string into a keyword written in upper case
      exactly when the string is that keyword up to the case of its letters. */
  lemma {:induction false} ToUpperIsKeyword(s: string, kw: string)
    requires forall k :: 0 <= k < |s| ==> IsAscii(s[k])
    requires forall k :: 0 <= k < |kw| ==> !IsAsciiLower(kw[k])
    ensures ToUpper(s) == kw <==> EqualIgnoringCase(s, kw)
  {
    if s != [] {
      assert UpperChar(s[0]) == [if IsAsciiLower(s[0]) then (s[0] as int - 32) as char else s[0]];
      if kw != [] {
        ToUpperIsKeyword(s[1..], kw[1..]);
        if EqualIgnoringCase(s, kw) {
          assert EqualIgnoringCase(s[1..], kw[1..]) by {
            forall k | 0 <= k < |s| - 1 ensures SameIgnoringCase(s[1..][k], kw[1..][k]) {
              assert SameIgnoringCase(s[k + 1], kw[k + 1]);
            }
          }
        }
        if ToUpper(s) == kw {
          assert ToUpper(s[1..]) == kw[1..];
          forall k | 0 <= k < |s| ensures SameIgnoringCase(s[k], kw[k]) {
            if k > 0 { assert s[k] == s[1..][k - 1]; }
          }
        }
      }
    }
  }

  // ---------------------------------------------------------------------------
  // phone characters

  predicate IsPhoneChar(c: char) { IsDigit(c) || c == '+' }

  predicate AllPhoneChars(s: string) {
    forall k :: 0 <= k < |s| ==> IsPhoneChar(s[k])
  }

  /** `s.startsWith('+')`. */
  predicate StartsWithPlus(s: string) { |s| > 0 && s[0] == '+' }

  predicate AllDigits(s: string) {
    forall k :: 0 <= k < |s| ==> IsDigit(s[k])
  }

  /** `s.replace(/[^\d+]/g, '')`: keeps the digits and plus signs of `s`, in order. */
  function KeepPhoneChars(s: string): (r: string)
    ensures |r| <= |s|
    ensures AllPhoneChars(r)
  {
    if s == [] then []
    else (if IsPhoneChar(s[0]) then [s[0]] else []) + KeepPhoneChars(s[1..])
  }

  /** The digits of `s`, in order: a reference for what the phone filter keeps. */
  function Digits(s: string): (r: string)
    ensures |r| <= |s|
    ensures AllDigits(r)
  {
    if s == [] then []
    else (if IsDigit(s[0]) then [s[0]] else []) + Digits(s[1..])
  }

  lemma {:induction false} KeepPhoneCharsConcat(a: string, b: string)
    ensures KeepPhoneChars(a + b) == KeepPhoneChars(a) + KeepPhoneChars(b)
  {
    if a != [] {
      assert (a + b)[0] == a[0] && (a + b)[1..] == a[1..] + b;
      KeepPhoneCharsConcat(a[1..], b);
    } else {
      assert a + b == b;
    }
  }

  lemma {:induction false} DigitsConcat(a: string, b: string)
    ensures Digits(a + b) == Digits(a) + Digits(b)
  {
    if a != [] {
      assert (a + b)[0] == a[0] && (a + b)[1..] == a[1..] + b;
      DigitsConcat(a[1..], b);
    } else {
      assert a + b == b;
    }
  }

  /** The filter keeps a string made only of digits and plus signs as it is. */
  lemma {:induction false} KeepPhoneCharsFixed(s: string)
    requires AllPhoneChars(s)
    ensures KeepPhoneChars(s) == s
  {
    if s != [] {
      KeepPhoneCharsFixed(s[1..]);
    }
  }

  /** The filter keeps every digit of its input. */
  lemma {:induction false} DigitsOfKept(s: string)
    ensures Digits(KeepPhoneChars(s)) == Digits(s)
  {
    if s != [] {
      var head := if IsPhoneChar(s[0]) then [s[0]] else [];
      DigitsConcat(head, KeepPhoneChars(s[1..]));
      DigitsOfKept(s[1..]);
    }
  }

  /** A string of digits is its own digit sequence, and nothing else is. */
  lemma {:induction false} DigitsFixedIff(s: string)
    ensures Digits(s) == s <==> AllDigits(s)
  {
    if s != [] {
      DigitsFixedIff(s[1..]);
      if !IsDigit(s[0]) {
        assert |Digits(s)| < |s|;
      } else if Digits(s) == s {
        assert Digits(s[1..]) == s[1..];
      }
    }
  }

  /** A string without digits or plus signs filters to nothing. */
  lemma {:induction false} KeepNothing(s: string)
    requires forall k :: 0 <= k < |s| ==> !IsPhoneChar(s[k])
    ensures KeepPhoneChars(s) == []
  {
    if s != [] {
      KeepNothing(s[1..]);
    }
  }

  /** The filter drops a character that is neither a digit nor `+`, wherever it stands. */
  lemma {:induction false} KeptIgnoresNoise(a: string, c: char, b: string)
    requires !IsPhoneChar(c)
    ensures KeepPhoneChars(a + [c] + b) == KeepPhoneChars(a + b)
  {
    KeepNothing([c]);
    calc {
      KeepPhoneChars(a + [c] + b);
      { KeepPhoneCharsConcat(a + [c], b); }
      KeepPhoneChars(a + [c]) + KeepPhoneChars(b);
      { KeepPhoneCharsConcat(a, [c]); }
      KeepPhoneChars(a) + KeepPhoneChars(b);
      { KeepPhoneCharsConcat(a, b); }
      KeepPhoneChars(a + b);
    }
  }
}
