/**
  The Python string built-ins the admin command parser relies on:
  str.split with an explicit one-character separator, str.lower, int() on a
  string in base 10, and str() on an integer (used to write commands).
 */
module PyText {
  import opened Wrappers

  // ---------------------------------------------------------------------
  // str.split(sep) and its inverse sep.join

  /** sep.join(parts) */
  function Join(parts: seq<string>, sep: char): string
    requires |parts| >= 1
  {
    if |parts| == 1 then parts[0] else parts[0] + [sep] + Join(parts[1..], sep)
  }

  /**
    s.split(sep) for a one-character sep: cuts at every occurrence, keeping
    empty pieces, so there is always one more piece than separators.
   */
  function Split(s: string, sep: char): (parts: seq<string>)
    ensures |parts| >= 1
    ensures forall i :: 0 <= i < |parts| ==> sep !in parts[i]
    ensures Join(parts, sep) == s
  {
    if |s| == 0 then [""]
    else
      var rest := Split(s[1..], sep);
      if s[0] == sep then
        assert [s[0]] + s[1..] == s;
        [""] + rest
      else
        var parts := [[s[0]] + rest[0]] + rest[1..];
        assert parts[1..] == rest[1..];
        assert forall i :: 1 <= i < |parts| ==> parts[i] == rest[i];
        assert Join(parts, sep) == [s[0]] + Join(rest, sep) by {
          if |rest| > 1 {
            assert Join(parts, sep) == [s[0]] + rest[0] + [sep] + Join(rest[1..], sep);
          }
        }
        assert [s[0]] + s[1..] == s;
        parts
  }

  /** Splitting a joined list of separator-free pieces gives the pieces back. */
  lemma {:induction false} SplitJoin(parts: seq<string>, sep: char)
    requires |parts| >= 1
    requires forall i :: 0 <= i < |parts| ==> sep !in parts[i]
    ensures Split(Join(parts, sep), sep) == parts
    decreases |parts|, |parts[0]|
  {
    if |parts[0]| == 0 {
      if |parts| > 1 {
        var tail := Join(parts[1..], sep);
        assert Join(parts, sep) == [sep] + tail;
        SplitJoin(parts[1..], sep);
        assert ([sep] + tail)[1..] == tail;
      }
    } else {
      var c := parts[0][0];
      assert c in parts[0];
      var shorter := [parts[0][1..]] + parts[1..];
      assert forall i :: 1 <= i < |shorter| ==> shorter[i] == parts[i];
      assert forall x :: x in parts[0][1..] ==> x in parts[0];
      SplitJoin(shorter, sep);
      var s := Join(parts, sep);
      JoinFirstChar(parts, sep);
      assert s[1..] == Join(shorter, sep);
      assert s[0] == c && c != sep;
      assert Split(s, sep) == [[c] + shorter[0]] + shorter[1..];
      assert [c] + shorter[0] == parts[0];
      assert shorter[1..] == parts[1..];
      assert parts == [parts[0]] + parts[1..];
    }
  }

  /** The first character of a joined list whose first piece is non-empty comes off that piece. */
  lemma JoinFirstChar(parts: seq<string>, sep: char)
    requires |parts| >= 1 && |parts[0]| > 0
    ensures Join(parts, sep) == [parts[0][0]] + Join([parts[0][1..]] + parts[1..], sep)
  {
    var shorter := [parts[0][1..]] + parts[1..];
    assert parts[0] == [parts[0][0]] + parts[0][1..];
    if |parts| > 1 {
      assert shorter[1..] == parts[1..];
    }
  }

  /** Joining two piece lists with a separator between them concatenates the lists. */
  lemma {:induction false} JoinAppend(a: seq<string>, b: seq<string>, sep: char)
    requires |a| >= 1 && |b| >= 1
    ensures Join(a + b, sep) == Join(a, sep) + [sep] + Join(b, sep)
    decreases |a|
  {
    if |a| > 1 {
      assert (a + b)[1..] == a[1..] + b;
      JoinAppend(a[1..], b, sep);
    }
  }

  /** Splitting at an added separator splits each side independently. */
  lemma SplitAppend(s: string, t: string, sep: char)
    ensures Split(s + [sep] + t, sep) == Split(s, sep) + Split(t, sep)
  {
    var a := Split(s, sep);
    var b := Split(t, sep);
    JoinAppend(a, b, sep);
    SplitJoin(a + b, sep);
  }

  // ---------------------------------------------------------------------
  // str.lower

  /** Lower-case of one character, for the ASCII letters. */
  function LowerChar(c: char): char
  {
    if 'A' <= c <= 'Z' then (c as int - 'A' as int + 'a' as int) as char else c
  }

  /** str.lower: every character mapped independently. */
  function Lower(s: string): (r: string)
    ensures |r| == |s|
    ensures forall i :: 0 <= i < |s| ==> r[i] == LowerChar(s[i])
  {
    if |s| == 0 then "" else [LowerChar(s[0])] + Lower(s[1..])
  }

  /** Lowering twice is lowering once. */
  lemma LowerIdempotent(s: string)
    ensures Lower(Lower(s)) == Lower(s)
  {
  }

  // ---------------------------------------------------------------------
  // int(s) in base 10

  predicate IsDigit(c: char)
  {
    '0' <= c <= '9'
  }

  function DigitValue(c: char): nat
    requires IsDigit(c)
  {
    c as int - '0' as int
  }

  /**
    The whitespace int() skips around its digits, the C-locale set: tab,
    line feed, vertical tab, form feed, carriage return and the space. The
    separators U+001C to U+001F count as whitespace for str.isspace() but
    not here.
  */
  predicate IsSpace(c: char)
  {
    '\t' <= c <= '\r' || c == ' '
  }

  /** Every character of w is whitespace. */
  predicate AllSpace(w: string)
  {
    forall i :: 0 <= i < |w| ==> IsSpace(w[i])
  }

  /** Leading whitespace that int() skips: the longest suffix of s that does not start with whitespace. */
  function StripLeading(s: string): (t: string)
    ensures |t| <= |s| && t == s[|s| - |t|..]
    ensures forall i :: 0 <= i < |s| - |t| ==> IsSpace(s[i])
    ensures |t| > 0 ==> !IsSpace(t[0])
  {
    if |s| > 0 && IsSpace(s[0]) then StripLeading(s[1..]) else s
  }

  /** Trailing whitespace that int() skips: the longest prefix of s that does not end with whitespace. */
  function StripTrailing(s: string): (t: string)
    ensures |t| <= |s| && t == s[..|t|]
    ensures forall i :: |t| <= i < |s| ==> IsSpace(s[i])
    ensures |t| > 0 ==> !IsSpace(t[|t| - 1])
  {
    if |s| > 0 && IsSpace(s[|s| - 1]) then StripTrailing(s[..|s| - 1]) else s
  }

  /** The whitespace int() skips, cut off at both ends; nothing is left exactly when s is all whitespace. */
  function Strip(s: string): (t: string)
    ensures |t| <= |s|
    ensures |t| > 0 ==> !IsSpace(t[0]) && !IsSpace(t[|t| - 1])
    ensures |t| == 0 <==> AllSpace(s)
  {
    var lead := StripLeading(s);
    assert |lead| > 0 ==> !IsSpace(s[|s| - |lead|]);
    StripTrailing(lead)
  }

  /** t occurs in s at offset k. */
  predicate SliceAt(s: string, k: nat, t: string)
  {
    k + |t| <= |s| && t == s[k..k + |t|]
  }

  /** Everything of s before offset k and from offset k + n on is whitespace. */
  predicate SpaceOutside(s: string, k: nat, n: nat)
  {
    && (forall i :: 0 <= i < k && i < |s| ==> IsSpace(s[i]))
    && (forall i :: k + n <= i < |s| ==> IsSpace(s[i]))
  }

  /**
    What Strip removes is whitespace, and only from the ends: the result
    is the slice of s that starts where StripLeading stops.
   */
  lemma StripIsSlice(s: string)
    ensures SliceAt(s, |s| - |StripLeading(s)|, Strip(s))
    ensures SpaceOutside(s, |s| - |StripLeading(s)|, |Strip(s)|)
  {
    SliceOfSuffix(s, StripLeading(s), Strip(s));
  }

  /** A prefix t of a suffix lead of s is a slice of s, and what follows t in lead follows it in s. */
  lemma SliceOfSuffix(s: string, lead: string, t: string)
    requires |lead| <= |s| && lead == s[|s| - |lead|..]
    requires forall i :: 0 <= i < |s| - |lead| ==> IsSpace(s[i])
    requires |t| <= |lead| && t == lead[..|t|]
    requires forall i :: |t| <= i < |lead| ==> IsSpace(lead[i])
    ensures SliceAt(s, |s| - |lead|, t)
    ensures SpaceOutside(s, |s| - |lead|, |t|)
  {
    var k := |s| - |lead|;
    forall i | k + |t| <= i < |s|
      ensures IsSpace(s[i])
    {
      assert s[i] == lead[i - k];
    }
  }

  /** Whitespace in front of s is cut off by StripLeading. */
  lemma {:induction false} StripLeadingPadded(w: string, s: string)
    requires AllSpace(w)
    ensures StripLeading(w + s) == StripLeading(s)
  {
    if |w| > 0 {
      assert (w + s)[1..] == w[1..] + s;
      StripLeadingPadded(w[1..], s);
    } else {
      assert w + s == s;
    }
  }

  /** Whitespace behind s is cut off by StripTrailing. */
  lemma {:induction false} StripTrailingPadded(s: string, w: string)
    requires AllSpace(w)
    ensures StripTrailing(s + w) == StripTrailing(s)
  {
    if |w| > 0 {
      var init := w[..|w| - 1];
      assert (s + w)[..|s + w| - 1] == s + init;
      StripTrailingPadded(s, init);
    } else {
      assert s + w == s;
    }
  }

  /** StripLeading of s followed by whitespace: the whitespace stays unless StripLeading removes all of s. */
  lemma {:induction false} StripLeadingThenSpace(s: string, w: string)
    requires AllSpace(w)
    ensures StripLeading(s + w) == if |StripLeading(s)| == 0 then [] else StripLeading(s) + w
  {
    if |s| == 0 {
      assert s + w == w;
      StripLeadingPadded(w, "");
      assert w + "" == w;
    } else if IsSpace(s[0]) {
      assert (s + w)[1..] == s[1..] + w;
      StripLeadingThenSpace(s[1..], w);
    }
  }

  /** Strip ignores any whitespace added around s. */
  lemma StripPadded(w1: string, s: string, w2: string)
    requires AllSpace(w1) && AllSpace(w2)
    ensures Strip(w1 + s + w2) == Strip(s)
  {
    StripLeadingRegrouped(w1, s, w2);
    StripLeadingThenSpace(s, w2);
    if |StripLeading(s)| > 0 {
      StripTrailingPadded(StripLeading(s), w2);
    }
  }

  /** The whitespace in front is cut off however the concatenation is grouped. */
  lemma StripLeadingRegrouped(w1: string, s: string, w2: string)
    requires AllSpace(w1)
    ensures StripLeading(w1 + s + w2) == StripLeading(s + w2)
  {
    AppendRegrouped(w1, s, w2);
    StripLeadingPadded(w1, s + w2);
  }

  /** Concatenation of strings is associative. */
  lemma AppendRegrouped(a: string, b: string, c: string)
    ensures a + b + c == a + (b + c)
  {
  }

  /**
    A digit string as int() accepts it: non-empty, starting and ending with
    a digit, digits with single underscores between them.
   */
  predicate WellFormedDigits(t: string)
  {
    && |t| > 0
    && IsDigit(t[0])
    && IsDigit(t[|t| - 1])
    && (forall i :: 0 <= i < |t| ==> IsDigit(t[i]) || t[i] == '_')
    && (forall i :: 0 < i < |t| && t[i] == '_' ==> t[i - 1] != '_')
  }

  /** The number written by the digits of t, underscores skipped. */
  function DigitsValue(t: string): nat
    requires forall i :: 0 <= i < |t| ==> IsDigit(t[i]) || t[i] == '_'
  {
    if |t| == 0 then 0
    else
      var init := t[..|t| - 1];
      assert forall i :: 0 <= i < |init| ==> init[i] == t[i];
      if t[|t| - 1] == '_' then DigitsValue(init) else 10 * DigitsValue(init) + DigitValue(t[|t| - 1])
  }

  /** int(s) in base 10, or None where Python raises ValueError. */
  function ParseInt(s: string): (r: Option<int>)
    ensures r.Some? ==> !AllSpace(s)
  {
    ParseStripped(Strip(s))
  }

  /** int() on the stripped text: an optional sign, then well-formed digits. */
  function ParseStripped(t: string): (r: Option<int>)
    ensures r.Some? ==> |t| > 0
  {
    if |t| > 0 && (t[0] == '-' || t[0] == '+') then
      var digits := t[1..];
      if WellFormedDigits(digits) then
        var magnitude: int := DigitsValue(digits);
        Some(if t[0] == '-' then -magnitude else magnitude)
      else None
    else if WellFormedDigits(t) then Some(DigitsValue(t))
    else None
  }

  // ---------------------------------------------------------------------
  // str(n)

  function DigitChar(d: nat): (c: char)
    requires d < 10
    ensures IsDigit(c) && DigitValue(c) == d
  {
    ('0' as int + d) as char
  }

  /** str(n) for n >= 0 */
  function NatToString(n: nat): (s: string)
    ensures |s| > 0
    ensures forall i :: 0 <= i < |s| ==> IsDigit(s[i])
  {
    if n < 10 then [DigitChar(n)]
    else
      var s := NatToString(n / 10) + [DigitChar(n % 10)];
      assert forall i :: 0 <= i < |s| - 1 ==> s[i] == NatToString(n / 10)[i];
      s
  }

  /** str(n): a minus sign exactly for negative n, then the decimal digits. */
  function IntToString(n: int): (s: string)
    ensures |s| > 0
    ensures s[0] == '-' <==> n < 0
    ensures forall i :: (if n < 0 then 1 else 0) <= i < |s| ==> IsDigit(s[i])
  {
    if n < 0 then "-" + NatToString(-n) else NatToString(n)
  }

  lemma {:induction false} NatToStringValue(n: nat)
    ensures WellFormedDigits(NatToString(n))
    ensures DigitsValue(NatToString(n)) == n
  {
    var s := NatToString(n);
    if n >= 10 {
      NatToStringValue(n / 10);
      assert s[..|s| - 1] == NatToString(n / 10);
    }
  }

  /** int(str(n)) == n: reading back a written integer gives it back. */
  lemma ParseIntToString(n: int)
    ensures ParseInt(IntToString(n)) == Some(n)
  {
    var s := IntToString(n);
    var m := if n < 0 then -n else n;
    NatToStringValue(m);
    var digits := NatToString(m);
    assert !IsSpace(s[0]) && !IsSpace(s[|s| - 1]);
    assert StripLeading(s) == s;
    assert Strip(s) == s;
    if n < 0 {
      assert s[1..] == digits;
    } else {
      assert s[0] != '-' && s[0] != '+';
    }
  }

  /** int() ignores whitespace around its argument. */
  lemma ParseIntPadded(w1: string, s: string, w2: string)
    requires AllSpace(w1) && AllSpace(w2)
    ensures ParseInt(w1 + s + w2) == ParseInt(s)
  {
    StripPadded(w1, s, w2);
  }

  /**
    int() does not skip the information separators U+001C to U+001F: a text
    that starts with one is rejected, whatever follows.
  */
  lemma SeparatorNotSkipped(c: char, s: string)
    requires '\U{1C}' <= c <= '\U{1F}'
    ensures ParseInt([c] + s) == None
  {
    var t := [c] + s;
    assert !IsSpace(t[0]);
    assert StripLeading(t) == t;
    assert |Strip(t)| > 0 && Strip(t)[0] == c;
  }

  /** The written form of an integer contains no character the parser splits or strips at. */
  lemma IntToStringHasNoSpace(n: int)
    ensures forall i :: 0 <= i < |IntToString(n)| ==> !IsSpace(IntToString(n)[i])
  {
    var m := if n < 0 then -n else n;
    var digits := NatToString(m);
    if n < 0 {
      assert forall i :: 1 <= i < |IntToString(n)| ==> IntToString(n)[i] == digits[i - 1];
    }
  }
}
