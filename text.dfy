/** String primitives the client relies on: JavaScript's String.prototype.split
    with a one-character separator, its inverse join, trim() over a small
    whitespace set, and the decimal text a template literal gives a number. */
module Text {

  /** The characters trim() removes in this model. */
  predicate IsWhitespace(c: char) {
    c == ' ' || c == '\t' || c == '\r' || c == '\n'
  }

  predicate IsDigit(c: char) {
    '0' <= c <= '9'
  }

  /** Glues pieces back together with `sep` between neighbours; the inverse of Split. */
  function Join(parts: seq<string>, sep: char): string {
    if |parts| == 0 then ""
    else if |parts| == 1 then parts[0]
    else parts[0] + [sep] + Join(parts[1..], sep)
  }

  /** `s.split(sep)`: the maximal separator-free pieces of `s`, in order.
      There is always at least one piece, possibly empty. */
  function Split(s: string, sep: char): (parts: seq<string>)
    ensures |parts| >= 1
    ensures forall i :: 0 <= i < |parts| ==> sep !in parts[i]
    ensures Join(parts, sep) == s
  {
    if s == [] then [""]
    else
      var rest := Split(s[1..], sep);
      if s[0] == sep then
        assert ([""] + rest)[1..] == rest;
        [""] + rest
      else
        var parts := [[s[0]] + rest[0]] + rest[1..];
        assert parts[1..] == rest[1..];
        assert [s[0]] + s[1..] == s;
        parts
  }

  /** A string without the separator splits into itself alone. */
  lemma {:induction false} SplitNoSeparator(s: string, sep: char)
    requires sep !in s
    ensures Split(s, sep) == [s]
  {
    if s != [] {
      SplitNoSeparator(s[1..], sep);
    }
  }

  /** Splitting at the first separator: the head piece is everything before it. */
  lemma {:induction false} SplitAtFirst(a: string, sep: char, b: string)
    requires sep !in a
    ensures Split(a + [sep] + b, sep) == [a] + Split(b, sep)
  {
    var s := a + [sep] + b;
    if a == [] {
      assert s[1..] == b;
    } else {
      assert s[1..] == a[1..] + [sep] + b;
      SplitAtFirst(a[1..], sep, b);
      assert [a[0]] + a[1..] == a;
    }
  }

  /** Split is the inverse of Join on separator-free pieces: the pieces a string
      was built from are exactly the ones it splits into. */
  lemma {:induction false} SplitJoin(parts: seq<string>, sep: char)
    requires |parts| >= 1
    requires forall i :: 0 <= i < |parts| ==> sep !in parts[i]
    ensures Split(Join(parts, sep), sep) == parts
  {
    if |parts| == 1 {
      SplitNoSeparator(parts[0], sep);
    } else {
      SplitJoin(parts[1..], sep);
      SplitAtFirst(parts[0], sep, Join(parts[1..], sep));
      assert [parts[0]] + parts[1..] == parts;
    }
  }

  /** The first piece is a prefix of the joined text. */
  lemma JoinStartsWithFirst(parts: seq<string>, sep: char)
    requires |parts| >= 1
    ensures parts[0] <= Join(parts, sep)
  {
  }

  /** Every character of `s` is whitespace. */
  predicate AllWhitespace(s: string) {
    forall k :: 0 <= k < |s| ==> IsWhitespace(s[k])
  }

  /** `s.trimStart()`: drops the leading whitespace and nothing else. */
  function TrimStart(s: string): (r: string)
    ensures |r| <= |s| && r == s[|s| - |r|..]
    ensures AllWhitespace(s[..|s| - |r|])
    ensures r == [] || !IsWhitespace(r[0])
  {
    if s != [] && IsWhitespace(s[0]) then
      var r := TrimStart(s[1..]);
      assert s[..|s| - |r|] == [s[0]] + s[1..][..|s| - 1 - |r|];
      r
    else s
  }

  /** `s.trimEnd()`: drops the trailing whitespace and nothing else. */
  function TrimEnd(s: string): (r: string)
    ensures |r| <= |s| && r == s[..|r|]
    ensures AllWhitespace(s[|r|..])
    ensures r == [] || !IsWhitespace(r[|r| - 1])
  {
    if s != [] && IsWhitespace(s[|s| - 1]) then
      var r := TrimEnd(s[..|s| - 1]);
      assert s[|r|..] == s[..|s| - 1][|r|..] + [s[|s| - 1]];
      r
    else s
  }

  /** `r` is `s[lo..]` cut short by trailing whitespace, and `s[..lo]` is whitespace. */
  ghost predicate TrimmedAt(s: string, lo: int, r: string) {
    0 <= lo <= |s| - |r| && r == s[lo..lo + |r|] &&
    AllWhitespace(s[..lo]) && AllWhitespace(s[lo + |r|..])
  }

  /** Trimming the end of what trimStart() left gives a slice of the input
      with only whitespace on either side. */
  lemma TrimBothEnds(s: string)
    ensures TrimmedAt(s, |s| - |TrimStart(s)|, TrimEnd(TrimStart(s)))
  {
    var t := TrimStart(s);
    var r := TrimEnd(t);
    var lo := |s| - |t|;
    assert r == s[lo..lo + |r|];
    assert s[lo + |r|..] == t[|r|..];
  }

  /** `s.trim()`: never longer than `s`, and the result neither starts nor
      ends with whitespace. */
  function Trim(s: string): (r: string)
    ensures |r| <= |s|
    ensures r == [] || (!IsWhitespace(r[0]) && !IsWhitespace(r[|r| - 1]))
  {
    TrimEnd(TrimStart(s))
  }

  /** trim() returns a slice of its input and removes only whitespace, on
      either side of that slice. */
  lemma TrimIsSlice(s: string)
    ensures exists lo :: TrimmedAt(s, lo, Trim(s))
  {
    TrimBothEnds(s);
    assert TrimmedAt(s, |s| - |TrimStart(s)|, Trim(s));
  }

  /** Leading whitespace in front of a text that does not start with
      whitespace is exactly what trimStart() removes. */
  lemma {:induction false} TrimStartPadded(front: string, u: string)
    requires AllWhitespace(front)
    requires u == [] || !IsWhitespace(u[0])
    ensures TrimStart(front + u) == u
  {
    if front != [] {
      assert (front + u)[1..] == front[1..] + u;
      assert (front + u)[0] == front[0];
      TrimStartPadded(front[1..], u);
    }
  }

  /** Trailing whitespace after a text that does not end with whitespace is
      exactly what trimEnd() removes. */
  lemma {:induction false} TrimEndPadded(u: string, back: string)
    requires AllWhitespace(back)
    requires u == [] || !IsWhitespace(u[|u| - 1])
    ensures TrimEnd(u + back) == u
  {
    if back != [] {
      assert (u + back)[..|u + back| - 1] == u + back[..|back| - 1];
      assert (u + back)[|u + back| - 1] == back[|back| - 1];
      TrimEndPadded(u, back[..|back| - 1]);
    }
  }

  /** Whatever whitespace surrounds a text with no whitespace at its ends,
      trim() gives back exactly that text. */
  lemma TrimPadded(front: string, t: string, back: string)
    requires AllWhitespace(front) && AllWhitespace(back)
    requires t == [] || (!IsWhitespace(t[0]) && !IsWhitespace(t[|t| - 1]))
    ensures Trim(front + t + back) == t
  {
    var s := front + t + back;
    if t == [] {
      assert s == front + back;
      assert AllWhitespace(s);
      TrimStartPadded(s, []);
      assert s + [] == s;
    } else {
      assert s == front + (t + back);
      TrimStartPadded(front, t + back);
      TrimEndPadded(t, back);
    }
  }

  /** A text without whitespace at its ends, followed by whitespace (a line
      ending, say), trims back to exactly that text. */
  lemma TrimTrailing(t: string, back: string)
    requires AllWhitespace(back)
    requires t == [] || (!IsWhitespace(t[0]) && !IsWhitespace(t[|t| - 1]))
    ensures Trim(t + back) == t
  {
    if t == [] {
      assert t + back == back;
      TrimStartPadded(back, []);
      assert back + [] == back;
    } else {
      assert [] + (t + back) == t + back;
      TrimStartPadded([], t + back);
      TrimEndPadded(t, back);
    }
  }

  /** A text that neither starts nor ends with whitespace is left as it is. */
  lemma TrimUnpadded(t: string)
    requires t == [] || (!IsWhitespace(t[0]) && !IsWhitespace(t[|t| - 1]))
    ensures Trim(t) == t
  {
    TrimTrailing(t, []);
    assert t + [] == t;
  }

  /** Trimming twice is trimming once. */
  lemma TrimIdempotent(s: string)
    ensures Trim(Trim(s)) == Trim(s)
  {
    TrimUnpadded(Trim(s));
  }

  /** The character of one decimal digit. */
  function DigitChar(d: nat): (c: char)
    requires d < 10
    ensures IsDigit(c)
  {
    (d + '0' as int) as char
  }

  /** The value of one decimal digit character. */
  function DigitValue(c: char): (d: nat)
    requires IsDigit(c)
    ensures d < 10 && DigitChar(d) == c
  {
    c as int - '0' as int
  }

  /** The number a run of decimal digits denotes (most significant first). */
  function DecimalValue(s: string): nat
    requires forall k :: 0 <= k < |s| ==> IsDigit(s[k])
  {
    if s == [] then 0
    else DecimalValue(s[..|s| - 1]) * 10 + DigitValue(s[|s| - 1])
  }

  /** The text `${n}` produces for a non-negative integer. */
  function NatToDecimal(n: nat): string {
    if n < 10 then [DigitChar(n)] else NatToDecimal(n / 10) + [DigitChar(n % 10)]
  }

  /** The decimal text of `n` is a non-empty run of digits, has no leading
      zero, and denotes `n`. */
  lemma {:induction false} DecimalRoundTrip(n: nat)
    ensures |NatToDecimal(n)| >= 1
    ensures forall k :: 0 <= k < |NatToDecimal(n)| ==> IsDigit(NatToDecimal(n)[k])
    ensures NatToDecimal(n)[0] == '0' ==> n == 0
    ensures DecimalValue(NatToDecimal(n)) == n
  {
    var s := NatToDecimal(n);
    if n >= 10 {
      DecimalRoundTrip(n / 10);
      assert s[..|s| - 1] == NatToDecimal(n / 10);
    }
  }

  /** Decimal text never contains a space. */
  lemma DecimalHasNoSpace(n: nat)
    ensures ' ' !in NatToDecimal(n)
  {
    var digits := NatToDecimal(n);
    DecimalRoundTrip(n);
    forall k | 0 <= k < |digits| ensures digits[k] != ' ' {
      assert IsDigit(digits[k]);
    }
  }
}
