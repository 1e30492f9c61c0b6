/** String helpers the plugin relies on from Python's `str`: `strip()` with no
    argument, `", ".join(...)`, and the decimal rendering of an integer inside
    an f-string. Strings are `seq<char>`. */
module Text {

  /** The characters `str.strip()` removes that lie in the ASCII range:
      tab, line feed, vertical tab, form feed, carriage return (9..13),
      the four separators 28..31, and the space (32). */
  predicate IsWhitespace(c: char) {
    (9 <= c as int <= 13) || (28 <= c as int <= 32)
  }

  /** Every character of `s` is whitespace (vacuously true of ""). */
  predicate AllWhitespace(s: string) {
    forall i :: 0 <= i < |s| ==> IsWhitespace(s[i])
  }

  /** `s` neither starts nor ends with whitespace. */
  predicate IsTrimmed(s: string) {
    |s| > 0 ==> !IsWhitespace(s[0]) && !IsWhitespace(s[|s| - 1])
  }

  /** How many whitespace characters `s` starts with. */
  function LeadingWhitespace(s: string): (n: nat)
    ensures n <= |s|
  {
    if |s| > 0 && IsWhitespace(s[0]) then 1 + LeadingWhitespace(s[1..]) else 0
  }

  /** How many whitespace characters `s` ends with. */
  function TrailingWhitespace(s: string): (n: nat)
    ensures n <= |s|
  {
    if |s| > 0 && IsWhitespace(s[|s| - 1]) then 1 + TrailingWhitespace(s[..|s| - 1]) else 0
  }

  /** The leading run is whitespace and is maximal. */
  lemma {:induction false} LeadingWhitespaceRun(s: string)
    ensures AllWhitespace(s[..LeadingWhitespace(s)])
    ensures LeadingWhitespace(s) < |s| ==> !IsWhitespace(s[LeadingWhitespace(s)])
    decreases |s|
  {
    if |s| > 0 && IsWhitespace(s[0]) {
      LeadingWhitespaceRun(s[1..]);
      var n := LeadingWhitespace(s);
      assert s[..n] == [s[0]] + s[1..][..n - 1];
    }
  }

  /** The trailing run is whitespace and is maximal. */
  lemma {:induction false} TrailingWhitespaceRun(s: string)
    ensures AllWhitespace(s[|s| - TrailingWhitespace(s)..])
    ensures TrailingWhitespace(s) < |s| ==> !IsWhitespace(s[|s| - TrailingWhitespace(s) - 1])
    decreases |s|
  {
    if |s| > 0 && IsWhitespace(s[|s| - 1]) {
      var init := s[..|s| - 1];
      TrailingWhitespaceRun(init);
      var m := TrailingWhitespace(init);
      forall i | |s| - (m + 1) <= i < |s|
        ensures IsWhitespace(s[i])
      {
        if i < |s| - 1 {
          assert s[i] == init[|init| - m..][i - (|init| - m)];
        }
      }
      assert m + 1 < |s| ==> s[|s| - (m + 1) - 1] == init[|init| - m - 1];
    }
  }

  /** Python's `s.strip()`: the slice of `s` left once the whitespace on
      both ends is removed. */
  function Strip(s: string): (r: string)
    ensures IsTrimmed(r)
    ensures |r| <= |s|
  {
    var t := s[LeadingWhitespace(s)..];
    var r := t[..|t| - TrailingWhitespace(t)];
    assert IsTrimmed(r) by {
      LeadingWhitespaceRun(s);
      TrailingWhitespaceRun(t);
      assert |r| > 0 ==> r[0] == t[0];
    }
    r
  }

  /** What `Strip` removes is whitespace only: the result is a slice of `s`
      with nothing but whitespace on either side of it. */
  lemma StripIsSlice(s: string)
    ensures exists i, j :: 0 <= i <= j <= |s| && Strip(s) == s[i..j]
                           && AllWhitespace(s[..i]) && AllWhitespace(s[j..])
  {
    var i := LeadingWhitespace(s);
    var t := s[i..];
    var j := i + |t| - TrailingWhitespace(t);
    LeadingWhitespaceRun(s);
    TrailingWhitespaceRun(t);
    assert Strip(s) == s[i..j];
    assert s[j..] == t[|t| - TrailingWhitespace(t)..];
  }

  lemma {:induction false} LeadingOfPrefixed(pre: string, rest: string)
    requires AllWhitespace(pre)
    requires |rest| > 0 ==> !IsWhitespace(rest[0])
    ensures LeadingWhitespace(pre + rest) == |pre|
    decreases |pre|
  {
    if |pre| > 0 {
      assert (pre + rest)[1..] == pre[1..] + rest;
      LeadingOfPrefixed(pre[1..], rest);
    } else {
      assert pre + rest == rest;
    }
  }

  lemma {:induction false} TrailingOfSuffixed(rest: string, suf: string)
    requires AllWhitespace(suf)
    requires |rest| > 0 ==> !IsWhitespace(rest[|rest| - 1])
    ensures TrailingWhitespace(rest + suf) == |suf|
    decreases |suf|
  {
    if |suf| > 0 {
      assert (rest + suf)[..|rest + suf| - 1] == rest + suf[..|suf| - 1];
      TrailingOfSuffixed(rest, suf[..|suf| - 1]);
    } else {
      assert rest + suf == rest;
    }
  }

  /** The converse of `Strip`'s contract: whatever trimmed core is wrapped in
      whitespace, `Strip` gives that core back, so the core is unique. */
  lemma StripUnique(pre: string, r: string, suf: string)
    requires AllWhitespace(pre) && AllWhitespace(suf)
    requires IsTrimmed(r)
    ensures Strip(pre + r + suf) == r
  {
    var s := pre + r + suf;
    if |r| == 0 {
      assert s == (pre + suf) + "";
      LeadingOfPrefixed(pre + suf, "");
    } else {
      assert s == pre + (r + suf);
      assert (r + suf)[0] == r[0];
      LeadingOfPrefixed(pre, r + suf);
      assert s[|pre|..] == r + suf;
      TrailingOfSuffixed(r, suf);
    }
  }

  /** Stripping twice is stripping once. */
  lemma StripIdempotent(s: string)
    ensures Strip(Strip(s)) == Strip(s)
  {
  }

  /** A line strips to "" exactly when it is made of whitespace only. */
  lemma StripEmptyIff(s: string)
    ensures |Strip(s)| == 0 <==> AllWhitespace(s)
  {
    if AllWhitespace(s) {
      assert s + "" + "" == s;
      StripUnique(s, "", "");
    } else {
      var k :| 0 <= k < |s| && !IsWhitespace(s[k]);
      StripIsSlice(s);
      var i, j :| 0 <= i <= j <= |s| && Strip(s) == s[i..j]
                  && AllWhitespace(s[..i]) && AllWhitespace(s[j..]);
    }
  }

  /** Python's `sep.join(xs)`. */
  function Join(xs: seq<string>, sep: string): (r: string)
    ensures |xs| == 0 ==> r == ""
    ensures |xs| == 1 ==> r == xs[0]
  {
    if |xs| == 0 then ""
    else if |xs| == 1 then xs[0]
    else xs[0] + sep + Join(xs[1..], sep)
  }

  /** Joining a concatenation puts one separator between the two joins. */
  lemma {:induction false} JoinAppend(xs: seq<string>, ys: seq<string>, sep: string)
    requires |xs| > 0 && |ys| > 0
    ensures Join(xs + ys, sep) == Join(xs, sep) + sep + Join(ys, sep)
    decreases |xs|
  {
    if |xs| == 1 {
      assert (xs + ys)[1..] == ys;
    } else {
      assert (xs + ys)[1..] == xs[1..] + ys;
      JoinAppend(xs[1..], ys, sep);
    }
  }

  /** The length of a join: every element, plus one separator between each
      neighbouring pair. */
  lemma {:induction false} JoinLength(xs: seq<string>, sep: string)
    requires |xs| > 0
    ensures |Join(xs, sep)| == TotalLength(xs) + (|xs| - 1) * |sep|
  {
    if |xs| > 1 {
      JoinLength(xs[1..], sep);
    }
  }

  function TotalLength(xs: seq<string>): nat {
    if |xs| == 0 then 0 else |xs[0]| + TotalLength(xs[1..])
  }

  predicate IsDigit(c: char) {
    '0' <= c <= '9'
  }

  function DigitChar(d: nat): (c: char)
    requires d < 10
    ensures IsDigit(c) && c as int - '0' as int == d
  {
    ['0', '1', '2', '3', '4', '5', '6', '7', '8', '9'][d]
  }

  /** The decimal rendering of a non-negative integer, as `f"{n}"` prints it:
      digits only, and no leading zero unless the number is zero. */
  function NatToString(n: nat): (s: string)
    ensures |s| > 0
    ensures forall i :: 0 <= i < |s| ==> IsDigit(s[i])
    ensures s[0] == '0' ==> n == 0 && s == "0"
  {
    if n < 10 then [DigitChar(n)]
    else NatToString(n / 10) + [DigitChar(n % 10)]
  }

  /** Reads a string of decimal digits back as a number. */
  function ParseDigits(s: string): nat
    requires forall i :: 0 <= i < |s| ==> IsDigit(s[i])
  {
    if |s| == 0 then 0
    else
      assert IsDigit(s[|s| - 1]);
      ParseDigits(s[..|s| - 1]) * 10 + (s[|s| - 1] as int - '0' as int)
  }

  /** Reading back the rendering recovers the number, so distinct counts
      always print differently. */
  lemma {:induction false} NatToStringRoundTrip(n: nat)
    ensures ParseDigits(NatToString(n)) == n
  {
    var s := NatToString(n);
    if n >= 10 {
      NatToStringRoundTrip(n / 10);
      assert s[..|s| - 1] == NatToString(n / 10);
    }
  }
}
