/**
 * The two pieces of Python's `str` that the system-template hook relies on:
 * `str.isspace` on one character and `str.strip()` with no argument.
 */
module PyText {

  /** Python 3's whitespace code points: exactly those for which `c.isspace()` holds. */
  predicate IsSpace(c: char) {
    var n := c as int;
    (0x09 <= n <= 0x0D) || (0x1C <= n <= 0x20) || n == 0x85 || n == 0xA0 ||
    n == 0x1680 || (0x2000 <= n <= 0x200A) || n == 0x2028 || n == 0x2029 ||
    n == 0x202F || n == 0x205F || n == 0x3000
  }

  /** Every character of `s` is whitespace (vacuously true of ""). */
  predicate AllSpace(s: string) {
    forall i :: 0 <= i < |s| ==> IsSpace(s[i])
  }

  /** `s` with its leading whitespace removed: a suffix of `s` preceded only by whitespace. */
  function TrimStart(s: string): (r: string)
    ensures |r| <= |s| && r == s[|s| - |r|..]
    ensures AllSpace(s[..|s| - |r|])
    ensures r != [] ==> !IsSpace(r[0])
  {
    if s != [] && IsSpace(s[0]) then TrimStart(s[1..]) else s
  }

  /** `s` with its trailing whitespace removed: a prefix of `s` followed only by whitespace. */
  function TrimEnd(s: string): (r: string)
    ensures |r| <= |s| && r == s[..|r|]
    ensures AllSpace(s[|r|..])
    ensures r != [] ==> !IsSpace(r[|r| - 1])
  {
    if s != [] && IsSpace(s[|s| - 1]) then TrimEnd(s[..|s| - 1]) else s
  }

  /**
   * Python's `s.strip()`: what is left of `s` once its leading whitespace
   * (`TrimStart`) and then its trailing whitespace are cut off; it neither starts
   * nor ends with whitespace, and is empty exactly when `s` holds only whitespace.
   */
  function Strip(s: string): (r: string)
    ensures r == [] <==> AllSpace(s)
    ensures r != [] ==> !IsSpace(r[0]) && !IsSpace(r[|r| - 1])
    ensures |r| <= |TrimStart(s)| && r == TrimStart(s)[..|r|]
    ensures AllSpace(TrimStart(s)[|r|..])
  {
    StripEnds(s);
    StripBlank(s);
    TrimEnd(TrimStart(s))
  }

  /** A non-empty trimmed string starts and ends with non-whitespace. */
  lemma StripEnds(s: string)
    ensures var r := TrimEnd(TrimStart(s)); r != [] ==> !IsSpace(r[0]) && !IsSpace(r[|r| - 1])
  {
  }

  /** Trimming both ends gives "" exactly for an all-whitespace string. */
  lemma StripBlank(s: string)
    ensures TrimEnd(TrimStart(s)) == [] <==> AllSpace(s)
  {
    var t := TrimStart(s);
    var u := TrimEnd(t);
    var i := |s| - |t|;
    if u == [] {
      assert t[|u|..] == t;
      BlankParts(s, i);
    } else {
      assert u[0] == t[0] == s[i];
      assert !AllSpace(s);
    }
  }

  /** A string made of a blank prefix and a blank suffix is blank. */
  lemma BlankParts(s: string, i: nat)
    requires i <= |s| && AllSpace(s[..i]) && AllSpace(s[i..])
    ensures AllSpace(s)
  {
    forall k | 0 <= k < |s| ensures IsSpace(s[k]) {
      if k < i { assert s[k] == s[..i][k]; } else { assert s[k] == s[i..][k - i]; }
    }
  }

  /** Stripping a stripped string changes nothing. */
  lemma StripIdempotent(s: string)
    ensures Strip(Strip(s)) == Strip(s)
  {
  }

  /** A non-empty string that neither starts nor ends with whitespace: the shape of a strip. */
  predicate IsStripped(s: string) {
    s != [] && !IsSpace(s[0]) && !IsSpace(s[|s| - 1])
  }

  /** Whitespace padding around a stripped-shaped string is exactly what `Strip` removes. */
  lemma StripPadded(lead: string, t: string, trail: string)
    requires AllSpace(lead) && AllSpace(trail) && IsStripped(t)
    ensures Strip(lead + t + trail) == t
  {
    var s := lead + t + trail;
    assert s == lead + (t + trail);
    TrimStartPadded(lead, t + trail);
    TrimEndPadded(t, trail);
    assert TrimEnd(TrimStart(s)) == t;
  }

  /** `TrimStart` removes a whitespace prefix in front of a non-whitespace character. */
  lemma {:induction false} TrimStartPadded(lead: string, rest: string)
    requires AllSpace(lead) && rest != [] && !IsSpace(rest[0])
    ensures TrimStart(lead + rest) == rest
    decreases |lead|
  {
    if lead == [] {
      assert lead + rest == rest;
    } else {
      assert (lead + rest)[1..] == lead[1..] + rest;
      TrimStartPadded(lead[1..], rest);
    }
  }

  /** `TrimEnd` removes a whitespace suffix after a non-whitespace character. */
  lemma {:induction false} TrimEndPadded(rest: string, trail: string)
    requires AllSpace(trail) && rest != [] && !IsSpace(rest[|rest| - 1])
    ensures TrimEnd(rest + trail) == rest
    decreases |trail|
  {
    if trail == [] {
      assert rest + trail == rest;
    } else {
      var n := |rest + trail|;
      assert (rest + trail)[..n - 1] == rest + trail[..|trail| - 1];
      TrimEndPadded(rest, trail[..|trail| - 1]);
    }
  }

  /** Exactly the stripped-shaped strings are their own non-empty strip. */
  lemma StrippedIffFixed(s: string)
    ensures IsStripped(s) <==> s != [] && Strip(s) == s
  {
  }
}
