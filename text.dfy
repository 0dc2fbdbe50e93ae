/** The pieces of java.lang.String that the API client relies
    on: trim, equalsIgnoreCase, replace, decimal rendering of an int and the
    rendering of a null reference inside a string concatenation. */
module Text {
  import opened Wrappers

  /** String.trim() removes every leading and trailing char whose code is at
      most U+0020 (space and the control characters). */
  predicate IsTrimmed(c: char) {
    c <= ' '
  }

  /** Every char of `s` is one that trim() removes. */
  predicate IsBlank(s: string) {
    forall i :: 0 <= i < |s| ==> IsTrimmed(s[i])
  }

  function TrimStart(s: string): (r: string)
    ensures |r| <= |s| && r == s[|s| - |r|..]
    ensures IsBlank(s[..|s| - |r|])
    ensures r == [] || !IsTrimmed(r[0])
  {
    if s != [] && IsTrimmed(s[0]) then
      var r := TrimStart(s[1..]);
      assert s[1..][..|s| - 1 - |r|] == s[1..|s| - |r|];
      r
    else
      s
  }

  function TrimEnd(s: string): (r: string)
    ensures |r| <= |s| && r == s[..|r|]
    ensures IsBlank(s[|r|..])
    ensures r == [] || !IsTrimmed(r[|r| - 1])
  {
    if s != [] && IsTrimmed(s[|s| - 1]) then
      var r := TrimEnd(s[..|s| - 1]);
      assert s[..|s| - 1][|r|..] + [s[|s| - 1]] == s[|r|..];
      r
    else
      s
  }

  /** String.trim(): the longest infix of `s` that neither starts nor ends
      with a trimmed char; everything cut off is blank. */
  function Trim(s: string): (r: string)
    ensures |r| <= |s|
    ensures r == [] || (!IsTrimmed(r[0]) && !IsTrimmed(r[|r| - 1]))
    ensures r == [] <==> IsBlank(s)
  {
    var t := TrimStart(s);
    var r := TrimEnd(t);
    if r == [] then TrimmedAway(s, t); r
    else assert r[0] == t[0]; r
  }

  /** When trim() leaves nothing, every char of the input was trimmed. */
  lemma TrimmedAway(s: string, t: string)
    requires t == TrimStart(s) && TrimEnd(t) == []
    ensures IsBlank(s)
  {
    var k := |s| - |t|;
    assert IsBlank(s[..k]);
    assert IsBlank(t[0..]);
    forall i | 0 <= i < |s| ensures IsTrimmed(s[i]) {
      if i < k {
        assert s[i] == s[..k][i];
      } else {
        assert s[i] == t[0..][i - k];
      }
    }
  }

  /** ASCII case folding: the part of Character.toLowerCase that matters for
      comparing MIME types. */
  function ToLowerAscii(c: char): (r: char)
    ensures 'A' <= c <= 'Z' ==> r as int == c as int + 32
    ensures !('A' <= c <= 'Z') ==> r == c
  {
    if 'A' <= c <= 'Z' then (c as int + 32) as char else c
  }

  /** String.equalsIgnoreCase, for strings whose letters are ASCII: same
      length, and the chars agree once folded to lower case. */
  predicate EqualsIgnoreCase(a: string, b: string) {
    |a| == |b| && forall i :: 0 <= i < |a| ==> ToLowerAscii(a[i]) == ToLowerAscii(b[i])
  }

  /** `p` occurs in `s` as a contiguous factor. */
  predicate Contains(s: string, p: string)
    decreases |s|
  {
    |p| <= |s| && (s[..|p|] == p || Contains(s[1..], p))
  }

  /** String.replace(target, replacement): scans left to right and replaces
      every non-overlapping occurrence of `p`; the source only ever calls it
      with a non-empty target. */
  function ReplaceAll(s: string, p: string, r: string): string
    requires |p| > 0
    decreases |s|
  {
    if |s| < |p| then s
    else if s[..|p|] == p then r + ReplaceAll(s[|p|..], p, r)
    else [s[0]] + ReplaceAll(s[1..], p, r)
  }

  /** A string in which the target never occurs comes back unchanged. */
  lemma {:induction false} ReplaceAllAbsent(s: string, p: string, r: string)
    requires |p| > 0 && !Contains(s, p)
    ensures ReplaceAll(s, p, r) == s
    decreases |s|
  {
    if |s| >= |p| {
      ReplaceAllAbsent(s[1..], p, r);
      assert [s[0]] + s[1..] == s;
    }
  }

  /** Replacing a target by itself is the identity. */
  lemma {:induction false} ReplaceAllSelf(s: string, p: string)
    requires |p| > 0
    ensures ReplaceAll(s, p, p) == s
    decreases |s|
  {
    if |s| >= |p| {
      if s[..|p|] == p {
        ReplaceAllSelf(s[|p|..], p);
        assert p + s[|p|..] == s;
      } else {
        ReplaceAllSelf(s[1..], p);
        assert [s[0]] + s[1..] == s;
      }
    }
  }

  function DigitChar(d: nat): (c: char)
    requires d < 10
    ensures '0' <= c <= '9' && c as int - '0' as int == d
  {
    ('0' as int + d) as char
  }

  /** Integer.toString for a non-negative value: decimal, no leading zero. */
  function NatToString(n: nat): (s: string)
    ensures |s| > 0 && forall i :: 0 <= i < |s| ==> '0' <= s[i] <= '9'
    ensures |s| > 1 ==> s[0] != '0'
    decreases n
  {
    if n < 10 then [DigitChar(n)] else NatToString(n / 10) + [DigitChar(n % 10)]
  }

  /** Integer.toString, and so also the int operand of a string
      concatenation and, in a locale with ASCII digits, String.format's %d. */
  function IntToString(i: int): string {
    if i < 0 then "-" + NatToString(-i) else NatToString(i)
  }

  /** Reads back a run of decimal digits. */
  function ParseNat(s: string): nat
    requires forall i :: 0 <= i < |s| ==> '0' <= s[i] <= '9'
  {
    if s == [] then 0 else ParseNat(s[..|s| - 1]) * 10 + (s[|s| - 1] as int - '0' as int)
  }

  /** Reads back the output of IntToString. */
  function ParseInt(s: string): Option<int> {
    if s == [] then None
    else if s[0] == '-' && |s| > 1 && forall i :: 1 <= i < |s| ==> '0' <= s[i] <= '9' then
      var n: int := ParseNat(s[1..]);
      Some(-n)
    else if forall i :: 0 <= i < |s| ==> '0' <= s[i] <= '9' then
      Some(ParseNat(s))
    else None
  }

  lemma {:induction false} NatToStringRoundTrip(n: nat)
    ensures ParseNat(NatToString(n)) == n
    decreases n
  {
    if n >= 10 {
      NatToStringRoundTrip(n / 10);
      var s := NatToString(n);
      assert s[..|s| - 1] == NatToString(n / 10);
    }
  }

  /** Decimal rendering loses nothing: the status code in a message can be
      read back exactly. */
  lemma IntToStringRoundTrip(i: int)
    ensures ParseInt(IntToString(i)) == Some(i)
  {
    if i < 0 {
      NegativeRoundTrip(-i);
      assert IntToString(i) == "-" + NatToString(-i);
    } else {
      NonNegativeRoundTrip(i);
      assert IntToString(i) == NatToString(i);
    }
  }

  /** The digits of `n` read back as n. */
  lemma NonNegativeRoundTrip(n: nat)
    ensures ParseInt(NatToString(n)) == Some(n)
  {
    var d := NatToString(n);
    NatToStringRoundTrip(n);
    assert d[0] != '-';
  }

  /** A minus sign followed by the digits of `n` reads back as -n. */
  lemma NegativeRoundTrip(n: nat)
    requires n > 0
    ensures ParseInt("-" + NatToString(n)) == Some(-(n as int))
  {
    var d := NatToString(n);
    NatToStringRoundTrip(n);
    var s := "-" + d;
    assert s[0] == '-' && s[1..] == d;
    forall j | 1 <= j < |s| ensures '0' <= s[j] <= '9' {
      assert s[j] == d[j - 1];
    }
  }

  /** Java's rendering of a possibly-null String inside a concatenation. */
  function NullableText(s: Option<string>): string {
    s.GetOr("null")
  }
}
