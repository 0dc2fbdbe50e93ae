/** Base-URL resolution: resolveBaseUrl picks the @ApiClient baseUrl or the
    `flexi.api.baseUrl` property, and resolvePlaceholders rewrites every
    `${key}` in it (regular expression `\$\{(.+?)\}`, found left to right)
    to the property's value, or to "" when the property is absent. The
    property store is passed in as a map. */
module Placeholders {
  import opened Wrappers

  /** The chars the regular-expression dot does not match: \n, \r, U+0085,
      U+2028 and U+2029. */
  predicate IsLineTerminator(c: char) {
    c == '\n' || c == '\r' || c == '\U{0085}' || c == '\U{2028}' || c == '\U{2029}'
  }

  /** The group `(.+?)` that starts at index `g` can end at `j`, with the
      closing brace at `j`: at least one char, none a line terminator. */
  predicate ClosesAt(s: string, g: nat, j: nat) {
    g < j < |s| && s[j] == '}' && forall t :: g <= t < j ==> !IsLineTerminator(s[t])
  }

  /** The reluctant scan for the closing brace: tries the candidate ends
      `k`, `k`+1, ... in turn and stops at a line terminator. */
  function CloseScan(s: string, g: nat, k: nat): (r: Option<nat>)
    requires g < k <= |s|
    requires forall t :: g <= t < k - 1 ==> !IsLineTerminator(s[t])
    ensures r.Some? ==> ClosesAt(s, g, r.value) && k <= r.value
    decreases |s| - k
  {
    if k == |s| then None
    else if IsLineTerminator(s[k - 1]) then None
    else if s[k] == '}' then Some(k)
    else CloseScan(s, g, k + 1)
  }

  /** The scan passes over no candidate end, and gives up only when there
      is none. */
  lemma {:induction false} CloseScanIsShortest(s: string, g: nat, k: nat)
    requires g < k <= |s|
    requires forall t :: g <= t < k - 1 ==> !IsLineTerminator(s[t])
    requires forall j :: g < j < k ==> !ClosesAt(s, g, j)
    ensures CloseScan(s, g, k).Some? ==> forall j :: g < j < CloseScan(s, g, k).value ==> !ClosesAt(s, g, j)
    ensures CloseScan(s, g, k).None? ==> forall j :: !ClosesAt(s, g, j)
    decreases |s| - k
  {
    if k < |s| && !IsLineTerminator(s[k - 1]) && s[k] != '}' {
      CloseScanIsShortest(s, g, k + 1);
    } else if k < |s| && IsLineTerminator(s[k - 1]) {
      forall j: nat ensures !ClosesAt(s, g, j) {
        if g < j < |s| && j >= k {
          assert IsLineTerminator(s[k - 1]);
        }
      }
    }
  }

  /** The shortest group starting at `g`, as the index of its closing brace. */
  function Close(s: string, g: nat): (r: Option<nat>)
    ensures r.Some? ==> ClosesAt(s, g, r.value)
  {
    if g < |s| then CloseScan(s, g, g + 1) else None
  }

  /** The group is reluctant: Close finds the FIRST brace that can end it,
      and finds none exactly when no brace can. */
  lemma CloseIsShortest(s: string, g: nat)
    ensures Close(s, g).Some? ==> forall j :: g < j < Close(s, g).value ==> !ClosesAt(s, g, j)
    ensures Close(s, g).None? <==> forall j :: !ClosesAt(s, g, j)
  {
    if g < |s| {
      CloseScanIsShortest(s, g, g + 1);
    }
  }

  /** A match of the pattern at the very start of `s`: the index of its
      closing brace; the key is s[2..] up to that index. */
  function MatchPrefix(s: string): (r: Option<nat>)
    ensures r.Some? ==> 2 < r.value < |s| && s[..2] == "${" && s[r.value] == '}'
  {
    if |s| >= 2 && s[0] == '$' && s[1] == '{' then Close(s, 2) else None
  }

  /** PropertiesLoader.getProperty(key, ""). */
  function Property(props: map<string, string>, key: string): string {
    if key in props then props[key] else ""
  }

  /** The rewrite resolvePlaceholders performs: scanning left to right, a
      match becomes its property value and the scan resumes after it; any
      other char is copied. */
  function Resolve(s: string, props: map<string, string>): string
    decreases |s|
  {
    if s == [] then ""
    else match MatchPrefix(s)
      case Some(j) => Property(props, s[2..j]) + Resolve(s[j + 1..], props)
      case None => [s[0]] + Resolve(s[1..], props)
  }

  /** The loop invariant of resolvePlaceholders survives appendReplacement:
      `sb2` is the buffer after it and `next` the position after the match. */
  lemma AppendReplacementStep(input: string, sb: string, appendPos: nat, pos: nat, j: nat,
                              sb2: string, next: nat, props: map<string, string>)
    requires appendPos <= pos < |input| && MatchPrefix(input[pos..]) == Some(j)
    requires sb + input[appendPos..pos] + Resolve(input[pos..], props) == Resolve(input, props)
    requires next == pos + j + 1
    requires pos + 2 <= pos + j <= |input| && sb2 == sb + input[appendPos..pos] + Property(props, input[pos + 2..pos + j])
    ensures next <= |input|
    ensures sb2 + input[next..next] + Resolve(input[next..], props) == Resolve(input, props)
  {
    SuffixSlices(input, pos, j);
    UnfoldMatch(input[pos..], j, props);
    Chain(sb, input[appendPos..pos], Property(props, input[pos + 2..pos + j]), Resolve(input[next..], props),
          Resolve(input[pos..], props), Resolve(input, props));
    assert input[next..next] == [];
  }

  /** Slices of the suffix that starts at `pos`, as slices of `s`. */
  lemma SuffixSlices(s: string, pos: nat, j: nat)
    requires 2 <= j && pos + j < |s|
    ensures s[pos..][2..j] == s[pos + 2..pos + j]
    ensures s[pos..][j + 1..] == s[pos + j + 1..]
  {
  }

  /** The buffer absorbs the copied text and the value: what is left to
      resolve shrinks to `t`. */
  lemma Chain(sb: string, x: string, v: string, t: string, rest: string, total: string)
    requires sb + x + rest == total && rest == v + t
    ensures (sb + x + v) + [] + t == total
  {
    assert sb + x + (v + t) == (sb + x + v) + [] + t;
  }

  /** One step of Resolve where a match starts. */
  lemma UnfoldMatch(s: string, j: nat, props: map<string, string>)
    requires MatchPrefix(s) == Some(j)
    ensures Resolve(s, props) == Property(props, s[2..j]) + Resolve(s[j + 1..], props)
  {
  }

  /** The loop invariant of resolvePlaceholders survives a position where
      nothing matches. */
  lemma NoMatchStep(input: string, sb: string, appendPos: nat, pos: nat, props: map<string, string>)
    requires appendPos <= pos < |input| && MatchPrefix(input[pos..]).None?
    requires sb + input[appendPos..pos] + Resolve(input[pos..], props) == Resolve(input, props)
    ensures sb + input[appendPos..pos + 1] + Resolve(input[pos + 1..], props) == Resolve(input, props)
  {
    var x := input[appendPos..pos];
    var t := Resolve(input[pos + 1..], props);
    CopyStep(input, appendPos, pos);
    UnfoldCopy(input[pos..], props);
    assert Resolve(input[pos..], props) == [input[pos]] + t;
    CopyRegroup(sb, x, input[pos], t);
  }

  /** The char at `pos` joins the copied stretch. */
  lemma CopyStep(s: string, appendPos: nat, pos: nat)
    requires appendPos <= pos < |s|
    ensures s[pos..][1..] == s[pos + 1..] && s[pos..][0] == s[pos]
    ensures s[appendPos..pos] + [s[pos]] == s[appendPos..pos + 1]
  {
  }

  lemma CopyRegroup(a: string, b: string, c: char, d: string)
    ensures a + b + ([c] + d) == a + (b + [c]) + d
  {
  }

  /** resolvePlaceholders: Matcher.find moves `pos` forward to the next
      match; appendReplacement copies the text since the previous match and
      then the value; appendTail copies what is left. */
  method ResolvePlaceholders(input: string, props: map<string, string>) returns (out: string)
    ensures out == Resolve(input, props)
  {
    var sb := "";
    var appendPos := 0;
    var pos := 0;
    while pos < |input|
      invariant 0 <= appendPos <= pos <= |input|
      invariant sb + input[appendPos..pos] + Resolve(input[pos..], props) == Resolve(input, props)
      decreases |input| - pos
    {
      var m := MatchPrefix(input[pos..]);
      if m.Some? {
        var j := m.value;
        var sb2 := sb + input[appendPos..pos] + Property(props, input[pos + 2..pos + j]);
        var next := pos + j + 1;
        AppendReplacementStep(input, sb, appendPos, pos, j, sb2, next, props);
        sb, pos, appendPos := sb2, next, next;
      } else {
        NoMatchStep(input, sb, appendPos, pos, props);
        pos := pos + 1;
      }
    }
    assert pos == |input| && input[pos..] == [] && Resolve([], props) == [];
    assert input[appendPos..pos] == input[appendPos..];
    sb := sb + input[appendPos..];
    out := sb;
  }

  /** One step of Resolve where no match starts. */
  lemma UnfoldCopy(s: string, props: map<string, string>)
    requires s != [] && MatchPrefix(s).None?
    ensures Resolve(s, props) == [s[0]] + Resolve(s[1..], props)
  {
  }

  /** `s` holds no "${". */
  predicate NoOpening(s: string) {
    forall i :: 0 <= i < |s| - 1 ==> !(s[i] == '$' && s[i + 1] == '{')
  }

  /** Text without "${" is copied unchanged. */
  lemma {:induction false} ResolveKeepsPlainText(s: string, props: map<string, string>)
    requires NoOpening(s)
    ensures Resolve(s, props) == s
    decreases |s|
  {
    if s != [] {
      assert MatchPrefix(s).None?;
      ResolveKeepsPlainText(s[1..], props);
      assert [s[0]] + s[1..] == s;
    }
  }

  /** An unterminated "${" is copied unchanged: without a '}' nothing
      matches. */
  lemma {:induction false} ResolveKeepsUnclosed(s: string, props: map<string, string>)
    requires forall i :: 0 <= i < |s| ==> s[i] != '}'
    ensures Resolve(s, props) == s
    decreases |s|
  {
    if s != [] {
      assert MatchPrefix(s).None?;
      ResolveKeepsUnclosed(s[1..], props);
      assert [s[0]] + s[1..] == s;
    }
  }

  /** The placeholder at the head of a string: a non-empty key with no '}'
      and no line terminator is matched whole and replaced by its value. */
  lemma ResolvePlaceholderHead(key: string, rest: string, props: map<string, string>)
    requires key != []
    requires forall i :: 0 <= i < |key| ==> key[i] != '}' && !IsLineTerminator(key[i])
    ensures Resolve("${" + key + "}" + rest, props) == Property(props, key) + Resolve(rest, props)
  {
    var s := "${" + key + "}" + rest;
    var j := |key| + 2;
    assert s[j] == '}';
    assert forall t :: 2 <= t < j ==> s[t] == key[t - 2];
    assert ClosesAt(s, 2, j);
    assert forall i :: 2 < i < j ==> !ClosesAt(s, 2, i);
    CloseIsShortest(s, 2);
    assert MatchPrefix(s) == Some(j);
    assert s[2..j] == key;
    assert s[j + 1..] == rest;
  }

  /** Substitution in context: text before the first "${" is kept, the
      placeholder becomes its property value (or "" when the property is
      missing), and resolution carries on after it. */
  lemma ResolveSubstitutes(before: string, key: string, after: string, props: map<string, string>)
    requires NoOpening(before)
    requires key != []
    requires forall i :: 0 <= i < |key| ==> key[i] != '}' && !IsLineTerminator(key[i])
    ensures Resolve(before + "${" + key + "}" + after, props) == before + Property(props, key) + Resolve(after, props)
    ensures key !in props ==> Resolve(before + "${" + key + "}" + after, props) == before + Resolve(after, props)
  {
    var tail := "${" + key + "}" + after;
    var v := Property(props, key);
    var r := Resolve(after, props);
    JoinAround(before, key, after, v, r);
    ResolveCopiesPlainPrefix(before, tail, props);
    ResolvePlaceholderHead(key, after, props);
  }

  /** The regrouping ResolveSubstitutes needs. */
  lemma JoinAround(before: string, key: string, after: string, v: string, r: string)
    ensures before + "${" + key + "}" + after == before + ("${" + key + "}" + after)
    ensures before + (v + r) == before + v + r
    ensures v == "" ==> before + v + r == before + r
  {
  }

  /** Text without "${" in front of a '$' is copied, and resolution carries
      on where it ends. */
  lemma {:induction false} ResolveCopiesPlainPrefix(before: string, tail: string, props: map<string, string>)
    requires NoOpening(before)
    requires tail != [] && tail[0] == '$'
    ensures Resolve(before + tail, props) == before + Resolve(tail, props)
    decreases |before|
  {
    if before == [] {
      assert before + tail == tail;
    } else {
      var s := before + tail;
      var r := Resolve(tail, props);
      NoMatchBeforeOpening(before, tail);
      UnfoldCopy(s, props);
      assert s[1..] == before[1..] + tail;
      NoOpeningSuffix(before);
      ResolveCopiesPlainPrefix(before[1..], tail, props);
      assert Resolve(s[1..], props) == before[1..] + r;
      calc {
        Resolve(s, props);
        [s[0]] + Resolve(s[1..], props);
        [before[0]] + (before[1..] + r);
        ([before[0]] + before[1..]) + r;
        { assert [before[0]] + before[1..] == before; }
        before + r;
      }
    }
  }

  /** No match starts inside text without "${" when what follows it
      starts with '$'. */
  lemma NoMatchBeforeOpening(before: string, tail: string)
    requires before != [] && NoOpening(before)
    requires tail != [] && tail[0] == '$'
    ensures MatchPrefix(before + tail).None?
  {
    var s := before + tail;
    assert s[0] == before[0];
    assert s[1] == if |before| >= 2 then before[1] else '$';
  }

  lemma NoOpeningSuffix(s: string)
    requires s != [] && NoOpening(s)
    ensures NoOpening(s[1..])
  {
    forall i | 0 <= i < |s[1..]| - 1 ensures !(s[1..][i] == '$' && s[1..][i + 1] == '{') {
      assert s[1..][i] == s[i + 1] && s[1..][i + 1] == s[i + 2];
    }
  }

  /** The reluctant group stops at the first '}': in "${a}b}" the key is "a"
      and the trailing "b}" is kept. */
  lemma ShortestMatchWins(props: map<string, string>)
    ensures Resolve("${a}b}", props) == Property(props, "a") + "b}"
  {
    assert "${a}b}" == "${" + "a" + "}" + "b}";
    ResolvePlaceholderHead("a", "b}", props);
    ResolveKeepsPlainText("b}", props);
  }

  /** A line break inside the braces prevents the match: "${a\nb}" is kept
      verbatim. */
  lemma LineBreakBlocksMatch(props: map<string, string>)
    ensures Resolve("${a\nb}", props) == "${a\nb}"
  {
    var s := "${a\nb}";
    assert !ClosesAt(s, 2, 5) by { assert IsLineTerminator(s[3]); }
    assert MatchPrefix(s).None?;
    assert s[1..] == "{a\nb}";
    ResolveKeepsPlainText("{a\nb}", props);
  }

  /** The property that supplies the base URL when the annotation has none. */
  const BaseUrlProperty := "flexi.api.baseUrl"

  /** resolveBaseUrl: the @ApiClient baseUrl when it is non-empty, otherwise
      the `flexi.api.baseUrl` property (default ""), with its placeholders
      resolved. */
  method ResolveBaseUrl(baseUrl: string, props: map<string, string>) returns (url: string)
    ensures baseUrl != [] ==> url == Resolve(baseUrl, props)
    ensures baseUrl == [] && BaseUrlProperty in props ==> url == Resolve(props[BaseUrlProperty], props)
    ensures baseUrl == [] && BaseUrlProperty !in props ==> url == []
  {
    var template := if baseUrl != [] then baseUrl else Property(props, BaseUrlProperty);
    url := ResolvePlaceholders(template, props);
  }
}
