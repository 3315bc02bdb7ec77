/** The JavaScript string operations the core relies on, over `seq<char>`:
    case mapping (ASCII letters only), the white-space class of `\s` and `trim`,
    `includes`, `replace` with a string pattern (first occurrence only),
    `trim`, `split(/\s+/)`, `join('')` and "the text after the last separator". */
module Text {
  import opened Wrappers

  /** The characters matched by `\s` and removed by `trim`: ECMAScript's
      WhiteSpace and LineTerminator code points. */
  predicate IsSpace(c: char) {
    || c == ' ' || c == '\t' || c == '\n' || c == '\r' || c == '\U{0B}' || c == '\U{0C}'
    || c == '\U{A0}' || c == '\U{1680}' || ('\U{2000}' <= c <= '\U{200A}')
    || c == '\U{2028}' || c == '\U{2029}' || c == '\U{202F}' || c == '\U{205F}'
    || c == '\U{3000}' || c == '\U{FEFF}'
  }

  predicate NoSpace(s: string) {
    forall i :: 0 <= i < |s| ==> !IsSpace(s[i])
  }

  /** Text made only of visible ASCII characters holds no white space. */
  lemma VisibleAsciiHasNoSpace(s: string)
    requires forall i :: 0 <= i < |s| ==> ' ' < s[i] <= '~'
    ensures NoSpace(s)
  {
  }

  predicate AllSpace(s: string) {
    forall i :: 0 <= i < |s| ==> IsSpace(s[i])
  }

  // ---------------------------------------------------------------- case mapping

  function LowerChar(c: char): (r: char)
    ensures IsSpace(r) == IsSpace(c)
    ensures ('A' <= c <= 'Z') == (r != c)
  {
    if 'A' <= c <= 'Z' then (c as int + 32) as char else c
  }

  function UpperChar(c: char): (r: char)
    ensures IsSpace(r) == IsSpace(c)
    ensures LowerChar(r) == LowerChar(c)
  {
    if 'a' <= c <= 'z' then (c as int - 32) as char else c
  }

  /** `toLowerCase()`, restricted to the ASCII letters. */
  function Lower(s: string): (r: string)
    ensures |r| == |s|
    ensures forall i :: 0 <= i < |s| ==> r[i] == LowerChar(s[i])
  {
    seq(|s|, i requires 0 <= i < |s| => LowerChar(s[i]))
  }

  lemma LowerAppend(a: string, b: string)
    ensures Lower(a + b) == Lower(a) + Lower(b)
  {
    assert forall i :: 0 <= i < |a + b| ==> Lower(a + b)[i] == (Lower(a) + Lower(b))[i];
  }

  lemma LowerIdempotent(s: string)
    ensures Lower(Lower(s)) == Lower(s)
  {
  }

  lemma LowerKeepsNoSpace(s: string)
    requires NoSpace(s)
    ensures NoSpace(Lower(s))
  {
  }

  // ---------------------------------------------------------------- removing white space

  /** `replace(/\s+/g, '')`. */
  function StripSpaces(s: string): (r: string)
    ensures NoSpace(r)
    ensures |r| <= |s|
  {
    if s == [] then []
    else (if IsSpace(s[0]) then [] else [s[0]]) + StripSpaces(s[1..])
  }

  lemma {:induction false} StripSpacesAppend(a: string, b: string)
    ensures StripSpaces(a + b) == StripSpaces(a) + StripSpaces(b)
    decreases |a|
  {
    if a == [] {
      assert a + b == b;
    } else {
      assert (a + b)[1..] == a[1..] + b;
      StripSpacesAppend(a[1..], b);
    }
  }

  lemma {:induction false} StripSpacesOfNoSpace(s: string)
    requires NoSpace(s)
    ensures StripSpaces(s) == s
    decreases |s|
  {
    if s != [] {
      StripSpacesOfNoSpace(s[1..]);
    }
  }

  lemma {:induction false} StripSpacesOfAllSpace(s: string)
    requires AllSpace(s)
    ensures StripSpaces(s) == []
    decreases |s|
  {
    if s != [] {
      StripSpacesOfAllSpace(s[1..]);
    }
  }

  /** Removing the white space between two words joins them. */
  lemma StripSpacesAroundGap(a: string, gap: string, b: string)
    requires NoSpace(a) && AllSpace(gap) && NoSpace(b)
    ensures StripSpaces(a + gap + b) == a + b
  {
    StripSpacesAppend(a + gap, b);
    StripSpacesAppend(a, gap);
    StripSpacesOfNoSpace(a);
    StripSpacesOfAllSpace(gap);
    StripSpacesOfNoSpace(b);
    assert a + [] == a;
  }

  lemma {:induction false} LowerStripCommute(s: string)
    ensures Lower(StripSpaces(s)) == StripSpaces(Lower(s))
    decreases |s|
  {
    if s != [] {
      LowerStripCommute(s[1..]);
      assert Lower(s)[1..] == Lower(s[1..]);
      LowerAppend(if IsSpace(s[0]) then [] else [s[0]], StripSpaces(s[1..]));
    }
  }

  // ---------------------------------------------------------------- searching

  /** `p` occurs in `s` starting at index `j`. */
  predicate OccursAt(s: string, p: string, j: int) {
    0 <= j && j + |p| <= |s| && s[j..j + |p|] == p
  }

  /** Character-by-character comparison of `p[k..]` with `s[i + k..]`; written this way
      so that the verifier can evaluate it on literals. */
  predicate MatchAt(s: string, p: string, i: nat, k: nat)
    requires i + |p| <= |s| && k <= |p|
    decreases |p| - k
  {
    k == |p| || (s[i + k] == p[k] && MatchAt(s, p, i, k + 1))
  }

  lemma {:induction false} MatchAtIsSlice(s: string, p: string, i: nat, k: nat)
    requires i + |p| <= |s| && k <= |p|
    ensures MatchAt(s, p, i, k) <==> s[i + k..i + |p|] == p[k..]
    decreases |p| - k
  {
    if k < |p| {
      MatchAtIsSlice(s, p, i, k + 1);
      assert s[i + k..i + |p|] == [s[i + k]] + s[i + k + 1..i + |p|];
      assert p[k..] == [p[k]] + p[k + 1..];
    }
  }

  /** The first index `j >= i` at which `p` occurs in `s`. */
  function FindFrom(s: string, p: string, i: nat): (r: Option<nat>)
    ensures r.Some? ==> i <= r.value && OccursAt(s, p, r.value)
    ensures r.Some? ==> forall k :: i <= k < r.value ==> !OccursAt(s, p, k)
    ensures r.None? ==> forall k :: i <= k ==> !OccursAt(s, p, k)
    decreases |s| - i
  {
    if i + |p| > |s| then None
    else
      MatchAtIsSlice(s, p, i, 0);
      if MatchAt(s, p, i, 0) then Some(i) else FindFrom(s, p, i + 1)
  }

  /** `s.indexOf(p)`, with `None` for -1. */
  function FindFirst(s: string, p: string): Option<nat> {
    FindFrom(s, p, 0)
  }

  /** `s.includes(p)`. */
  predicate Contains(s: string, p: string) {
    FindFirst(s, p).Some?
  }

  lemma ContainsIff(s: string, p: string)
    ensures Contains(s, p) <==> exists j :: OccursAt(s, p, j)
  {
  }

  lemma ContainsAt(s: string, p: string, j: int)
    requires OccursAt(s, p, j)
    ensures Contains(s, p)
  {
  }

  lemma ContainsItself(p: string)
    ensures Contains(p, p)
  {
    assert p[0..|p|] == p;
    ContainsAt(p, p, 0);
  }

  /** A pattern holding a character the text lacks does not occur in it. */
  lemma MissingCharNotContained(s: string, p: string, c: char)
    requires c in p && c !in s
    ensures !Contains(s, p)
  {
  }

  lemma ContainsInside(a: string, b: string, c: string, p: string)
    requires Contains(b, p)
    ensures Contains(a + b + c, p)
  {
    var j := FindFirst(b, p).value;
    var s := a + b + c;
    assert s[|a| + j..|a| + j + |p|] == b[j..j + |p|];
    assert OccursAt(s, p, |a| + j);
  }

  /** `s.replace(pattern, replacement)` for a string pattern: only the first
      occurrence is replaced (no `$` patterns occur in the replacements used here). */
  function ReplaceFirst(s: string, pattern: string, replacement: string): (r: string)
    ensures !Contains(s, pattern) ==> r == s
    ensures Contains(s, pattern) ==>
      var j := FindFirst(s, pattern).value;
      r == s[..j] + replacement + s[j + |pattern|..]
  {
    match FindFirst(s, pattern)
    case None => s
    case Some(j) => s[..j] + replacement + s[j + |pattern|..]
  }

  lemma ReplacementIsContained(s: string, pattern: string, replacement: string, p: string)
    requires Contains(s, pattern) && Contains(replacement, p)
    ensures Contains(ReplaceFirst(s, pattern, replacement), p)
  {
    var j := FindFirst(s, pattern).value;
    ContainsInside(s[..j], replacement, s[j + |pattern|..], p);
  }

  // ---------------------------------------------------------------- trim

  function TrimStart(s: string): (r: string)
    ensures |r| <= |s| && r == s[|s| - |r|..]
    ensures AllSpace(s[..|s| - |r|])
    ensures r == [] || !IsSpace(r[0])
    decreases |s|
  {
    if s != [] && IsSpace(s[0]) then
      var r := TrimStart(s[1..]);
      assert s[..|s| - |r|] == [s[0]] + s[1..][..|s[1..]| - |r|];
      r
    else s
  }

  function TrimEnd(s: string): (r: string)
    ensures |r| <= |s| && r == s[..|r|]
    ensures AllSpace(s[|r|..])
    ensures r == [] || !IsSpace(r[|r| - 1])
    decreases |s|
  {
    if s != [] && IsSpace(s[|s| - 1]) then
      var r := TrimEnd(s[..|s| - 1]);
      assert s[|r|..] == s[..|s| - 1][|r|..] + [s[|s| - 1]];
      r
    else s
  }

  /** `trim()`: white space removed from both ends. */
  function Trim(s: string): (r: string)
    ensures r == [] || (!IsSpace(r[0]) && !IsSpace(r[|r| - 1]))
  {
    var t := TrimStart(s);
    var r := TrimEnd(t);
    assert r != [] ==> r[0] == t[0];
    r
  }

  lemma TrimOfTrimmed(s: string)
    requires s == [] || (!IsSpace(s[0]) && !IsSpace(s[|s| - 1]))
    ensures Trim(s) == s
  {
  }

  lemma {:induction false} LowerTrimStartCommute(s: string)
    ensures TrimStart(Lower(s)) == Lower(TrimStart(s))
    decreases |s|
  {
    if s != [] && IsSpace(s[0]) {
      assert Lower(s)[1..] == Lower(s[1..]);
      LowerTrimStartCommute(s[1..]);
    }
  }

  lemma {:induction false} LowerTrimEndCommute(s: string)
    ensures TrimEnd(Lower(s)) == Lower(TrimEnd(s))
    decreases |s|
  {
    if s != [] && IsSpace(s[|s| - 1]) {
      assert Lower(s)[..|s| - 1] == Lower(s[..|s| - 1]);
      LowerTrimEndCommute(s[..|s| - 1]);
    }
  }

  lemma LowerTrimCommute(s: string)
    ensures Trim(Lower(s)) == Lower(Trim(s))
  {
    LowerTrimStartCommute(s);
    LowerTrimEndCommute(TrimStart(s));
  }

  // ---------------------------------------------------------------- split and join

  /** Index of the first white-space character at or after `i`, or `|s|`. */
  function NextSpace(s: string, i: nat): (j: nat)
    requires i <= |s|
    ensures i <= j <= |s| && NoSpace(s[i..j])
    ensures j < |s| ==> IsSpace(s[j])
    decreases |s| - i
  {
    if i == |s| || IsSpace(s[i]) then i else NextSpace(s, i + 1)
  }

  /** Index just after the run of white space starting at `i`. */
  function SkipSpaces(s: string, i: nat): (j: nat)
    requires i <= |s|
    ensures i <= j <= |s| && AllSpace(s[i..j])
    ensures j < |s| ==> !IsSpace(s[j])
    decreases |s| - i
  {
    if i < |s| && IsSpace(s[i]) then SkipSpaces(s, i + 1) else i
  }

  /** `s.split(/\s+/)`: the pieces between maximal runs of white space; white space at
      either end yields an empty first or last piece, and `""` yields `[""]`. */
  function SplitOnSpaces(s: string): (words: seq<string>)
    ensures |words| >= 1
    ensures forall k :: 0 <= k < |words| ==> NoSpace(words[k])
    decreases |s|
  {
    var i := NextSpace(s, 0);
    if i == |s| then [s]
    else
      var j := SkipSpaces(s, i);
      [s[..i]] + SplitOnSpaces(s[j..])
  }

  /** `words.join('')`. */
  function Concat(words: seq<string>): string {
    if words == [] then [] else words[0] + Concat(words[1..])
  }

  lemma {:induction false} ConcatOfSplit(s: string)
    ensures Concat(SplitOnSpaces(s)) == StripSpaces(s)
    decreases |s|
  {
    var i := NextSpace(s, 0);
    if i == |s| {
      assert s[0..i] == s;
      StripSpacesOfNoSpace(s);
    } else {
      var j := SkipSpaces(s, i);
      var words := SplitOnSpaces(s);
      assert words == [s[..i]] + SplitOnSpaces(s[j..]);
      assert words[1..] == SplitOnSpaces(s[j..]);
      ConcatOfSplit(s[j..]);
      assert s == s[..i] + s[i..j] + s[j..];
      StripSpacesAppend(s[..i] + s[i..j], s[j..]);
      StripSpacesAppend(s[..i], s[i..j]);
      assert s[0..i] == s[..i];
      StripSpacesOfNoSpace(s[..i]);
      StripSpacesOfAllSpace(s[i..j]);
    }
  }

  // ---------------------------------------------------------------- last separator

  /** `s.split(c).pop()`: the text after the last `c`, or all of `s` when it has none. */
  function AfterLast(s: string, c: char): (r: string)
    ensures |r| <= |s| && r == s[|s| - |r|..]
    ensures c !in r
    ensures |r| < |s| ==> s[|s| - |r| - 1] == c
    ensures c !in s ==> r == s
    decreases |s|
  {
    if s == [] then []
    else if s[|s| - 1] == c then []
    else
      var r := AfterLast(s[..|s| - 1], c);
      r + [s[|s| - 1]]
  }

  /** What follows the last separator of `[c] + t`, when `t` has none, is `t`. */
  lemma AfterSeparator(c: char, t: string)
    requires c !in t
    ensures AfterLast([c] + t, c) == t
  {
    var s := [c] + t;
    assert s[1..] == t;
  }

  /** One step of `AfterLast` when the last character is not the separator. */
  lemma AfterLastStep(s: string, c: char)
    requires s != [] && s[|s| - 1] != c
    ensures AfterLast(s, c) == AfterLast(s[..|s| - 1], c) + [s[|s| - 1]]
  {
  }

  /** Only the part after the last separator matters. */
  lemma {:induction false} AfterLastOfSuffix(s: string, t: string, c: char)
    requires c in t
    ensures AfterLast(s + t, c) == AfterLast(t, c)
    decreases |t|
  {
    var st := s + t;
    assert st[|st| - 1] == t[|t| - 1];
    if t[|t| - 1] != c {
      var front := t[..|t| - 1];
      assert c in front by {
        var k :| 0 <= k < |t| && t[k] == c;
        assert front[k] == c;
      }
      assert st[..|st| - 1] == s + front;
      AfterLastOfSuffix(s, front, c);
      AfterLastStep(st, c);
      AfterLastStep(t, c);
    }
  }
}
