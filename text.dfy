/** The JavaScript string operations the components rely on, on `seq<char>`:
    `trim`, `toLowerCase`, `includes`, `startsWith`, `slice(0, n)`,
    `split` on one character and `join`. */
module Text {

  /** The code points `String.prototype.trim` removes: ECMAScript WhiteSpace
      (TAB, VT, FF, SP, NBSP, ZWNBSP and the space separators) and
      LineTerminator (LF, CR, LS, PS). */
  predicate IsSpace(c: char) {
    || c == '\t' || c == '\n' || c == '\U{000B}' || c == '\U{000C}' || c == '\r'
    || c == ' ' || c == '\U{00A0}' || c == '\U{1680}'
    || ('\U{2000}' <= c <= '\U{200A}')
    || c == '\U{2028}' || c == '\U{2029}' || c == '\U{202F}' || c == '\U{205F}'
    || c == '\U{3000}' || c == '\U{FEFF}'
  }

  predicate AllSpace(s: string) {
    forall i :: 0 <= i < |s| ==> IsSpace(s[i])
  }

  /** Neither end of `s` is white space. */
  predicate IsTrimmed(s: string) {
    s == [] || (!IsSpace(s[0]) && !IsSpace(s[|s| - 1]))
  }

  /** The first position at or after `i` that is not white space, or the
      end of `s`. */
  function SkipSpaces(s: string, i: nat): (k: nat)
    requires i <= |s|
    ensures i <= k <= |s|
    decreases |s| - i
  {
    if i < |s| && IsSpace(s[i]) then SkipSpaces(s, i + 1) else i
  }

  /** The position just after the last character before `j` that is not
      white space, or `lo` when there is none from `lo` on. */
  function BackSpaces(s: string, lo: nat, j: nat): (k: nat)
    requires lo <= j <= |s|
    ensures lo <= k <= j
    decreases j
  {
    if j > lo && IsSpace(s[j - 1]) then BackSpaces(s, lo, j - 1) else j
  }

  /** `SkipSpaces` passes over white space only and stops at a character
      that is not. */
  lemma {:induction false} SkipSpacesSpec(s: string, i: nat)
    requires i <= |s|
    ensures var k := SkipSpaces(s, i);
      && (forall m :: i <= m < k ==> IsSpace(s[m]))
      && (k < |s| ==> !IsSpace(s[k]))
    decreases |s| - i
  {
    if i < |s| && IsSpace(s[i]) {
      SkipSpacesSpec(s, i + 1);
    }
  }

  /** `BackSpaces` passes back over white space only and stops after a
      character that is not. */
  lemma {:induction false} BackSpacesSpec(s: string, lo: nat, j: nat)
    requires lo <= j <= |s|
    ensures var k := BackSpaces(s, lo, j);
      && (forall m :: k <= m < j ==> IsSpace(s[m]))
      && (k > lo ==> !IsSpace(s[k - 1]))
    decreases j
  {
    if j > lo && IsSpace(s[j - 1]) {
      BackSpacesSpec(s, lo, j - 1);
    }
  }

  /** A run of white space from `i` to `j` that ends the string or is
      followed by other text is exactly what `SkipSpaces` passes. */
  lemma {:induction false} SkipSpacesTo(s: string, i: nat, j: nat)
    requires i <= j <= |s|
    requires forall m :: i <= m < j ==> IsSpace(s[m])
    requires j == |s| || !IsSpace(s[j])
    ensures SkipSpaces(s, i) == j
    decreases j - i
  {
    if i < j {
      SkipSpacesTo(s, i + 1, j);
    }
  }

  /** A run of white space from `k` to `j` that starts at `lo` or after
      other text is exactly what `BackSpaces` passes. */
  lemma {:induction false} BackSpacesTo(s: string, lo: nat, k: nat, j: nat)
    requires lo <= k <= j <= |s|
    requires forall m :: k <= m < j ==> IsSpace(s[m])
    requires k == lo || !IsSpace(s[k - 1])
    ensures BackSpaces(s, lo, j) == k
    decreases j - k
  {
    if k < j {
      BackSpacesTo(s, lo, k, j - 1);
    }
  }

  /** Where the trimmed text starts inside `s`. */
  function TrimOffset(s: string): (k: nat)
    ensures k <= |s|
  {
    SkipSpaces(s, 0)
  }

  /** Where the trimmed text ends inside `s`. */
  function TrimLimit(s: string): (e: nat)
    ensures TrimOffset(s) <= e <= |s|
  {
    BackSpaces(s, TrimOffset(s), |s|)
  }

  /** `s.trim()`: white space cut from both ends. */
  function Trim(s: string): string {
    s[TrimOffset(s)..TrimLimit(s)]
  }

  /** What `trim` returns is the slice of its input between two runs of
      white space, with no white space at either end; so it has no
      character the input lacks. */
  lemma TrimIsSlice(s: string)
    ensures var k := TrimOffset(s); var r := Trim(s);
      && k + |r| <= |s|
      && r == s[k..k + |r|]
      && AllSpace(s[..k]) && AllSpace(s[k + |r|..])
      && IsTrimmed(r)
      && forall c :: c in r ==> c in s
  {
    var k := TrimOffset(s);
    var e := TrimLimit(s);
    var r := Trim(s);
    SkipSpacesSpec(s, 0);
    BackSpacesSpec(s, k, |s|);
    assert AllSpace(s[..k]) by {
      forall m | 0 <= m < k ensures IsSpace(s[..k][m]) {
        assert s[..k][m] == s[m];
      }
    }
    assert AllSpace(s[e..]) by {
      forall m | 0 <= m < |s| - e ensures IsSpace(s[e..][m]) {
        assert s[e..][m] == s[e + m];
      }
    }
    if r != [] {
      assert r[0] == s[k] && r[|r| - 1] == s[e - 1];
    }
    forall c | c in r ensures c in s {
      var i :| 0 <= i < |r| && r[i] == c;
      assert s[k + i] == c;
    }
  }

  /** `!s.trim()`: nothing but white space. */
  predicate IsBlank(s: string) {
    Trim(s) == ""
  }

  /** A string is blank exactly when every character is white space. */
  lemma BlankIffAllSpace(s: string)
    ensures IsBlank(s) <==> AllSpace(s)
  {
    SkipSpacesSpec(s, 0);
    BackSpacesSpec(s, TrimOffset(s), |s|);
    if AllSpace(s) {
      SkipSpacesTo(s, 0, |s|);
    }
  }

  /** Trimming a string that is already trimmed changes nothing. */
  lemma TrimOfTrimmed(t: string)
    requires IsTrimmed(t)
    ensures Trim(t) == t
  {
    SkipSpacesTo(t, 0, 0);
    BackSpacesTo(t, 0, |t|, |t|);
  }

  /** White space added around a trimmed string is exactly what `trim`
      takes away again. */
  lemma TrimPadded(a: string, t: string, b: string)
    requires AllSpace(a) && AllSpace(b) && IsTrimmed(t)
    ensures Trim(a + t + b) == t
  {
    var s := a + t + b;
    var i := |a|;
    var j := |a| + |t|;
    if t == [] {
      forall m | 0 <= m < |s| ensures IsSpace(s[m]) {
        if m < i { assert s[m] == a[m]; } else { assert s[m] == b[m - i]; }
      }
      SkipSpacesTo(s, 0, |s|);
      BackSpacesTo(s, |s|, |s|, |s|);
      assert s[|s|..|s|] == t;
    } else {
      forall m | 0 <= m < i ensures IsSpace(s[m]) {
        assert s[m] == a[m];
      }
      assert s[i] == t[0];
      SkipSpacesTo(s, 0, i);
      forall m | j <= m < |s| ensures IsSpace(s[m]) {
        assert s[m] == b[m - j];
      }
      assert s[j - 1] == t[|t| - 1];
      BackSpacesTo(s, i, j, |s|);
      assert s[i..j] == t;
    }
  }

  /** ASCII `toLowerCase`. */
  function LowerChar(c: char): char {
    if 'A' <= c <= 'Z' then (c as int + 32) as char else c
  }

  function ToLower(s: string): (r: string)
    ensures |r| == |s|
    ensures forall i :: 0 <= i < |s| ==> r[i] == LowerChar(s[i])
  {
    seq(|s|, i requires 0 <= i < |s| => LowerChar(s[i]))
  }

  /** Lowering twice is lowering once, and a lowered text has no ASCII
      capital left. */
  lemma ToLowerIdempotent(s: string)
    ensures ToLower(ToLower(s)) == ToLower(s)
    ensures forall i :: 0 <= i < |s| ==> !('A' <= ToLower(s)[i] <= 'Z')
  {
    var l := ToLower(s);
    forall i | 0 <= i < |s| ensures ToLower(l)[i] == l[i] {
      assert l[i] == LowerChar(s[i]);
    }
  }

  /** `hay.includes(needle)`: `needle` starts at some position of `hay`. */
  predicate Contains(hay: string, needle: string)
    decreases |hay|
  {
    StartsWith(hay, needle) || (|hay| > 0 && Contains(hay[1..], needle))
  }

  /** `hay.toLowerCase().includes(query.toLowerCase())`. */
  predicate IncludesIgnoringCase(hay: string, query: string) {
    Contains(ToLower(hay), ToLower(query))
  }

  /** Every string includes the empty query. */
  lemma EmptyQueryIncluded(hay: string)
    ensures IncludesIgnoringCase(hay, "")
  {
    assert ToLower("") == [];
    assert StartsWith(ToLower(hay), "");
  }

  /** The case of either side does not matter to a case-insensitive
      search: lowering the text or the query first gives the same answer. */
  lemma CaseOfEitherSideIrrelevant(hay: string, query: string)
    ensures IncludesIgnoringCase(ToLower(hay), query) == IncludesIgnoringCase(hay, query)
    ensures IncludesIgnoringCase(hay, ToLower(query)) == IncludesIgnoringCase(hay, query)
  {
    ToLowerIdempotent(hay);
    ToLowerIdempotent(query);
  }

  /** `s.startsWith(prefix)`. */
  predicate StartsWith(s: string, prefix: string) {
    |prefix| <= |s| && s[..|prefix|] == prefix
  }

  /** `s.slice(0, n)`. */
  function Take<T>(s: seq<T>, n: nat): (r: seq<T>)
    ensures |r| <= n && |r| <= |s|
    ensures r == s[..|r|]
    ensures |s| <= n ==> r == s
    ensures n <= |s| ==> |r| == n
  {
    if |s| <= n then s else s[..n]
  }

  /** JavaScript's `length`: UTF-16 code units, two for a character
      outside the Basic Multilingual Plane and one for any other. */
  function Utf16Len(s: string): (n: nat)
    ensures |s| <= n <= 2 * |s|
  {
    if s == [] then 0 else (if s[0] as int > 0xFFFF then 2 else 1) + Utf16Len(s[1..])
  }

  /** Every character is in the Basic Multilingual Plane. */
  predicate InBmp(s: string) {
    forall i :: 0 <= i < |s| ==> s[i] as int <= 0xFFFF
  }

  /** `length` counts characters exactly when every character is in the
      Basic Multilingual Plane. */
  lemma {:induction false} Utf16LenOfBmp(s: string)
    ensures Utf16Len(s) == |s| <==> InBmp(s)
  {
    if s != [] {
      Utf16LenOfBmp(s[1..]);
      if InBmp(s) {
        assert InBmp(s[1..]) by {
          forall i | 0 <= i < |s[1..]| ensures s[1..][i] as int <= 0xFFFF {
            assert s[1..][i] == s[i + 1];
          }
        }
      }
      if Utf16Len(s) == |s| {
        assert s[0] as int <= 0xFFFF;
        assert Utf16Len(s[1..]) == |s[1..]|;
        forall i | 0 <= i < |s| ensures s[i] as int <= 0xFFFF {
          if i > 0 {
            assert s[i] == s[1..][i - 1];
          }
        }
      }
    }
  }

  /** `s.split(sep)`: the maximal runs of characters other than `sep`, one
      more than there are separators. */
  function Split(s: string, sep: char): (parts: seq<string>)
    ensures |parts| >= 1
    decreases |s|
  {
    if |s| == 0 then [""]
    else
      var rest := Split(s[1..], sep);
      if s[0] == sep then [""] + rest else [[s[0]] + rest[0]] + rest[1..]
  }

  /** `parts.join(sep)`. */
  function Join(parts: seq<string>, sep: string): string
    decreases |parts|
  {
    if |parts| == 0 then ""
    else if |parts| == 1 then parts[0]
    else parts[0] + sep + Join(parts[1..], sep)
  }

  /** No part produced by `split` contains the separator. */
  lemma {:induction false} SplitPartsFree(s: string, sep: char)
    ensures forall i :: 0 <= i < |Split(s, sep)| ==> sep !in Split(s, sep)[i]
    decreases |s|
  {
    if |s| > 0 {
      SplitPartsFree(s[1..], sep);
    }
  }

  /** Joining the parts again with the separator gives back the string. */
  lemma {:induction false} JoinSplit(s: string, sep: char)
    ensures Join(Split(s, sep), [sep]) == s
    decreases |s|
  {
    if |s| > 0 {
      var rest := Split(s[1..], sep);
      JoinSplit(s[1..], sep);
      if s[0] == sep {
        assert Split(s, sep) == [""] + rest;
        assert ([""] + rest)[1..] == rest;
      } else {
        var parts := [[s[0]] + rest[0]] + rest[1..];
        if |rest| == 1 {
          assert parts == [[s[0]] + rest[0]];
        } else {
          assert parts[1..] == rest[1..];
          assert Join(rest, [sep]) == rest[0] + [sep] + Join(rest[1..], [sep]);
        }
      }
    }
  }

  /** Splitting a join of separator-free parts gives back the parts. */
  lemma {:induction false} SplitJoin(parts: seq<string>, sep: char)
    requires |parts| >= 1
    requires forall i :: 0 <= i < |parts| ==> sep !in parts[i]
    ensures Split(Join(parts, [sep]), sep) == parts
    decreases |parts|, |parts[0]|
  {
    var p := parts[0];
    if |parts| == 1 {
      SplitOfFree(p, sep);
    } else if p == "" {
      var tail := Join(parts[1..], [sep]);
      assert Join(parts, [sep]) == [sep] + tail;
      assert ([sep] + tail)[1..] == tail;
      SplitJoin(parts[1..], sep);
      assert [""] + parts[1..] == parts;
    } else {
      var parts' := [p[1..]] + parts[1..];
      assert parts'[1..] == parts[1..];
      assert Join(parts, [sep]) == [p[0]] + Join(parts', [sep]);
      assert ([p[0]] + Join(parts', [sep]))[1..] == Join(parts', [sep]);
      assert p[0] != sep by { assert p[0] in parts[0]; }
      SplitJoin(parts', sep);
      assert [p[0]] + p[1..] == p;
      assert [p] + parts[1..] == parts;
    }
  }

  /** A string without the separator splits into itself alone. */
  lemma {:induction false} SplitOfFree(p: string, sep: char)
    requires sep !in p
    ensures Split(p, sep) == [p]
    decreases |p|
  {
    if |p| > 0 {
      assert sep !in p[1..] by { assert forall c :: c in p[1..] ==> c in p; }
      SplitOfFree(p[1..], sep);
      assert [p[0]] + p[1..] == p;
    }
  }

  /** `name.split('.').pop()`: the last part of the split. */
  function AfterLastDot(name: string): string {
    var parts := Split(name, '.');
    parts[|parts| - 1]
  }

  /** What `AfterLastDot` means: the dot-free suffix after the last dot, or
      the whole name when it has no dot. */
  lemma AfterLastDotMeaning(name: string)
    ensures var r := AfterLastDot(name);
      && '.' !in r
      && |r| <= |name| && r == name[|name| - |r|..]
      && ('.' !in name ==> r == name)
      && ('.' in name ==> |r| < |name| && name[|name| - |r| - 1] == '.')
  {
    var parts := Split(name, '.');
    var r := parts[|parts| - 1];
    SplitPartsFree(name, '.');
    JoinSplit(name, '.');
    if |parts| == 1 {
      assert name == r;
    } else {
      var init := Join(parts[..|parts| - 1], ".");
      JoinLast(parts, ".");
      assert name == init + "." + r;
      assert name[|name| - |r|..] == r;
      assert name[|name| - |r| - 1] == '.';
      assert '.' in name;
    }
  }

  /** A join of two or more parts ends with the separator and the last part. */
  lemma {:induction false} JoinLast(parts: seq<string>, sep: string)
    requires |parts| > 1
    ensures Join(parts, sep) == Join(parts[..|parts| - 1], sep) + sep + parts[|parts| - 1]
    decreases |parts|
  {
    if |parts| > 2 {
      JoinLast(parts[1..], sep);
      assert parts[1..][..|parts| - 2] == parts[..|parts| - 1][1..];
      assert Join(parts[..|parts| - 1], sep)
        == parts[0] + sep + Join(parts[..|parts| - 1][1..], sep);
    } else {
      assert parts[..1] == [parts[0]];
    }
  }

  /** Splitting text that ends in a separator and a separator-free tail
      gives the parts of the text before it, then the tail. */
  lemma {:induction false} SplitAppendLast(pre: string, sep: char, r: string)
    requires sep !in r
    ensures Split(pre + [sep] + r, sep) == Split(pre, sep) + [r]
    decreases |pre|
  {
    var s := pre + [sep] + r;
    if pre == [] {
      assert s == [sep] + r;
      assert s[1..] == r;
      SplitOfFree(r, sep);
    } else {
      assert s[0] == pre[0];
      assert s[1..] == pre[1..] + [sep] + r;
      SplitAppendLast(pre[1..], sep, r);
      var before := Split(pre[1..], sep);
      if pre[0] != sep {
        assert (before + [r])[0] == before[0];
        assert (before + [r])[1..] == before[1..] + [r];
      }
    }
  }

  /** The text after the last dot of `pre + "." + r`, for a dot-free `r`,
      is `r`. */
  lemma AfterLastDotOf(pre: string, r: string)
    requires '.' !in r
    ensures AfterLastDot(pre + "." + r) == r
  {
    assert pre + "." + r == pre + ['.'] + r;
    SplitAppendLast(pre, '.', r);
  }
}
