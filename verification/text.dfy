/** The handful of .NET string operations the generators rely on:
    `TrimStart`, `Split`, `string.Join`, first-letter case mapping, and
    the prefix/suffix reading used to parse emitted statements back. */
module Text {
  import opened Wrappers

  predicate IsLowerAscii(c: char) { 'a' <= c <= 'z' }

  predicate IsUpperAscii(c: char) { 'A' <= c <= 'Z' }

  /** `char.ToUpper`, restricted to ASCII letters (culture rules are not
      modelled): a lower-case letter becomes the upper-case letter at the same
      place in the alphabet. */
  function ToUpperChar(c: char): (r: char)
    ensures IsLowerAscii(c) ==> IsUpperAscii(r) && r as int - 'A' as int == c as int - 'a' as int
    ensures !IsLowerAscii(c) ==> r == c
  {
    if IsLowerAscii(c) then (c as int - 32) as char else c
  }

  /** `char.ToLower`, restricted to ASCII letters: an upper-case letter
      becomes the lower-case letter at the same place in the alphabet. */
  function ToLowerChar(c: char): (r: char)
    ensures IsUpperAscii(c) ==> IsLowerAscii(r) && r as int - 'a' as int == c as int - 'A' as int
    ensures !IsUpperAscii(c) ==> r == c
  {
    if IsUpperAscii(c) then (c as int + 32) as char else c
  }

  lemma LowerThenUpper(c: char)
    requires IsUpperAscii(c)
    ensures ToUpperChar(ToLowerChar(c)) == c
  {
  }

  /** `string.ToUpper`: every character upper-cased. */
  function ToUpper(s: string): (r: string)
    ensures |r| == |s|
    ensures forall i :: 0 <= i < |s| ==> r[i] == ToUpperChar(s[i])
  {
    seq(|s|, i requires 0 <= i < |s| => ToUpperChar(s[i]))
  }

  /** `s.TrimStart(c)`: drops every leading occurrence of `c`. */
  function TrimStart(s: string, c: char): (r: string)
    ensures |r| <= |s| && r == s[|s| - |r|..]
    ensures forall i :: 0 <= i < |s| - |r| ==> s[i] == c
    ensures |r| > 0 ==> r[0] != c
  {
    if |s| > 0 && s[0] == c then TrimStart(s[1..], c) else s
  }

  /** Number of characters of `s` that belong to `chars`. */
  function CountAny(s: string, chars: set<char>): nat
  {
    if |s| == 0 then 0
    else (if s[0] in chars then 1 else 0) + CountAny(s[1..], chars)
  }

  /** `s.Split(separators)` without options: every separator character ends a
      segment, empty segments are kept and nothing is trimmed. */
  function Split(s: string, separators: set<char>): (parts: seq<string>)
    ensures |parts| == CountAny(s, separators) + 1
    ensures forall i, j :: 0 <= i < |parts| && 0 <= j < |parts[i]| ==> parts[i][j] !in separators
  {
    if |s| == 0 then [""]
    else
      var rest := Split(s[1..], separators);
      if s[0] in separators then [""] + rest
      else [[s[0]] + rest[0]] + rest[1..]
  }

  /** `string.Join(separator, parts)`. */
  function Join(parts: seq<string>, separator: string): string
  {
    if |parts| == 0 then ""
    else if |parts| == 1 then parts[0]
    else parts[0] + separator + Join(parts[1..], separator)
  }

  /** `s` with every character of `chars` replaced by `replacement`. */
  function ReplaceAny(s: string, chars: set<char>, replacement: char): string
  {
    if |s| == 0 then ""
    else [if s[0] in chars then replacement else s[0]] + ReplaceAny(s[1..], chars, replacement)
  }

  predicate Excludes(s: string, chars: set<char>)
  {
    forall i :: 0 <= i < |s| ==> s[i] !in chars
  }

  /** Splitting and re-joining with a single separator replaces every
      separator by that one and loses nothing else. */
  lemma {:induction false} JoinSplit(s: string, separators: set<char>, sep: char)
    ensures Join(Split(s, separators), [sep]) == ReplaceAny(s, separators, sep)
    decreases |s|
  {
    if |s| > 0 {
      var rest := Split(s[1..], separators);
      JoinSplit(s[1..], separators, sep);
      if s[0] in separators {
        assert Split(s, separators) == [""] + rest;
        assert ([""] + rest)[1..] == rest;
      } else {
        var parts := [[s[0]] + rest[0]] + rest[1..];
        assert Split(s, separators) == parts;
        if |rest| == 1 {
          assert Join(parts, [sep]) == [s[0]] + Join(rest, [sep]);
        } else {
          assert parts[1..] == rest[1..];
          assert Join(parts, [sep]) == [s[0]] + rest[0] + [sep] + Join(rest[1..], [sep]);
        }
      }
    }
  }

  lemma {:induction false} ReplaceAbsent(s: string, c: char)
    ensures ReplaceAny(s, {c}, c) == s
    decreases |s|
  {
    if |s| > 0 {
      ReplaceAbsent(s[1..], c);
    }
  }

  /** With one separator, `Join` undoes `Split`. */
  lemma SplitJoinRoundTrip(s: string, sep: char)
    ensures Join(Split(s, {sep}), [sep]) == s
  {
    JoinSplit(s, {sep}, sep);
    ReplaceAbsent(s, sep);
  }

  /** A string without separators is a single segment. */
  lemma {:induction false} SplitWhole(s: string, separators: set<char>)
    requires Excludes(s, separators)
    ensures Split(s, separators) == [s]
    decreases |s|
  {
    if |s| > 0 {
      SplitWhole(s[1..], separators);
      assert [s[0]] + s[1..] == s;
    }
  }

  /** The first separator ends the first segment. */
  lemma {:induction false} SplitAt(a: string, c: char, b: string, separators: set<char>)
    requires Excludes(a, separators) && c in separators
    ensures Split(a + [c] + b, separators) == [a] + Split(b, separators)
    decreases |a|
  {
    var s := a + [c] + b;
    if |a| == 0 {
      assert s[1..] == b;
    } else {
      assert s[1..] == a[1..] + [c] + b;
      SplitAt(a[1..], c, b, separators);
      assert [a[0]] + a[1..] == a;
    }
  }

  /** With separator-free parts, `Split` undoes `Join`: this is how the
      forwarded argument list of a constructor reads back. */
  lemma {:induction false} JoinSplitRoundTrip(parts: seq<string>, sep: char)
    requires |parts| >= 1
    requires forall i :: 0 <= i < |parts| ==> Excludes(parts[i], {sep})
    ensures Split(Join(parts, [sep]), {sep}) == parts
    decreases |parts|
  {
    if |parts| == 1 {
      SplitWhole(parts[0], {sep});
    } else {
      JoinSplitRoundTrip(parts[1..], sep);
      SplitAt(parts[0], sep, Join(parts[1..], [sep]), {sep});
      assert [parts[0]] + parts[1..] == parts;
    }
  }

  /** Reads `s` as `prefix + x + suffix` and returns `x`. */
  function StripAffixes(s: string, prefix: string, suffix: string): (r: Option<string>)
    ensures r.Some? ==> s == prefix + r.value + suffix
  {
    if |prefix| + |suffix| <= |s| && s[..|prefix|] == prefix && s[|s| - |suffix|..] == suffix then
      var x := s[|prefix|..|s| - |suffix|];
      assert s == s[..|prefix|] + x + s[|s| - |suffix|..];
      Some(x)
    else None
  }

  lemma StripAffixesOfWrapped(prefix: string, x: string, suffix: string)
    ensures StripAffixes(prefix + x + suffix, prefix, suffix) == Some(x)
  {
    var s := prefix + x + suffix;
    assert s[..|prefix|] == prefix;
    assert s[|s| - |suffix|..] == suffix;
    assert s[|prefix|..|s| - |suffix|] == x;
  }

  /** `s` cut at its last `c`: the text before it and the text after it. */
  function SplitLast(s: string, c: char): (r: Option<(string, string)>)
    ensures r.Some? ==> s == r.value.0 + [c] + r.value.1 && Excludes(r.value.1, {c})
    ensures r.None? ==> Excludes(s, {c})
  {
    if |s| == 0 then None
    else if s[|s| - 1] == c then
      assert s == s[..|s| - 1] + [c] + "";
      Some((s[..|s| - 1], ""))
    else
      match SplitLast(s[..|s| - 1], c)
      case None => None
      case Some((a, b)) =>
        assert s == s[..|s| - 1] + [s[|s| - 1]];
        Some((a, b + [s[|s| - 1]]))
  }

  /** The cut is at the separator after which no other one occurs. */
  lemma {:induction false} SplitLastOf(a: string, c: char, b: string)
    requires Excludes(b, {c})
    ensures SplitLast(a + [c] + b, c) == Some((a, b))
    decreases |b|
  {
    var s := a + [c] + b;
    if |b| == 0 {
      assert s[..|s| - 1] == a;
    } else {
      var b' := b[..|b| - 1];
      assert s[..|s| - 1] == a + [c] + b';
      assert s[|s| - 1] == b[|b| - 1];
      SplitLastOf(a, c, b');
      assert b' + [b[|b| - 1]] == b;
    }
  }
}
