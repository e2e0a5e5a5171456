/**
 * Python string and path-name operations the graph builder relies on:
 * `sep.join`, `str.split('.')`, `str.startswith`, `str.lower().endswith`
 * and the last-suffix rule of `pathlib.PurePath.suffix`.
 */
module Strings {

  datatype Option<T> = None | Some(value: T)

  /** Python's `sep.join(parts)`. */
  function Join(sep: string, parts: seq<string>): string
  {
    if |parts| == 0 then ""
    else if |parts| == 1 then parts[0]
    else parts[0] + sep + Join(sep, parts[1..])
  }

  /** Python's `s.startswith(prefix)`. */
  predicate StartsWith(s: string, prefix: string)
  {
    |prefix| <= |s| && s[..|prefix|] == prefix
  }

  /** Python's `s.endswith(suffix)`. */
  predicate EndsWith(s: string, suffix: string)
  {
    |suffix| <= |s| && s[|s| - |suffix|..] == suffix
  }

  /** Python's `s.split('.')[0]`: the text before the first dot, or all of `s`. */
  function FirstSegment(s: string): (r: string)
    ensures |r| <= |s| && r == s[..|r|]
    ensures '.' !in r
    ensures |r| < |s| ==> s[|r|] == '.'
  {
    if s == [] || s[0] == '.' then [] else [s[0]] + FirstSegment(s[1..])
  }

  /** The first segment of `a + "." + b` is `a` when `a` holds no dot. */
  lemma FirstSegmentOfJoin(a: string, b: string)
    requires '.' !in a
    ensures FirstSegment(a + "." + b) == a
  {
    var s := a + "." + b;
    assert forall k :: 0 <= k < |a| ==> s[k] == a[k];
    assert s[|a|] == '.';
    assert s[..|a|] == a;
  }

  /** Python's `s.split('.')`. */
  function SplitDots(s: string): (parts: seq<string>)
    ensures |parts| >= 1
    decreases |s|
  {
    var head := FirstSegment(s);
    if |head| == |s| then [s] else [head] + SplitDots(s[|head| + 1..])
  }

  /** Splitting at the dots undoes joining with dots when no part holds a dot. */
  lemma {:induction false} SplitDotsJoin(parts: seq<string>)
    requires |parts| >= 1
    requires forall i :: 0 <= i < |parts| ==> '.' !in parts[i]
    ensures SplitDots(Join(".", parts)) == parts
  {
    if |parts| > 1 {
      var rest := Join(".", parts[1..]);
      var s := parts[0] + "." + rest;
      assert Join(".", parts) == s;
      FirstSegmentOfJoin(parts[0], rest);
      assert s[|parts[0]| + 1..] == rest;
      SplitDotsJoin(parts[1..]);
      assert [parts[0]] + parts[1..] == parts;
    }
  }

  /** Python's `str.lower()` restricted to ASCII letters. */
  function LowerChar(c: char): char
  {
    if 'A' <= c <= 'Z' then (c as int - 'A' as int + 'a' as int) as char else c
  }

  function Lower(s: string): (r: string)
    ensures |r| == |s|
  {
    seq(|s|, i requires 0 <= i < |s| => LowerChar(s[i]))
  }

  /** `fname.lower().endswith(".py")`, the file filter of the discoverer. */
  predicate IsPythonFileName(fname: string)
  {
    EndsWith(Lower(fname), ".py")
  }

  /** The file filter accepts exactly the names whose last three characters are
      a dot, a `p` of either case and a `y` of either case. */
  lemma PythonFileNameChars(fname: string)
    ensures IsPythonFileName(fname) <==>
      |fname| >= 3 && fname[|fname| - 3] == '.' &&
      fname[|fname| - 2] in {'p', 'P'} && fname[|fname| - 1] in {'y', 'Y'}
  {
    if |fname| >= 3 {
      var low := Lower(fname);
      var n := |fname|;
      assert low[n - 3..] == [low[n - 3], low[n - 2], low[n - 1]];
      assert ".py" == ['.', 'p', 'y'];
    }
  }

  /** Index of the last dot of `s` (Python's `s.rfind('.')`, with None for -1). */
  function LastDot(s: string): (r: Option<nat>)
    ensures r.Some? ==> r.value < |s| && s[r.value] == '.' &&
                        forall k :: r.value < k < |s| ==> s[k] != '.'
    ensures r.None? ==> '.' !in s
  {
    if s == [] then None
    else if s[|s| - 1] == '.' then Some(|s| - 1)
    else
      var r := LastDot(s[..|s| - 1]);
      assert forall k :: 0 <= k < |s| - 1 ==> s[..|s| - 1][k] == s[k];
      r
  }

  /** The name without its last suffix: `PurePath(name).with_suffix("").name`.
      A suffix is the text from the last dot on, provided that dot is neither
      the first nor the last character of the name. */
  function StripSuffix(name: string): string
  {
    match LastDot(name)
    case Some(i) => if 0 < i < |name| - 1 then name[..i] else name
    case None => name
  }

  /** What StripSuffix keeps and drops: either the name is unchanged, or a
      non-empty stem is kept and exactly one dot-suffix, holding no further dot
      and at least one character after the dot, is removed. */
  lemma StripSuffixRemovesLastSuffix(name: string)
    ensures var r := StripSuffix(name);
      && |r| <= |name| && r == name[..|r|]
      && (r == name || (0 < |r| < |name| - 1 && name[|r|] == '.' &&
                        forall k :: |r| < k < |name| ==> name[k] != '.'))
      && (r == name <==>
            forall i :: 0 < i < |name| - 1 ==>
              !(name[i] == '.' && forall k :: i < k < |name| ==> name[k] != '.'))
  {
    var r := StripSuffix(name);
    match LastDot(name)
    case None =>
    case Some(j) =>
      if r == name {
        forall i | 0 < i < |name| - 1
          ensures !(name[i] == '.' && forall k :: i < k < |name| ==> name[k] != '.')
        {
        }
      }
  }
}
