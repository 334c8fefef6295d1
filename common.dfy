/** Shared vocabulary of the model: optional values, results, and the
    handful of Python `str` operations the vocabulary learner relies on
    (`strip`, `in`, `find`, `split(sep, 1)`, `startswith`, `splitlines`). */
module Common {

  datatype Option<T> = None | Some(value: T) {
    /** Python's `d.get(key, default)` once the key lookup is done. */
    function GetOr(default: T): T {
      if Some? then value else default
    }
  }

  /** A computation that can raise: `Err` carries the exception's message. */
  datatype Result<T> = Ok(value: T) | Err(message: string)

  /** The characters for which Python's `str.isspace()` holds. */
  predicate IsSpace(c: char) {
    c == ' ' || ('\U{9}' <= c <= '\U{D}') || ('\U{1C}' <= c <= '\U{1F}')
    || c == '\U{85}' || c == '\U{A0}' || c == '\U{1680}'
    || ('\U{2000}' <= c <= '\U{200A}') || c == '\U{2028}' || c == '\U{2029}'
    || c == '\U{202F}' || c == '\U{205F}' || c == '\U{3000}'
  }

  function TrimStart(s: string): (r: string)
    ensures |r| <= |s| && r == s[|s| - |r|..]
    ensures r != [] ==> !IsSpace(r[0])
    ensures forall k :: 0 <= k < |s| - |r| ==> IsSpace(s[k])
  {
    if s != [] && IsSpace(s[0]) then TrimStart(s[1..]) else s
  }

  function TrimEnd(s: string): (r: string)
    ensures |r| <= |s| && r == s[..|r|]
    ensures r != [] ==> !IsSpace(r[|r| - 1])
    ensures forall k :: |r| <= k < |s| ==> IsSpace(s[k])
  {
    if s != [] && IsSpace(s[|s| - 1]) then TrimEnd(s[..|s| - 1]) else s
  }

  /** Python's `s.strip()`. */
  function Strip(s: string): string {
    TrimEnd(TrimStart(s))
  }

  predicate IsBlank(s: string) {
    forall k :: 0 <= k < |s| ==> IsSpace(s[k])
  }

  /** `strip()` leaves no white space at either end, and removes only white space. */
  lemma StripShape(s: string)
    ensures Strip(s) != [] ==> !IsSpace(Strip(s)[0]) && !IsSpace(Strip(s)[|Strip(s)| - 1])
    ensures exists i :: OccursAt(s, Strip(s), i)
  {
    PrefixOfSuffix(s, TrimStart(s), Strip(s));
  }

  /** A prefix of a suffix of `s` occurs in `s` where the suffix starts. */
  lemma PrefixOfSuffix(s: string, t: string, r: string)
    requires |t| <= |s| && t == s[|s| - |t|..]
    requires |r| <= |t| && r == t[..|r|]
    ensures OccursAt(s, r, |s| - |t|)
    ensures r != [] ==> r[0] == t[0]
  {
    var i := |s| - |t|;
    assert s[i..i + |r|] == t[..|r|];
  }

  /** `strip()` yields the empty string exactly for the all-white-space strings. */
  lemma StripEmptyIffBlank(s: string)
    ensures Strip(s) == [] <==> IsBlank(s)
  {
    var t := TrimStart(s);
    if !IsBlank(s) {
      var k :| 0 <= k < |s| && !IsSpace(s[k]);
      assert k >= |s| - |t|;
      assert t[0] == s[|s| - |t|];
      assert !IsSpace(t[0]) && |TrimEnd(t)| > 0;
    }
  }

  /** Stripping twice is stripping once. */
  lemma StripIdempotent(s: string)
    ensures Strip(Strip(s)) == Strip(s)
  {
    var r := Strip(s);
    StripShape(s);
    if r != [] {
      assert TrimStart(r) == r;
      assert TrimEnd(r) == r;
    }
  }

  /** `sub` occurs in `s` starting at index `j`. */
  predicate OccursAt(s: string, sub: string, j: int) {
    0 <= j && j + |sub| <= |s| && s[j..j + |sub|] == sub
  }

  /** The first occurrence of `sub` in `s` at or after index `i` (Python's `find`). */
  function IndexFrom(s: string, sub: string, i: nat): (r: Option<nat>)
    decreases |s| - i
    ensures r.Some? ==> i <= r.value && OccursAt(s, sub, r.value)
    ensures r.Some? ==> forall j :: i <= j < r.value ==> !OccursAt(s, sub, j)
    ensures r.None? ==> forall j :: i <= j ==> !OccursAt(s, sub, j)
  {
    if i + |sub| > |s| then None
    else if s[i..i + |sub|] == sub then Some(i)
    else IndexFrom(s, sub, i + 1)
  }

  function IndexOf(s: string, sub: string): (r: Option<nat>)
    ensures r.Some? ==> OccursAt(s, sub, r.value) && forall j :: 0 <= j < r.value ==> !OccursAt(s, sub, j)
    ensures r.None? ==> forall j :: !OccursAt(s, sub, j)
  {
    IndexFrom(s, sub, 0)
  }

  /** Python's `sub in s`. */
  predicate Contains(s: string, sub: string) {
    IndexOf(s, sub).Some?
  }

  lemma ContainsIff(s: string, sub: string)
    ensures Contains(s, sub) <==> exists j :: OccursAt(s, sub, j)
  {
  }

  predicate StartsWith(s: string, prefix: string) {
    |prefix| <= |s| && s[..|prefix|] == prefix
  }

  /** Python's `s.split(sep, 1)[0]`: the text before the first `sep`, or all of `s`. */
  function Before(s: string, sep: string): (r: string)
    ensures Contains(s, sep) ==> r == s[..IndexOf(s, sep).value]
    ensures !Contains(s, sep) ==> r == s
  {
    match IndexOf(s, sep)
    case Some(i) => s[..i]
    case None => s
  }

  /** Python's `s.split(sep, 1)[1]`, when `sep` occurs in `s`. */
  function After(s: string, sep: string): (r: string)
    requires Contains(s, sep)
  {
    s[IndexOf(s, sep).value + |sep|..]
  }

  lemma SplitOnceJoins(s: string, sep: string)
    requires sep != [] && Contains(s, sep)
    ensures s == Before(s, sep) + sep + After(s, sep)
    ensures !Contains(Before(s, sep), sep)
  {
    var i := IndexOf(s, sep).value;
    assert s == s[..i] + s[i..i + |sep|] + s[i + |sep|..];
    var b := Before(s, sep);
    forall j ensures !OccursAt(b, sep, j) {
      if 0 <= j && j + |sep| <= |b| {
        assert |b| == i && j < i;
        assert b[j..j + |sep|] == s[j..j + |sep|];
        assert !OccursAt(s, sep, j);
      }
    }
  }

  /** The index of the first `c` in `s`, or `|s|` when there is none. */
  function CharIndex(s: string, c: char): (r: nat)
    ensures r <= |s| && c !in s[..r]
    ensures r < |s| ==> s[r] == c
    ensures c in s <==> r < |s|
  {
    if s == [] then 0
    else if s[0] == c then 0
    else
      var r := 1 + CharIndex(s[1..], c);
      assert s[..r] == [s[0]] + s[1..][..r - 1];
      r
  }

  /** A one-character string occurs exactly where its character is. */
  lemma OccursChar(s: string, c: char, k: int)
    ensures OccursAt(s, [c], k) <==> 0 <= k < |s| && s[k] == c
  {
    if 0 <= k < |s| {
      assert s[k..k + 1] == [s[k]];
    }
  }

  /** Python's `find` of a one-character string is the first index of
      that character. */
  lemma IndexOfChar(s: string, c: char)
    ensures IndexOf(s, [c]) == if c in s then Some(CharIndex(s, c)) else None
  {
    if c in s {
      FirstCharFound(s, c);
    } else {
      forall k: int
        ensures !OccursAt(s, [c], k)
      {
        OccursChar(s, c, k);
      }
    }
  }

  lemma FirstCharFound(s: string, c: char)
    requires c in s
    ensures IndexOf(s, [c]) == Some(CharIndex(s, c))
  {
    var i := CharIndex(s, c);
    OccursChar(s, c, i);
    var j := IndexOf(s, [c]).value;
    OccursChar(s, c, j);
    forall k | 0 <= k < i
      ensures s[k] != c
    {
      assert s[..i][k] == s[k];
    }
    assert j == i;
  }

  /** Splitting at a one-character separator cuts around the first
      occurrence of that character. */
  lemma SplitAtChar(s: string, c: char)
    ensures Contains(s, [c]) <==> c in s
    ensures Before(s, [c]) == s[..CharIndex(s, c)]
    ensures c in s ==> After(s, [c]) == s[CharIndex(s, c) + 1..]
  {
    IndexOfChar(s, c);
    if c !in s {
      assert s[..CharIndex(s, c)] == s;
    }
  }

  /** The line boundaries of Python's `str.splitlines()`. */
  predicate IsLineBreak(c: char) {
    c == '\n' || c == '\r' || c == '\U{B}' || c == '\U{C}' || c == '\U{1C}' || c == '\U{1D}'
    || c == '\U{1E}' || c == '\U{85}' || c == '\U{2028}' || c == '\U{2029}'
  }

  function FirstBreak(s: string, i: nat): (r: nat)
    requires i <= |s|
    decreases |s| - i
    ensures i <= r <= |s|
    ensures r < |s| ==> IsLineBreak(s[r])
    ensures forall k :: i <= k < r ==> !IsLineBreak(s[k])
  {
    if i == |s| || IsLineBreak(s[i]) then i else FirstBreak(s, i + 1)
  }

  /** Python's `s.splitlines()`: `"\r\n"` counts as one boundary and a final
      boundary does not open an empty last line. */
  function SplitLines(s: string): (lines: seq<string>)
    decreases |s|
    ensures forall l, k :: l in lines && 0 <= k < |l| ==> !IsLineBreak(l[k])
  {
    if s == [] then []
    else
      var b := FirstBreak(s, 0);
      if b == |s| then [s]
      else
        var next := if s[b] == '\r' && b + 1 < |s| && s[b + 1] == '\n' then b + 2 else b + 1;
        [s[..b]] + SplitLines(s[next..])
  }

  /** A text with no line boundary is one line (or none, when empty). */
  lemma SplitLinesSingle(s: string)
    requires forall k :: 0 <= k < |s| ==> !IsLineBreak(s[k])
    ensures SplitLines(s) == if s == [] then [] else [s]
  {
  }

  predicate IsAsciiDigit(c: char) {
    '0' <= c <= '9'
  }

  /** The decimal value of a string of ASCII digits. */
  function DigitsValue(s: string): nat
    requires forall k :: 0 <= k < |s| ==> IsAsciiDigit(s[k])
  {
    if s == [] then 0
    else
      var last := |s| - 1;
      assert IsAsciiDigit(s[last]);
      10 * DigitsValue(s[..last]) + (s[last] as int - '0' as int)
  }

  /** ASCII `str.lower()`. */
  function LowerAscii(s: string): (r: string)
    ensures |r| == |s|
  {
    seq(|s|, k requires 0 <= k < |s| => if 'A' <= s[k] <= 'Z' then (s[k] as int + 32) as char else s[k])
  }

  /** The last index of `c` in `s`, as Python's `rfind` (-1 when absent). */
  function LastIndexOf(s: string, c: char): (r: int)
    ensures -1 <= r < |s|
    ensures r >= 0 ==> s[r] == c
    ensures forall k :: r < k < |s| ==> s[k] != c
  {
    if s == [] then -1
    else if s[|s| - 1] == c then |s| - 1
    else LastIndexOf(s[..|s| - 1], c)
  }

  /** The position of the last `c`, read off its defining properties. */
  lemma {:induction false} LastIndexAt(s: string, c: char, i: int)
    requires -1 <= i < |s|
    requires i >= 0 ==> s[i] == c
    requires forall k :: i < k < |s| ==> s[k] != c
    ensures LastIndexOf(s, c) == i
  {
    if s != [] && i < |s| - 1 {
      LastIndexAt(s[..|s| - 1], c, i);
    }
  }
}
