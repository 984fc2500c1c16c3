/** String operations the source takes from Python's `str`: `strip`,
    `lower`, `in` (substring), `join` and prefix slicing. Strings are
    sequences of Unicode scalar values, which matches Python's code points. */
module Text {

  /** The characters for which Python's `str.isspace()` holds. */
  predicate IsSpace(c: char) {
    || c == ' ' || c == '\t' || c == '\n' || c == '\r'
    || c == '\U{000B}' || c == '\U{000C}'
    || ('\U{001C}' <= c <= '\U{001F}')
    || c == '\U{0085}' || c == '\U{00A0}' || c == '\U{1680}'
    || ('\U{2000}' <= c <= '\U{200A}')
    || c == '\U{2028}' || c == '\U{2029}' || c == '\U{202F}' || c == '\U{205F}' || c == '\U{3000}'
  }

  /** True when `s.strip()` is empty, i.e. the string is falsy after stripping. */
  predicate IsBlank(s: string) {
    forall i :: 0 <= i < |s| ==> IsSpace(s[i])
  }

  /** The number of whitespace characters at `s[i..]`'s start. */
  function SpaceRun(s: string, i: nat): (n: nat)
    requires i <= |s|
    ensures i + n <= |s|
    ensures forall j :: i <= j < i + n ==> IsSpace(s[j])
    ensures i + n < |s| ==> !IsSpace(s[i + n])
    decreases |s| - i
  {
    if i < |s| && IsSpace(s[i]) then 1 + SpaceRun(s, i + 1) else 0
  }

  /** The number of leading whitespace characters `s.strip()` removes. */
  function LeadingSpace(s: string): (k: nat)
    ensures k <= |s|
    ensures forall j :: 0 <= j < k ==> IsSpace(s[j])
    ensures k < |s| ==> !IsSpace(s[k])
  {
    SpaceRun(s, 0)
  }

  /** The end of `s[k..e]` once its trailing whitespace is dropped
      (`rstrip`), never below `k`. */
  function ContentEnd(s: string, k: nat, e: nat): (m: nat)
    requires k <= e <= |s|
    ensures k <= m <= e
    ensures forall j :: m <= j < e ==> IsSpace(s[j])
    ensures m > k ==> !IsSpace(s[m - 1])
    decreases e
  {
    if e > k && IsSpace(s[e - 1]) then ContentEnd(s, k, e - 1) else e
  }

  /** `s.strip()`: the slice of `s` that starts after its leading whitespace,
      with every character outside it whitespace; it is empty exactly when
      `s` is blank and otherwise starts and ends with a non-whitespace
      character. */
  function Strip(s: string): (r: string)
    ensures LeadingSpace(s) + |r| <= |s|
    ensures r == s[LeadingSpace(s)..LeadingSpace(s) + |r|]
    ensures forall i :: 0 <= i < |s| && !(LeadingSpace(s) <= i < LeadingSpace(s) + |r|) ==> IsSpace(s[i])
    ensures r == "" <==> IsBlank(s)
    ensures |r| > 0 ==> !IsSpace(r[0]) && !IsSpace(r[|r| - 1])
  {
    var k := LeadingSpace(s);
    var m := ContentEnd(s, k, |s|);
    assert m > k ==> s[k..m][0] == s[k] && s[k..m][m - k - 1] == s[m - 1];
    s[k..m]
  }

  /** ASCII case folding of one character, as `str.lower()` does for ASCII. */
  function LowerChar(c: char): (r: char)
    ensures 'A' <= c <= 'Z' ==> 'a' <= r <= 'z' && r as int == c as int + 32
    ensures !('A' <= c <= 'Z') ==> r == c
  {
    if 'A' <= c <= 'Z' then (c as int + 32) as char else c
  }

  /** `s.lower()` restricted to ASCII letters. */
  function Lower(s: string): (r: string)
    ensures |r| == |s|
    ensures forall i :: 0 <= i < |s| ==> r[i] == LowerChar(s[i])
  {
    seq(|s|, i requires 0 <= i < |s| => LowerChar(s[i]))
  }

  lemma LowerAppend(a: string, b: string)
    ensures Lower(a + b) == Lower(a) + Lower(b)
  {
  }

  /** Python's `p in s` for strings: `p` occurs as a contiguous slice of `s`. */
  predicate IsSubstring(p: string, s: string)
    decreases |s|
  {
    p <= s || (|s| > 0 && IsSubstring(p, s[1..]))
  }

  /** A pattern found at index `i` of `s` makes `IsSubstring` hold. */
  lemma {:induction false} SubstringAt(p: string, s: string, i: nat)
    requires i + |p| <= |s| && s[i..i + |p|] == p
    ensures IsSubstring(p, s)
    decreases i
  {
    if i > 0 {
      assert s[1..][i - 1..i - 1 + |p|] == s[i..i + |p|];
      SubstringAt(p, s[1..], i - 1);
    }
  }

  /** Conversely, `IsSubstring` names an index where the pattern occurs. */
  lemma {:induction false} SubstringIndex(p: string, s: string) returns (i: nat)
    requires IsSubstring(p, s)
    ensures i + |p| <= |s| && s[i..i + |p|] == p
    decreases |s|
  {
    if p <= s {
      i := 0;
    } else {
      var j := SubstringIndex(p, s[1..]);
      assert s[1..][j..j + |p|] == s[j + 1..j + 1 + |p|];
      i := j + 1;
    }
  }

  /** `p` occurs in `s` starting at index `i`. */
  predicate OccursAt(p: string, s: string, i: nat) {
    i + |p| <= |s| && s[i..i + |p|] == p
  }

  /** `IsSubstring` agrees with the slice-based reading of `p in s`, in both
      directions. */
  lemma SubstringIff(p: string, s: string)
    ensures IsSubstring(p, s) <==> exists i: nat :: OccursAt(p, s, i)
  {
    if IsSubstring(p, s) {
      var i := SubstringIndex(p, s);
      assert OccursAt(p, s, i);
    }
    forall i: nat | OccursAt(p, s, i)
      ensures IsSubstring(p, s)
    {
      SubstringAt(p, s, i);
    }
  }

  /** `s` ends with `suffix`. */
  predicate EndsWith(s: string, suffix: string) {
    |suffix| <= |s| && s[|s| - |suffix|..] == suffix
  }

  /** The parts joined with `sep` between consecutive ones. */
  function Join(sep: string, parts: seq<string>): (r: string)
    ensures |parts| == 1 ==> r == parts[0]
  {
    if |parts| == 0 then ""
    else if |parts| == 1 then parts[0]
    else parts[0] + sep + Join(sep, parts[1..])
  }

  /** Appending a part to a non-empty list appends the separator and the
      part to the joined string. */
  lemma {:induction false} JoinAppend(sep: string, parts: seq<string>, p: string)
    requires |parts| > 0
    ensures Join(sep, parts + [p]) == Join(sep, parts) + sep + p
    decreases |parts|
  {
    if |parts| == 1 {
      assert parts + [p] == [parts[0], p];
      assert [parts[0], p][1..] == [p];
    } else {
      assert (parts + [p])[0] == parts[0];
      assert (parts + [p])[1..] == parts[1..] + [p];
      JoinAppend(sep, parts[1..], p);
    }
  }

  /** Total length of a list of strings. */
  function TotalLength(parts: seq<string>): nat {
    if |parts| == 0 then 0 else |parts[0]| + TotalLength(parts[1..])
  }

  /** The joined string is as long as its parts plus one separator between
      each adjacent pair; in particular it is empty for no parts. */
  lemma {:induction false} JoinLength(sep: string, parts: seq<string>)
    ensures |parts| == 0 ==> |Join(sep, parts)| == 0
    ensures |parts| > 0 ==> |Join(sep, parts)| == TotalLength(parts) + (|parts| - 1) * |sep|
  {
    if |parts| > 1 {
      JoinLength(sep, parts[1..]);
    }
  }

  /** Python's `xs[:k]` for an integer `k`, negative values counting from
      the end. */
  function SliceTo<T>(xs: seq<T>, k: int): (r: seq<T>)
    ensures r <= xs
    ensures 0 <= k ==> |r| == if k <= |xs| then k else |xs|
    ensures k < 0 ==> |r| == if |xs| + k >= 0 then |xs| + k else 0
  {
    if k >= 0 then (if k <= |xs| then xs[..k] else xs)
    else if |xs| + k >= 0 then xs[..|xs| + k] else []
  }

  /** Python's `xs.index(x)`: the first position of `x`. */
  function IndexOf<T(==)>(xs: seq<T>, x: T): (i: nat)
    requires x in xs
    ensures i < |xs| && xs[i] == x && x !in xs[..i]
  {
    if xs[0] == x then 0 else 1 + IndexOf(xs[1..], x)
  }
}
