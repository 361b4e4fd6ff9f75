/** The `java.lang.String` operations the catalogue code uses: `indexOf`,
    `trim`, `replace(char, char)` and `equalsIgnoreCase` (over ASCII letters). */
module JavaString {

  /** `trim` removes every character up to and including U+0020. */
  predicate IsSpace(c: char)
  {
    c <= ' '
  }

  predicate IsTrimmed(s: string)
  {
    s == [] || (!IsSpace(s[0]) && !IsSpace(s[|s| - 1]))
  }

  /** `s.indexOf(c, from)`: the first position at or after `from` holding
      `c`, or -1. */
  function IndexOf(s: string, c: char, from: nat): (r: int)
    requires from <= |s|
    ensures r == -1 || (from <= r < |s| && s[r] == c)
    ensures forall i :: from <= i < |s| && (r == -1 || i < r) ==> s[i] != c
    decreases |s| - from
  {
    if from == |s| then -1
    else if s[from] == c then from
    else IndexOf(s, c, from + 1)
  }

  /** Drops the leading spaces. */
  function TrimStart(s: string): (r: string)
    ensures |r| <= |s| && r == s[|s| - |r|..]
    ensures forall i :: 0 <= i < |s| - |r| ==> IsSpace(s[i])
    ensures r == [] || !IsSpace(r[0])
  {
    if s == [] || !IsSpace(s[0]) then s else TrimStart(s[1..])
  }

  /** Drops the trailing spaces. */
  function TrimEnd(s: string): (r: string)
    ensures |r| <= |s| && r == s[..|r|]
    ensures forall i :: |r| <= i < |s| ==> IsSpace(s[i])
    ensures r == [] || !IsSpace(r[|r| - 1])
  {
    if s == [] || !IsSpace(s[|s| - 1]) then s else TrimEnd(s[..|s| - 1])
  }

  /** `s.trim()`: the longest slice of `s` without spaces at either end. */
  function Trim(s: string): (r: string)
    ensures IsTrimmed(r)
    ensures r == [] <==> forall i :: 0 <= i < |s| ==> IsSpace(s[i])
    ensures IsTrimmed(s) ==> r == s
    ensures exists k :: SpacesAround(s, r, k)
  {
    var t := TrimStart(s);
    var r := TrimEnd(t);
    TrimSlice(s, t, r);
    r
  }

  /** Trimming the front and then the back leaves a slice of `s` with only
      spaces around it. */
  lemma TrimSlice(s: string, t: string, r: string)
    requires |t| <= |s| && t == s[|s| - |t|..] && SpacesAround(s, t, |s| - |t|)
    requires |r| <= |t| && r == t[..|r|] && SpacesAround(t, r, 0)
    requires t == [] || !IsSpace(t[0])
    requires r == [] || !IsSpace(r[|r| - 1])
    ensures IsTrimmed(r)
    ensures SpacesAround(s, r, |s| - |t|)
  {
    var k := |s| - |t|;
    forall j | 0 <= j < |r| ensures r[j] == s[k + j] {
      assert r[j] == t[j];
    }
    forall i | k + |r| <= i < |s| ensures IsSpace(s[i]) {
      assert s[i] == t[i - k];
    }
    assert r != [] ==> r[0] == t[0];
  }

  /** `r` is the slice of `s` from `k` on, and everything of `s` before and
      after it is space. */
  predicate SpacesAround(s: string, r: string, k: int)
  {
    && 0 <= k <= |s| - |r| && r == s[k..k + |r|]
    && (forall i :: 0 <= i < k ==> IsSpace(s[i]))
    && (forall i :: k + |r| <= i < |s| ==> IsSpace(s[i]))
  }

  /** `s.replace(from, to)` for characters. */
  function Replace(s: string, from: char, to: char): (r: string)
    ensures |r| == |s|
    ensures forall i :: 0 <= i < |s| ==> r[i] == if s[i] == from then to else s[i]
    ensures from != to ==> from !in r
  {
    if s == [] then [] else [if s[0] == from then to else s[0]] + Replace(s[1..], from, to)
  }

  /** Replacing a character that does not occur and back again is the
      identity. */
  lemma ReplaceBack(s: string, a: char, b: char)
    requires b !in s
    ensures Replace(Replace(s, a, b), b, a) == s
  {
    var r := Replace(Replace(s, a, b), b, a);
    assert |r| == |s|;
    forall i | 0 <= i < |s| ensures r[i] == s[i] {
      assert s[i] != b;
    }
  }

  function ToUpper(c: char): char
  {
    if 'a' <= c <= 'z' then (c as int - 32) as char else c
  }

  function ToLower(c: char): char
  {
    if 'A' <= c <= 'Z' then (c as int + 32) as char else c
  }

  /** The per-character test of `regionMatches(true, …)`, used by
      `equalsIgnoreCase`. */
  predicate CharEqualsIgnoreCase(a: char, b: char)
  {
    a == b || ToUpper(a) == ToUpper(b) || ToLower(ToUpper(a)) == ToLower(ToUpper(b))
  }

  /** `a.equalsIgnoreCase(b)`. */
  predicate EqualsIgnoreCase(a: string, b: string)
  {
    |a| == |b| && forall i :: 0 <= i < |a| ==> CharEqualsIgnoreCase(a[i], b[i])
  }

  function LowerCase(s: string): (r: string)
    ensures |r| == |s| && forall i :: 0 <= i < |s| ==> r[i] == ToLower(s[i])
  {
    seq(|s|, i requires 0 <= i < |s| => ToLower(s[i]))
  }

  lemma CharEqualsIgnoreCaseLower(a: char, b: char)
    ensures CharEqualsIgnoreCase(a, b) <==> ToLower(a) == ToLower(b)
  {
  }

  /** Two strings are equal ignoring case exactly when their lower-case
      forms are equal. */
  lemma EqualsIgnoreCaseIff(a: string, b: string)
    ensures EqualsIgnoreCase(a, b) <==> LowerCase(a) == LowerCase(b)
  {
    if LowerCase(a) == LowerCase(b) {
      forall i | 0 <= i < |a| ensures CharEqualsIgnoreCase(a[i], b[i]) {
        assert LowerCase(a)[i] == LowerCase(b)[i];
        CharEqualsIgnoreCaseLower(a[i], b[i]);
      }
    }
    if EqualsIgnoreCase(a, b) {
      forall i | 0 <= i < |a| ensures LowerCase(a)[i] == LowerCase(b)[i] {
        CharEqualsIgnoreCaseLower(a[i], b[i]);
      }
    }
  }
}
