/** Character-level helpers: ASCII case folding and splitting at a separator. */
module Text {

  function LowerChar(c: char): (l: char)
    ensures 'A' <= c <= 'Z' ==> 'a' <= l <= 'z'
    ensures !('A' <= c <= 'Z') ==> l == c
  {
    if 'A' <= c <= 'Z' then (c as int - 'A' as int + 'a' as int) as char else c
  }

  /** `String.prototype.toLowerCase`, restricted to ASCII letters. */
  function ToLower(s: string): (r: string)
    ensures |r| == |s|
    ensures forall i :: 0 <= i < |s| ==> r[i] == LowerChar(s[i])
  {
    seq(|s|, i requires 0 <= i < |s| => LowerChar(s[i]))
  }

  /** Lower-casing a prefix or a suffix is the prefix or suffix of the lower-cased string. */
  lemma ToLowerSlices(s: string, k: nat)
    requires k <= |s|
    ensures ToLower(s[..k]) == ToLower(s)[..k]
    ensures ToLower(s[k..]) == ToLower(s)[k..]
  {
  }

  /** The part of `s` after the last `sep` (all of `s` when `sep` does not occur). */
  function AfterLast(s: string, sep: char): (r: string)
    ensures |r| <= |s| && r == s[|s| - |r|..]
    ensures sep !in r
    ensures |r| < |s| ==> s[|s| - |r| - 1] == sep
    decreases |s|
  {
    if s == [] then []
    else if s[|s| - 1] == sep then []
    else
      var init := s[..|s| - 1];
      var tail := AfterLast(init, sep);
      assert s[|s| - |tail| - 1..] == init[|init| - |tail|..] + [s[|s| - 1]];
      tail + [s[|s| - 1]]
  }

  /** The part of `s` before the first `sep` (all of `s` when `sep` does not occur). */
  function BeforeFirst(s: string, sep: char): (r: string)
    ensures |r| <= |s| && r == s[..|r|]
    ensures sep !in r
    ensures |r| < |s| ==> s[|r|] == sep
    decreases |s|
  {
    if s == [] then []
    else if s[0] == sep then []
    else [s[0]] + BeforeFirst(s[1..], sep)
  }

  /** Splitting at the last separator recovers a separator-free tail. */
  lemma {:induction false} AfterLastOfJoin(a: string, sep: char, b: string)
    requires sep !in b
    ensures AfterLast(a + [sep] + b, sep) == b
    decreases |b|
  {
    var s := a + [sep] + b;
    if b == [] {
      assert s[|s| - 1] == sep;
    } else {
      assert s[..|s| - 1] == a + [sep] + b[..|b| - 1];
      AfterLastOfJoin(a, sep, b[..|b| - 1]);
      assert b == b[..|b| - 1] + [b[|b| - 1]];
    }
  }

  /** Splitting at the first separator recovers a separator-free head. */
  lemma {:induction false} BeforeFirstOfJoin(a: string, sep: char, b: string)
    requires sep !in a
    ensures BeforeFirst(a + [sep] + b, sep) == a
    decreases |a|
  {
    var s := a + [sep] + b;
    if a == [] {
      assert s[0] == sep;
    } else {
      assert s[1..] == a[1..] + [sep] + b;
      BeforeFirstOfJoin(a[1..], sep, b);
      assert a == [a[0]] + a[1..];
    }
  }
}
