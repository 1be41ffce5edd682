/** The few `java.lang.String` operations the core uses, over `seq<char>`, ASCII only. */
module Text {

  /** `s.startsWith(prefix)`. */
  predicate StartsWith(s: string, prefix: string) {
    |prefix| <= |s| && s[..|prefix|] == prefix
  }

  /** `s.lastIndexOf(c)`: the last position holding `c`, or -1. */
  function LastIndexOf(s: string, c: char): (r: int)
    ensures -1 <= r < |s|
    ensures r >= 0 ==> s[r] == c
    ensures forall j :: r < j < |s| ==> s[j] != c
  {
    LastIndexBefore(s, c, |s|)
  }

  /** The last position below `n` holding `c`, or -1. */
  function LastIndexBefore(s: string, c: char, n: nat): (r: int)
    requires n <= |s|
    ensures -1 <= r < n
    ensures r >= 0 ==> s[r] == c
    ensures forall j :: r < j < n ==> s[j] != c
  {
    if n == 0 then -1
    else if s[n - 1] == c then n - 1
    else LastIndexBefore(s, c, n - 1)
  }

  /** `s.substring(s.lastIndexOf(c) + 1)`: the text after the last `c`, or all of `s` when there is none. */
  function AfterLast(s: string, c: char): (r: string)
    ensures |r| <= |s|
  {
    s[LastIndexOf(s, c) + 1..]
  }

  /** The text after the last `c` holds no `c`, is all of `s` when `s` holds none, and is a suffix of `s` that follows a `c` otherwise. */
  lemma AfterLastMeaning(s: string, c: char)
    ensures c !in AfterLast(s, c)
    ensures c !in s ==> AfterLast(s, c) == s
    ensures c in s ==> |AfterLast(s, c)| < |s| && s[|s| - |AfterLast(s, c)| - 1] == c
    ensures AfterLast(s, c) == s[|s| - |AfterLast(s, c)|..]
  {
    var last := LastIndexOf(s, c);
    var r := AfterLast(s, c);
    assert r == s[last + 1..];
    forall i | 0 <= i < |r| ensures r[i] != c { assert r[i] == s[last + 1 + i]; }
    if c in s {
      var k :| 0 <= k < |s| && s[k] == c;
      assert last >= 0;
    }
  }

  /** The text after the last `c` of `prefix + [c] + name` is `name`, whatever the prefix holds. */
  lemma AfterLastQualified(prefix: string, c: char, name: string)
    requires c !in name
    ensures AfterLast(prefix + [c] + name, c) == name
  {
    var q := prefix + [c] + name;
    assert q[|prefix|] == c;
  }

  /** `s.replace(String.valueOf(from), String.valueOf(to))` for one-character strings. */
  function ReplaceChar(s: string, from: char, to: char): (r: string)
    ensures |r| == |s|
    ensures forall i :: 0 <= i < |s| ==> r[i] == (if s[i] == from then to else s[i])
  {
    seq(|s|, i requires 0 <= i < |s| => if s[i] == from then to else s[i])
  }

  /** ASCII `Character.toUpperCase`. */
  function UpperChar(c: char): char {
    if 'a' <= c <= 'z' then (c as int - 'a' as int + 'A' as int) as char else c
  }

  /** ASCII `Character.toLowerCase`. */
  function LowerChar(c: char): char {
    if 'A' <= c <= 'Z' then (c as int - 'A' as int + 'a' as int) as char else c
  }

  lemma LowerCharIdempotent(c: char)
    ensures LowerChar(LowerChar(c)) == LowerChar(c)
  {
  }

  /** ASCII `String.toLowerCase`. */
  function ToLower(s: string): (r: string)
    ensures |r| == |s|
    ensures forall i :: 0 <= i < |s| ==> r[i] == LowerChar(s[i])
  {
    seq(|s|, i requires 0 <= i < |s| => LowerChar(s[i]))
  }

  /** Lower-casing commutes with taking a suffix. */
  lemma ToLowerSuffix(s: string, i: nat)
    requires i <= |s|
    ensures ToLower(s)[i..] == ToLower(s[i..])
  {
    var l := ToLower(s);
    var a, b := l[i..], ToLower(s[i..]);
    assert |a| == |b|;
    forall k | 0 <= k < |a| ensures a[k] == b[k] {
      assert a[k] == l[i + k] == LowerChar(s[i + k]);
      assert s[i..][k] == s[i + k];
    }
  }

  /** Lower-casing twice is lower-casing once. */
  lemma ToLowerIdempotent(s: string)
    ensures ToLower(ToLower(s)) == ToLower(s)
  {
    var b := ToLower(s);
    var a := ToLower(b);
    forall k | 0 <= k < |a| ensures a[k] == b[k] {
      LowerCharIdempotent(s[k]);
    }
  }
}
