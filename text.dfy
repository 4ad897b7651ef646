/**
 * Python's `str.capitalize` restricted to ASCII case mapping: the first
 * character is upper-cased and every later character lower-cased.
 * Characters outside 'A'..'Z' / 'a'..'z' are treated as uncased.
 */
module Text {

  predicate IsLowerAscii(c: char) { 'a' <= c <= 'z' }
  predicate IsUpperAscii(c: char) { 'A' <= c <= 'Z' }

  function Upper(c: char): (u: char)
    ensures !IsLowerAscii(u)
    ensures IsLowerAscii(c) ==> u as int == c as int - 32
    ensures !IsLowerAscii(c) ==> u == c
  {
    if IsLowerAscii(c) then (c as int - 32) as char else c
  }

  function Lower(c: char): (l: char)
    ensures !IsUpperAscii(l)
    ensures IsUpperAscii(c) ==> l as int == c as int + 32
    ensures !IsUpperAscii(c) ==> l == c
  {
    if IsUpperAscii(c) then (c as int + 32) as char else c
  }

  /** A string already in capitalized form. */
  predicate IsCapitalized(s: string)
  {
    (|s| > 0 ==> !IsLowerAscii(s[0])) && forall k :: 1 <= k < |s| ==> !IsUpperAscii(s[k])
  }

  /** Case mapping never changes the length, and it acts character by character. */
  function Capitalize(s: string): (r: string)
    ensures |r| == |s|
    ensures |s| > 0 ==> r[0] == Upper(s[0])
    ensures forall k :: 1 <= k < |s| ==> r[k] == Lower(s[k])
  {
    if s == [] then []
    else [Upper(s[0])] + seq(|s| - 1, k requires 0 <= k < |s| - 1 => Lower(s[k + 1]))
  }

  /** The result is always in capitalized form. */
  lemma CapitalizeIsCapitalized(s: string)
    ensures IsCapitalized(Capitalize(s))
  {
  }

  /** Capitalizing changes a string exactly when it is not yet capitalized. */
  lemma CapitalizeFixesExactlyCapitalized(s: string)
    ensures Capitalize(s) == s <==> IsCapitalized(s)
  {
    var r := Capitalize(s);
    if IsCapitalized(s) {
      forall k | 0 <= k < |s| ensures r[k] == s[k] {
      }
    } else if |s| > 0 && IsLowerAscii(s[0]) {
      assert r[0] != s[0];
    } else {
      var k :| 1 <= k < |s| && IsUpperAscii(s[k]);
      assert r[k] != s[k];
    }
  }

  /** Capitalizing twice is the same as capitalizing once. */
  lemma CapitalizeIdempotent(s: string)
    ensures Capitalize(Capitalize(s)) == Capitalize(s)
  {
    CapitalizeIsCapitalized(s);
    CapitalizeFixesExactlyCapitalized(Capitalize(s));
  }
}
