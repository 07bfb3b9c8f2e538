/** The string operations the scripts use: `str.endswith`, `str.split('.')[-1]`
    and `str.upper()` (ASCII letters only). */
module Text {

  predicate EndsWith(s: string, suffix: string)
  {
    |suffix| <= |s| && s[|s| - |suffix|..] == suffix
  }

  lemma EndsWithAppend(a: string, b: string)
    ensures EndsWith(a + b, b)
  {
    assert (a + b)[|a + b| - |b|..] == b;
  }

  /** `s.endswith((a, b, ...))`: true when s ends with at least one of the suffixes. */
  predicate EndsWithAny(s: string, suffixes: seq<string>)
  {
    exists k :: 0 <= k < |suffixes| && EndsWith(s, suffixes[k])
  }

  /** `s.split('.')[-1]`: the text after the last dot, or all of s when it has no dot. */
  function AfterLastDot(s: string): (r: string)
    ensures '.' !in r
    ensures EndsWith(s, r)
    ensures '.' !in s ==> r == s
    ensures '.' in s ==> |r| < |s| && s[|s| - |r| - 1] == '.'
  {
    if s == [] then []
    else if s[|s| - 1] == '.' then []
    else
      var init := s[..|s| - 1];
      assert s == init + [s[|s| - 1]];
      AfterLastDot(init) + [s[|s| - 1]]
  }

  /** A name that ends in a dot followed by a dot-free extension splits to that extension. */
  lemma AfterLastDotOfExtension(s: string, ext: string)
    requires '.' !in ext
    requires EndsWith(s, "." + ext)
    ensures AfterLastDot(s) == ext
  {
    var r := AfterLastDot(s);
    var dot := |s| - |ext| - 1;
    assert s[dot] == '.' by {
      assert s[dot..] == "." + ext;
    }
    assert '.' in s;
    assert s[|s| - |ext|..] == ext by {
      assert s[dot..] == "." + ext;
    }
  }

  function UpperChar(c: char): char
  {
    if 'a' <= c <= 'z' then (c as int - 32) as char else c
  }

  /** `s.upper()` on ASCII text: every lower-case letter is replaced by its capital. */
  function Upper(s: string): (r: string)
    ensures |r| == |s|
    ensures forall i :: 0 <= i < |s| ==> r[i] == UpperChar(s[i])
  {
    seq(|s|, i requires 0 <= i < |s| => UpperChar(s[i]))
  }
}
