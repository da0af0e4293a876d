/** The few Python `str` operations the three services rely on, with Python's meaning:
    `s.startswith(p)`, `s.endswith(p)`, `p in s`, `s.lower()`, `s.strip()` (for emptiness
    only), `s.replace(old, new)` and `str(n)` for a non-negative integer. */
module PyStr {

  /** `s.startswith(p)` */
  predicate StartsWith(s: string, p: string)
    ensures StartsWith(s, p) <==> |p| <= |s| && s[..|p|] == p
  {
    p <= s
  }

  /** `s.endswith(suffix)` */
  predicate EndsWith(s: string, suffix: string)
    ensures EndsWith(s, suffix) ==> |suffix| <= |s|
    ensures suffix == [] ==> EndsWith(s, suffix)
  {
    |suffix| <= |s| && s[|s| - |suffix|..] == suffix
  }

  lemma EndsWithAppend(s: string, suffix: string)
    ensures EndsWith(s + suffix, suffix)
  {
    assert (s + suffix)[|s|..] == suffix;
  }

  /** `sub in s`: some window of `s` equals `sub`. */
  predicate Contains(s: string, sub: string)
    ensures Contains(s, sub) ==> |sub| <= |s|
    ensures sub == [] ==> Contains(s, sub)
    decreases |s|
  {
    StartsWith(s, sub) || (s != [] && Contains(s[1..], sub))
  }

  /** `Contains` agrees with the window formulation of substring search. */
  lemma {:induction false} ContainsAt(s: string, sub: string, i: nat)
    requires i + |sub| <= |s| && s[i..i + |sub|] == sub
    ensures Contains(s, sub)
    decreases i
  {
    if i == 0 {
      assert sub <= s;
    } else {
      assert s[1..][i - 1..i - 1 + |sub|] == s[i..i + |sub|];
      ContainsAt(s[1..], sub, i - 1);
    }
  }

  lemma {:induction false} ContainsShorter(s: string, sub: string)
    requires Contains(s, sub)
    ensures |sub| <= |s|
    decreases |s|
  {
    if !StartsWith(s, sub) {
      ContainsShorter(s[1..], sub);
    }
  }

  /** If `big` occurs in `s`, every substring of `big` occurs in `s` too: the
      reason a search for "male" also finds "female". */
  lemma {:induction false} ContainsTransitive(s: string, big: string, small: string)
    requires Contains(s, big) && Contains(big, small)
    ensures Contains(s, small)
    decreases |s|
  {
    if StartsWith(s, big) {
      var j := SubstringIndex(big, small);
      assert s[j..j + |small|] == big[j..j + |small|];
      ContainsAt(s, small, j);
    } else {
      ContainsTransitive(s[1..], big, small);
    }
  }

  /** The position of an occurrence of `sub` in `s`. */
  lemma {:induction false} SubstringIndex(s: string, sub: string) returns (i: nat)
    requires Contains(s, sub)
    ensures i + |sub| <= |s| && s[i..i + |sub|] == sub
    decreases |s|
  {
    if StartsWith(s, sub) {
      i := 0;
    } else {
      var j := SubstringIndex(s[1..], sub);
      assert s[1..][j..j + |sub|] == s[j + 1..j + 1 + |sub|];
      i := j + 1;
    }
  }

  /** `sub` occurs in `s` at position `i`. */
  predicate OccursAt(s: string, sub: string, i: nat) {
    i + |sub| <= |s| && s[i..i + |sub|] == sub
  }

  /** `sub in s` holds exactly when some window of `s` equals `sub`. */
  lemma ContainsIffWindow(s: string, sub: string)
    ensures Contains(s, sub) <==> exists i: nat :: OccursAt(s, sub, i)
  {
    if Contains(s, sub) {
      var i := SubstringIndex(s, sub);
      assert OccursAt(s, sub, i);
    }
    forall i: nat | OccursAt(s, sub, i)
      ensures Contains(s, sub)
    {
      ContainsAt(s, sub, i);
    }
  }

  /** `any(word in s for word in words)` */
  predicate ContainsAny(s: string, words: seq<string>) {
    exists k :: 0 <= k < |words| && Contains(s, words[k])
  }

  /** Python's `str.lower()` on one character, exact for every character whose lower case
      contains an ASCII character: A-Z, KELVIN SIGN (to 'k') and LATIN CAPITAL LETTER I
      WITH DOT ABOVE (to 'i' followed by COMBINING DOT ABOVE). Every other character is
      kept; Python maps some of them to other non-ASCII characters, which changes no
      comparison with the ASCII words used by the services. */
  function LowerChar(c: char): (r: string)
    ensures '.' in r <==> c == '.'
    ensures 'A' <= c <= 'Z' ==> r == [c - 'A' + 'a']
    ensures ' ' <= c <= '@' || '[' <= c <= '~' ==> r == [c]
  {
    if 'A' <= c <= 'Z' then [c - 'A' + 'a']
    else if c == '\U{212A}' then ['k']
    else if c == '\U{0130}' then ['i', '\U{0307}']
    else [c]
  }

  /** `s.lower()` */
  function Lower(s: string): (r: string)
    ensures '.' in r <==> '.' in s
    decreases |s|
  {
    if s == [] then [] else LowerChar(s[0]) + Lower(s[1..])
  }

  /** Lower-casing works character by character. */
  lemma {:induction false} LowerAppend(a: string, b: string)
    ensures Lower(a + b) == Lower(a) + Lower(b)
    decreases |a|
  {
    if a == [] {
      assert a + b == b;
    } else {
      assert (a + b)[0] == a[0];
      assert (a + b)[1..] == a[1..] + b;
      LowerAppend(a[1..], b);
      assert Lower(a + b) == LowerChar(a[0]) + (Lower(a[1..]) + Lower(b));
    }
  }

  /** Characters for which Python's `str.isspace()` holds; `strip()` removes exactly these
      from both ends. */
  predicate IsSpace(c: char)
    ensures c == ' ' || c == '\t' || c == '\n' || c == '\r' ==> IsSpace(c)
    ensures '!' <= c <= '~' ==> !IsSpace(c)
  {
    || '\t' <= c <= '\r'
    || '\U{1C}' <= c <= ' '
    || c == '\U{85}' || c == '\U{A0}' || c == '\U{1680}'
    || '\U{2000}' <= c <= '\U{200A}'
    || c == '\U{2028}' || c == '\U{2029}' || c == '\U{202F}' || c == '\U{205F}' || c == '\U{3000}'
  }

  /** `not s.strip()`: stripping leaves nothing, so every character is whitespace. */
  predicate IsBlank(s: string)
    ensures s == [] ==> IsBlank(s)
    ensures (exists i :: 0 <= i < |s| && '!' <= s[i] <= '~') ==> !IsBlank(s)
  {
    forall i :: 0 <= i < |s| ==> IsSpace(s[i])
  }

  /** `s.replace(old, new)`: every occurrence of `pattern` (`old`), found left to right without
      overlap, is replaced by `replacement` (`new`). */
  function Replace(s: string, pattern: string, replacement: string): (r: string)
    requires pattern != []
    ensures |pattern| == |replacement| ==> |r| == |s|
    decreases |s|
  {
    if |s| < |pattern| then s
    else if StartsWith(s, pattern) then replacement + Replace(s[|pattern|..], pattern, replacement)
    else [s[0]] + Replace(s[1..], pattern, replacement)
  }

  /** `str(n)` for a non-negative integer: its decimal digits, most significant first. */
  function DecimalString(n: nat): (r: string)
    ensures r != []
    ensures forall i :: 0 <= i < |r| ==> '0' <= r[i] <= '9'
  {
    if n < 10 then [Digit(n)] else DecimalString(n / 10) + [Digit(n % 10)]
  }

  function Digit(d: nat): (c: char)
    requires d < 10
    ensures '0' <= c <= '9'
  {
    '0' + d as char
  }
}
