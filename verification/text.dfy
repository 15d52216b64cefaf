/** The string operations the bot relies on, modelled after Python's `str`
    methods: `strip()`, `upper()`, `lower()`, `startswith()` and
    `split(sep, 1)[1]`. */
module Text {
  import opened Optional

  /** Python's whitespace set for `str.strip()` with no argument: the
      characters for which `str.isspace()` holds. */
  predicate IsSpace(c: char)
  {
    var n := c as int;
    || 9 <= n <= 13          // \t \n \v \f \r
    || 28 <= n <= 32         // file/group/record/unit separators, space
    || n == 0x85 || n == 0xA0 || n == 0x1680
    || 0x2000 <= n <= 0x200A
    || n == 0x2028 || n == 0x2029 || n == 0x202F || n == 0x205F || n == 0x3000
  }

  predicate AllSpace(s: string)
  {
    forall i :: 0 <= i < |s| ==> IsSpace(s[i])
  }

  /** The first index at or after `i` that does not hold whitespace, or
      `|s|` when there is none. */
  function SkipSpaces(s: string, i: nat): (n: nat)
    requires i <= |s|
    ensures i <= n <= |s|
    ensures forall k :: i <= k < n ==> IsSpace(s[k])
    ensures n < |s| ==> !IsSpace(s[n])
    decreases |s| - i
  {
    if i < |s| && IsSpace(s[i]) then SkipSpaces(s, i + 1) else i
  }

  /** The least `m <= j` such that `s[m..j]` is all whitespace. */
  function SkipSpacesBack(s: string, j: nat): (m: nat)
    requires j <= |s|
    ensures m <= j
    ensures forall k :: m <= k < j ==> IsSpace(s[k])
    ensures m > 0 ==> !IsSpace(s[m - 1])
  {
    if j > 0 && IsSpace(s[j - 1]) then SkipSpacesBack(s, j - 1) else j
  }

  /** `s.strip()`: drops leading and trailing whitespace and keeps what lies
      between verbatim. */
  function Strip(s: string): (r: string)
    ensures |r| <= |s|
    ensures r == [] <==> AllSpace(s)
    ensures r != [] ==> !IsSpace(r[0]) && !IsSpace(r[|r| - 1])
    ensures exists a, b :: 0 <= a <= b <= |s| && AllSpace(s[..a]) && AllSpace(s[b..]) && r == s[a..b]
  {
    var a := SkipSpaces(s, 0);
    if a == |s| then
      assert AllSpace(s[..a]) && AllSpace(s[a..]) && [] == s[a..a];
      []
    else
      var b := SkipSpacesBack(s, |s|);
      assert !IsSpace(s[a]);
      s[a..b]
  }

  /** Stripping a stripped string changes nothing. */
  lemma StripIdempotent(s: string)
    ensures Strip(Strip(s)) == Strip(s)
  {
    var r := Strip(s);
    if r != [] {
      assert SkipSpaces(r, 0) == 0;
      assert SkipSpacesBack(r, |r|) == |r|;
      assert r[0..|r|] == r;
    }
  }

  /** `c.upper()` for the ASCII letters; every other character is kept. */
  function UpperChar(c: char): char
  {
    if 'a' <= c <= 'z' then (c as int - 32) as char else c
  }

  /** `c.lower()` for the ASCII letters; every other character is kept. */
  function LowerChar(c: char): char
  {
    if 'A' <= c <= 'Z' then (c as int + 32) as char else c
  }

  /** `s.upper()`: the same length, each character upper-cased in place. */
  function Upper(s: string): (r: string)
    ensures |r| == |s|
    ensures forall i :: 0 <= i < |s| ==> r[i] == UpperChar(s[i])
  {
    if s == [] then [] else [UpperChar(s[0])] + Upper(s[1..])
  }

  /** `s.lower()`: the same length, each character lower-cased in place. */
  function Lower(s: string): (r: string)
    ensures |r| == |s|
    ensures forall i :: 0 <= i < |s| ==> r[i] == LowerChar(s[i])
  {
    if s == [] then [] else [LowerChar(s[0])] + Lower(s[1..])
  }

  /** Lower-casing forgets any upper-casing done before it. */
  lemma LowerOfUpper(s: string)
    ensures Lower(Upper(s)) == Lower(s)
  {
    var a, b := Lower(Upper(s)), Lower(s);
    assert |a| == |b|;
    forall i | 0 <= i < |s| ensures a[i] == b[i] {
      assert Upper(s)[i] == UpperChar(s[i]);
    }
  }

  /** `s.startswith(p)`. */
  predicate HasPrefix(s: string, p: string): (b: bool)
    ensures b <==> |p| <= |s| && s == p + s[|p|..]
  {
    |p| <= |s| && s[..|p|] == p
  }

  /** Index of the first `c` in `s`, or `|s|` when `c` does not occur. */
  function IndexOf(s: string, c: char): (i: nat)
    ensures i <= |s|
    ensures i < |s| ==> s[i] == c
    ensures c !in s[..i]
  {
    if s == [] then 0
    else if s[0] == c then 0
    else
      var j := IndexOf(s[1..], c);
      assert s[..j + 1] == [s[0]] + s[1..][..j];
      1 + j
  }

  /** `s.split(c, 1)[1]`: the text after the first `c`; `None` models the
      `IndexError` raised when `c` does not occur. */
  function AfterFirst(s: string, c: char): (r: Option<string>)
    ensures r.None? <==> c !in s
    ensures r.Some? ==> exists i :: 0 <= i < |s| && s[i] == c && c !in s[..i] && r.value == s[i + 1..]
  {
    var i := IndexOf(s, c);
    if i < |s| then Some(s[i + 1..])
    else
      assert s[..i] == s;
      None
  }

  /** After the `buy_` prefix, the split yields exactly the suffix. */
  lemma AfterFirstOfPrefixed(p: string, x: string, c: char)
    requires p != [] && p[|p| - 1] == c && c !in p[..|p| - 1]
    ensures AfterFirst(p + x, c) == Some(x)
  {
    var s := p + x;
    assert s[..|p| - 1] == p[..|p| - 1];
    var i := IndexOf(s, c);
    assert s[|p| - 1] == c;
    assert s[i + 1..] == x;
  }
}
