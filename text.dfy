/** Whitespace stripping as JavaScript's `String.prototype.trim` and Python's
    `str.strip()` do it, and ASCII lower-casing. The two languages disagree
    on which characters are whitespace, so each has its own set. */
module Text {

  /** JavaScript WhiteSpace and LineTerminator code points (the set `trim`
      removes): TAB, LF, VT, FF, CR, SPACE, NBSP, the Zs space separators,
      LINE and PARAGRAPH SEPARATOR, and the byte order mark. */
  const JsWhitespace: set<char> :=
    { '\t', '\n', '\U{000B}', '\U{000C}', '\r', ' ', '\U{00A0}', '\U{1680}',
      '\U{2000}', '\U{2001}', '\U{2002}', '\U{2003}', '\U{2004}', '\U{2005}',
      '\U{2006}', '\U{2007}', '\U{2008}', '\U{2009}', '\U{200A}',
      '\U{2028}', '\U{2029}', '\U{202F}', '\U{205F}', '\U{3000}', '\U{FEFF}' }

  /** The characters for which Python's `str.isspace()` holds (the set
      `str.strip()` removes): it adds the information separators
      U+001C..U+001F and NEL, and leaves out the byte order mark. */
  const PyWhitespace: set<char> :=
    { '\t', '\n', '\U{000B}', '\U{000C}', '\r',
      '\U{001C}', '\U{001D}', '\U{001E}', '\U{001F}', ' ', '\U{0085}', '\U{00A0}', '\U{1680}',
      '\U{2000}', '\U{2001}', '\U{2002}', '\U{2003}', '\U{2004}', '\U{2005}',
      '\U{2006}', '\U{2007}', '\U{2008}', '\U{2009}', '\U{200A}',
      '\U{2028}', '\U{2029}', '\U{202F}', '\U{205F}', '\U{3000}' }

  /** Every character of `s[lo..hi]` is in `ws`. */
  predicate AllIn(s: string, lo: int, hi: int, ws: set<char>)
    requires 0 <= lo && hi <= |s|
  {
    forall k :: lo <= k < hi ==> s[k] in ws
  }

  /** The first index from `i` on whose character is not in `ws` (or `|s|`). */
  function SkipForward(s: string, ws: set<char>, i: nat): (j: nat)
    requires i <= |s|
    ensures i <= j <= |s| && AllIn(s, i, j, ws)
    ensures j < |s| ==> s[j] !in ws
    decreases |s| - i
  {
    if i < |s| && s[i] in ws then SkipForward(s, ws, i + 1) else i
  }

  /** The end of `s[lo..j]` once its trailing characters in `ws` are dropped. */
  function SkipBackward(s: string, ws: set<char>, lo: nat, j: nat): (e: nat)
    requires lo <= j <= |s|
    ensures lo <= e <= j && AllIn(s, e, j, ws)
    ensures e > lo ==> s[e - 1] !in ws
    decreases j
  {
    if j > lo && s[j - 1] in ws then SkipBackward(s, ws, lo, j - 1) else j
  }

  /** `s` without its leading and trailing characters in `ws`. */
  function Strip(s: string, ws: set<char>): (r: string)
  {
    var i := SkipForward(s, ws, 0);
    s[i..SkipBackward(s, ws, i, |s|)]
  }

  /** What stripping means: the result is a slice `s[i..j]` of `s` such that
      everything before `i` and from `j` on is whitespace, and the result
      neither starts nor ends with whitespace. */
  lemma StripIsSlice(s: string, ws: set<char>)
    ensures var r, i := Strip(s, ws), SkipForward(s, ws, 0);
      && i + |r| <= |s| && r == s[i..i + |r|]
      && AllIn(s, 0, i, ws) && AllIn(s, i + |r|, |s|, ws)
      && (r != [] ==> r[0] !in ws && r[|r| - 1] !in ws)
  {
  }

  /** A string without leading or trailing whitespace strips to itself. */
  lemma StripStripped(s: string, ws: set<char>)
    requires s == [] || (s[0] !in ws && s[|s| - 1] !in ws)
    ensures Strip(s, ws) == s
  {
  }

  /** Stripping twice is stripping once. */
  lemma StripIdempotent(s: string, ws: set<char>)
    ensures Strip(Strip(s, ws), ws) == Strip(s, ws)
  {
    StripIsSlice(s, ws);
    StripStripped(Strip(s, ws), ws);
  }

  /** Stripping leaves nothing exactly when every character is whitespace. */
  lemma StripEmptyIff(s: string, ws: set<char>)
    ensures Strip(s, ws) == [] <==> AllIn(s, 0, |s|, ws)
  {
  }

  /** Whitespace appended to a string is stripped away again. */
  lemma StripAppendWs(q: string, t: string, ws: set<char>)
    requires AllIn(t, 0, |t|, ws)
    ensures Strip(q + t, ws) == Strip(q, ws)
  {
    var p := q + t;
    assert forall k :: 0 <= k < |q| ==> p[k] == q[k];
    assert forall k :: |q| <= k < |p| ==> p[k] == t[k - |q|];
    var i, i' := SkipForward(q, ws, 0), SkipForward(p, ws, 0);
    if i == |q| {
      assert AllIn(p, 0, |p|, ws);
    } else {
      assert i' == i;
      var e, e' := SkipBackward(q, ws, i, |q|), SkipBackward(p, ws, i, |p|);
      assert p[i] == q[i];
      assert e' > i;
      assert e' <= |q|;
      assert e' == e;
      assert p[i..e] == q[i..e];
    }
  }

  /** JavaScript `s.trim()`. */
  function JsTrim(s: string): (r: string)
  {
    Strip(s, JsWhitespace)
  }

  /** Python `s.strip()`. */
  function PyStrip(s: string): (r: string)
  {
    Strip(s, PyWhitespace)
  }

  function LowerChar(c: char): (d: char)
  {
    if 'A' <= c <= 'Z' then (c as int + 32) as char else c
  }

  /** `s.toLowerCase()` restricted to the ASCII letters. */
  function Lower(s: string): (r: string)
    ensures |r| == |s|
    ensures forall k :: 0 <= k < |s| ==> r[k] == LowerChar(s[k])
  {
    seq(|s|, k requires 0 <= k < |s| => LowerChar(s[k]))
  }

  /** Lower-casing twice is lower-casing once. */
  lemma LowerIdempotent(s: string)
    ensures Lower(Lower(s)) == Lower(s)
  {
  }
}
