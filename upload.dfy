/** Reading an uploaded list of MC numbers: the file's text is split at line
    breaks (`\n` or `\r\n`), blank lines are dropped and each remaining line
    is trimmed. */
module Upload {
  import opened Text

  function CountChar(s: string, c: char): (n: nat)
    ensures n <= |s|
    decreases |s|
  {
    if s == [] then 0 else (if s[0] == c then 1 else 0) + CountChar(s[1..], c)
  }

  /** `s.split('\n')`: the pieces between line feeds, at least one. */
  function SplitAtLf(s: string): (parts: seq<string>)
    ensures |parts| == CountChar(s, '\n') + 1
    ensures forall i :: 0 <= i < |parts| ==> '\n' !in parts[i]
    decreases |s|
  {
    if s == [] then [""]
    else
      var rest := SplitAtLf(s[1..]);
      if s[0] == '\n' then [""] + rest else [[s[0]] + rest[0]] + rest[1..]
  }

  /** The pieces glued back together with line feeds. */
  function JoinWithLf(parts: seq<string>): (s: string)
    requires |parts| >= 1
    decreases |parts|
  {
    if |parts| == 1 then parts[0] else parts[0] + "\n" + JoinWithLf(parts[1..])
  }

  /** Splitting loses nothing: the pieces joined with line feeds are the
      original text. */
  lemma {:induction false} SplitAtLfJoin(s: string)
    ensures JoinWithLf(SplitAtLf(s)) == s
    decreases |s|
  {
    if s != [] {
      var rest := SplitAtLf(s[1..]);
      SplitAtLfJoin(s[1..]);
      if s[0] == '\n' {
        assert ([""] + rest)[1..] == rest;
      } else {
        var parts := [[s[0]] + rest[0]] + rest[1..];
        if |rest| == 1 {
          assert JoinWithLf(parts) == [s[0]] + rest[0];
        } else {
          assert parts[1..] == rest[1..];
          assert JoinWithLf(rest) == rest[0] + "\n" + JoinWithLf(rest[1..]);
        }
      }
    }
  }

  function DropTrailingCr(p: string): (q: string)
  {
    if p != [] && p[|p| - 1] == '\r' then p[..|p| - 1] else p
  }

  /** `content.split(/\r?\n/)`: split at each line feed, and a carriage
      return just before a line feed belongs to the separator. The last
      piece is followed by no line feed, so it keeps a final `\r`. */
  function SplitLines(content: string): (lines: seq<string>)
    ensures |lines| == CountChar(content, '\n') + 1
    ensures forall i :: 0 <= i < |lines| ==> '\n' !in lines[i]
    ensures forall i :: 0 <= i < |lines| - 1 ==>
      SplitAtLf(content)[i] == lines[i] + (if EndsWithCr(SplitAtLf(content)[i]) then "\r" else "")
    ensures lines[|lines| - 1] == SplitAtLf(content)[|lines| - 1]
  {
    var parts := SplitAtLf(content);
    seq(|parts|, i requires 0 <= i < |parts| =>
      if i < |parts| - 1 then DropTrailingCr(parts[i]) else parts[i])
  }

  predicate EndsWithCr(p: string)
  {
    p != [] && p[|p| - 1] == '\r'
  }

  /** `lines.filter(line => line.trim())`: exactly the lines whose trimmed
      text is non-empty, each as often as it occurs, in their order. */
  function KeepNonBlank(lines: seq<string>): (kept: seq<string>)
    ensures |kept| <= |lines|
    ensures forall l :: multiset(kept)[l] == if JsTrim(l) != "" then multiset(lines)[l] else 0
    decreases |lines|
  {
    if lines == [] then []
    else
      assert lines == [lines[0]] + lines[1..];
      if JsTrim(lines[0]) != "" then [lines[0]] + KeepNonBlank(lines[1..])
      else KeepNonBlank(lines[1..])
  }

  lemma {:induction false} KeepNonBlankIsSubsequence(lines: seq<string>)
    ensures IsSubsequence(KeepNonBlank(lines), lines)
    decreases |lines|
  {
    if lines != [] {
      KeepNonBlankIsSubsequence(lines[1..]);
      if JsTrim(lines[0]) != "" {
        assert KeepNonBlank(lines)[1..] == KeepNonBlank(lines[1..]);
      }
    }
  }

  /** `lines.map(line => line.trim())`. */
  function TrimAll(lines: seq<string>): (trimmed: seq<string>)
    ensures |trimmed| == |lines|
    ensures forall i :: 0 <= i < |lines| ==> trimmed[i] == JsTrim(lines[i])
  {
    seq(|lines|, i requires 0 <= i < |lines| => JsTrim(lines[i]))
  }

  /** The MC numbers read from an uploaded file's text. */
  function ParseUpload(content: string): (mcNumbers: seq<string>)
  {
    TrimAll(KeepNonBlank(SplitLines(content)))
  }

  /** `a` is `b` with some elements left out, the rest kept in order. */
  predicate IsSubsequence(a: seq<string>, b: seq<string>)
    decreases |b|
  {
    a == [] || (b != [] && ((a[0] == b[0] && IsSubsequence(a[1..], b[1..])) || IsSubsequence(a, b[1..])))
  }

  /** The empty strings of `xs` removed, nothing else: every other string
      is kept as often as it occurs. */
  function DropEmpty(xs: seq<string>): (ys: seq<string>)
    ensures forall y :: y in ys <==> y in xs && y != ""
    ensures multiset(ys) == multiset(xs)["" := 0]
    decreases |xs|
  {
    if xs == [] then []
    else
      assert xs == [xs[0]] + xs[1..];
      if xs[0] != "" then [xs[0]] + DropEmpty(xs[1..])
      else DropEmpty(xs[1..])
  }

  lemma {:induction false} DropEmptyIsSubsequence(xs: seq<string>)
    ensures IsSubsequence(DropEmpty(xs), xs)
    decreases |xs|
  {
    if xs != [] {
      DropEmptyIsSubsequence(xs[1..]);
      if xs[0] != "" {
        assert DropEmpty(xs)[1..] == DropEmpty(xs[1..]);
      }
    }
  }

  /** Filtering on the trimmed line and then trimming, as the upload handler
      does, is the same as trimming every line and dropping the empty ones. */
  lemma {:induction false} FilterThenTrim(lines: seq<string>)
    ensures TrimAll(KeepNonBlank(lines)) == DropEmpty(TrimAll(lines))
    decreases |lines|
  {
    if lines != [] {
      FilterThenTrim(lines[1..]);
      assert TrimAll(lines)[1..] == TrimAll(lines[1..]);
      if JsTrim(lines[0]) != "" {
        assert TrimAll([lines[0]] + KeepNonBlank(lines[1..]))
          == [JsTrim(lines[0])] + TrimAll(KeepNonBlank(lines[1..]));
      }
    }
  }

  /** Stripping keeps only characters of the original string. */
  lemma StripWithin(s: string, c: char)
    requires c !in s
    ensures c !in JsTrim(s)
  {
  }

  /** Trimming removes the carriage return the line separator leaves. */
  lemma TrimDropsCr(p: string)
    ensures JsTrim(DropTrailingCr(p)) == JsTrim(p)
  {
    if EndsWithCr(p) {
      assert p == p[..|p| - 1] + "\r";
      StripAppendWs(p[..|p| - 1], "\r", JsWhitespace);
    }
  }

  /** Splitting at `\r?\n` or only at `\n` makes no difference once the
      lines are trimmed: the numbers sent are the non-empty trimmed pieces
      between line feeds, which `SplitAtLfJoin` ties back to the text. */
  lemma ParseUploadBySplit(content: string)
    ensures ParseUpload(content) == DropEmpty(TrimAll(SplitAtLf(content)))
  {
    FilterThenTrim(SplitLines(content));
    TrimAllSplitLines(content);
  }

  /** Each line trims to what its piece between line feeds trims to. */
  lemma TrimAllSplitLines(content: string)
    ensures TrimAll(SplitLines(content)) == TrimAll(SplitAtLf(content))
  {
    var lines, parts := SplitLines(content), SplitAtLf(content);
    forall i | 0 <= i < |parts| ensures JsTrim(lines[i]) == JsTrim(parts[i]) {
      TrimDropsCr(parts[i]);
    }
  }

  /** What the upload handler sends: non-empty, already trimmed strings,
      each from one line (none spans a line break), no more of them than
      the file has lines, in the order of the lines they came from, and each
      non-blank line's trimmed text as often as such lines occur. */
  lemma ParseUploadSpec(content: string)
    ensures var r := ParseUpload(content);
      && (forall i :: 0 <= i < |r| ==> r[i] != "" && JsTrim(r[i]) == r[i] && '\n' !in r[i])
      && |r| <= CountChar(content, '\n') + 1
      && IsSubsequence(r, TrimAll(SplitLines(content)))
      && multiset(r) == multiset(TrimAll(SplitLines(content)))["" := 0]
      && (forall i :: 0 <= i < |SplitLines(content)| && JsTrim(SplitLines(content)[i]) != "" ==>
            JsTrim(SplitLines(content)[i]) in r)
  {
    var lines := SplitLines(content);
    var r := ParseUpload(content);
    FilterThenTrim(lines);
    DropEmptyIsSubsequence(TrimAll(lines));
    forall i | 0 <= i < |r|
      ensures r[i] != "" && JsTrim(r[i]) == r[i] && '\n' !in r[i]
    {
      assert r[i] in DropEmpty(TrimAll(lines));
      var j :| 0 <= j < |lines| && TrimAll(lines)[j] == r[i];
      StripIdempotent(lines[j], JsWhitespace);
      StripWithin(lines[j], '\n');
    }
    forall i | 0 <= i < |lines| && JsTrim(lines[i]) != ""
      ensures JsTrim(lines[i]) in r
    {
      assert TrimAll(lines)[i] == JsTrim(lines[i]);
    }
  }
}
