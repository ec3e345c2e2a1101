/**
 * The few JavaScript string operations the application relies on, with the
 * semantics of the ECMAScript built-ins they stand for.  Strings are
 * sequences of Unicode scalar values; `CodeUnits` gives the UTF-16 length
 * that JavaScript's `length` reports.
 */
module JsString {
  import opened Wrappers

  /** `s.startsWith(prefix)`. */
  predicate StartsWith(s: string, prefix: string) {
    |prefix| <= |s| && s[..|prefix|] == prefix
  }

  /** Position of the first `c` in `s`, or `|s|` when there is none. */
  function IndexOf(s: string, c: char): (i: nat)
    ensures i <= |s|
    ensures c !in s[..i]
    ensures i < |s| <==> c in s
    ensures i < |s| ==> s[i] == c
  {
    if s == [] then 0
    else if s[0] == c then 0
    else
      assert s[1..][..IndexOf(s[1..], c)] == s[1..1 + IndexOf(s[1..], c)];
      1 + IndexOf(s[1..], c)
  }

  /** `seg` sits in `s` from `start`, contains no `c`, and ends at a `c` or at the end of `s`. */
  predicate SegmentAt(s: string, start: nat, seg: string, c: char) {
    start + |seg| <= |s| && s[start..start + |seg|] == seg && c !in seg
    && (start + |seg| == |s| || s[start + |seg|] == c)
  }

  /** `s.split(c)` for a one-character separator: the pieces between the separators. */
  function Split(s: string, c: char): (pieces: seq<string>)
    ensures |pieces| >= 1
    ensures SegmentAt(s, 0, pieces[0], c)
    decreases |s|
  {
    var i := IndexOf(s, c);
    if i == |s| then [s] else [s[..i]] + Split(s[i + 1..], c)
  }

  lemma SegmentShift(s: string, start: nat, seg: string, c: char)
    requires start <= |s|
    requires SegmentAt(s[start..], 0, seg, c)
    ensures SegmentAt(s, start, seg, c)
  {
    assert s[start..][0..|seg|] == s[start..start + |seg|];
  }

  /**
   * `s.split(c, 2)[1]`: only the first two pieces are kept, so this is the
   * text between the first and the second separator (or the end), and
   * `undefined` when `s` has no separator at all.
   */
  function SplitSecond(s: string, c: char): (r: Option<string>)
    ensures r.Some? <==> c in s
    ensures r.Some? ==> exists i :: 0 <= i < |s| && s[i] == c && c !in s[..i] && SegmentAt(s, i + 1, r.value, c)
  {
    var i := IndexOf(s, c);
    if i == |s| then None
    else
      var seg := Split(s[i + 1..], c)[0];
      SegmentShift(s, i + 1, seg, c);
      Some(seg)
  }

  /** `SplitSecond` is the second piece of the full split, as `split(c, 2)[1]` is. */
  lemma SplitSecondIsSecondPiece(s: string, c: char)
    ensures SplitSecond(s, c) == if |Split(s, c)| < 2 then None else Some(Split(s, c)[1])
  {
  }

  /** `xs.join(sep)`. */
  function Join(xs: seq<string>, sep: string): string {
    if |xs| == 0 then ""
    else if |xs| == 1 then xs[0]
    else xs[0] + sep + Join(xs[1..], sep)
  }

  lemma {:induction false} IndexOfAfterPiece(a: string, c: char, b: string)
    requires c !in a
    ensures IndexOf(a + [c] + b, c) == |a|
  {
    if a != [] {
      assert (a + [c] + b)[1..] == a[1..] + [c] + b;
      IndexOfAfterPiece(a[1..], c, b);
    }
  }

  lemma SplitAfterPiece(a: string, c: char, b: string)
    requires c !in a
    ensures Split(a + [c] + b, c) == [a] + Split(b, c)
  {
    var s := a + [c] + b;
    IndexOfAfterPiece(a, c, b);
    assert s[..|a|] == a;
    assert s[|a| + 1..] == b;
  }

  lemma HeadAndTail<T>(xs: seq<T>)
    requires |xs| > 0
    ensures xs == [xs[0]] + xs[1..]
  {
  }

  /** Splitting a join at its separator gives the pieces back, when no piece holds the separator. */
  lemma {:induction false} SplitJoin(xs: seq<string>, c: char)
    requires |xs| > 0
    requires forall k :: 0 <= k < |xs| ==> c !in xs[k]
    ensures Split(Join(xs, [c]), c) == xs
  {
    assert c !in xs[0];
    if |xs| > 1 {
      var rest := xs[1..];
      assert forall k :: 0 <= k < |rest| ==> c !in rest[k] by {
        forall k | 0 <= k < |rest| ensures c !in rest[k] { assert rest[k] == xs[k + 1]; }
      }
      assert Join(xs, [c]) == xs[0] + [c] + Join(rest, [c]);
      SplitAfterPiece(xs[0], c, Join(rest, [c]));
      SplitJoin(rest, c);
      HeadAndTail(xs);
    } else {
      assert Join(xs, [c]) == xs[0];
      assert IndexOf(xs[0], c) == |xs[0]|;
      HeadAndTail(xs);
    }
  }

  /** The number of UTF-16 code units of `s`, which is what `s.length` counts. */
  function CodeUnits(s: string): (n: nat)
    ensures |s| <= n <= 2 * |s|
  {
    if s == [] then 0
    else (if s[0] as int > 0xFFFF then 2 else 1) + CodeUnits(s[1..])
  }

  /** On text inside the Basic Multilingual Plane (base64 text, for one), the two lengths agree. */
  lemma {:induction false} CodeUnitsOfBmp(s: string)
    requires forall k :: 0 <= k < |s| ==> s[k] as int <= 0xFFFF
    ensures CodeUnits(s) == |s|
  {
    if s != [] {
      CodeUnitsOfBmp(s[1..]);
    }
  }

  /**
   * ECMAScript WhiteSpace and LineTerminator code points, the characters
   * `trim` removes: tab, line feed, vertical tab, form feed, carriage return,
   * space, no-break space, ogham space mark, U+2000 to U+200A, line and
   * paragraph separators, narrow no-break space, medium mathematical space,
   * ideographic space and the byte order mark.
   */
  const WhitespaceChars: set<char> := {'\t', '\n', '\U{000B}', '\U{000C}', '\r', ' ', '\U{00A0}', '\U{1680}',
    '\U{2000}', '\U{2001}', '\U{2002}', '\U{2003}', '\U{2004}', '\U{2005}', '\U{2006}', '\U{2007}', '\U{2008}', '\U{2009}', '\U{200A}',
    '\U{2028}', '\U{2029}', '\U{202F}', '\U{205F}', '\U{3000}', '\U{FEFF}'}

  predicate IsWhitespace(c: char) {
    c in WhitespaceChars
  }

  predicate AllWhitespace(s: string) {
    forall k :: 0 <= k < |s| ==> IsWhitespace(s[k])
  }

  /** The first position at or after `i` whose character is not whitespace, or `|s|`. */
  function LeadingEnd(s: string, i: nat): (n: nat)
    requires i <= |s|
    ensures i <= n <= |s|
    ensures forall k :: i <= k < n ==> IsWhitespace(s[k])
    ensures n < |s| ==> !IsWhitespace(s[n])
    decreases |s| - i
  {
    if i < |s| && IsWhitespace(s[i]) then LeadingEnd(s, i + 1) else i
  }

  /** The position after the last non-whitespace character in `s[lo..j]`, or `lo`. */
  function TrailingStart(s: string, lo: nat, j: nat): (m: nat)
    requires lo <= j <= |s|
    ensures lo <= m <= j
    ensures forall k :: m <= k < j ==> IsWhitespace(s[k])
    ensures m > lo ==> !IsWhitespace(s[m - 1])
    decreases j - lo
  {
    if lo < j && IsWhitespace(s[j - 1]) then TrailingStart(s, lo, j - 1) else j
  }

  /** `s.trim()`: whitespace cut from both ends. */
  function Trim(s: string): string {
    var i := LeadingEnd(s, 0);
    s[i..TrailingStart(s, i, |s|)]
  }

  /**
   * `trim` keeps the longest piece of `s` that neither starts nor ends with
   * whitespace, once only whitespace has been cut from either side; it is
   * empty exactly when `s` is all whitespace.
   */
  lemma TrimSpec(s: string)
    ensures exists i, j :: 0 <= i <= j <= |s| && Trim(s) == s[i..j]
                           && (forall k :: 0 <= k < i ==> IsWhitespace(s[k]))
                           && (forall k :: j <= k < |s| ==> IsWhitespace(s[k]))
    ensures Trim(s) == [] || (!IsWhitespace(Trim(s)[0]) && !IsWhitespace(Trim(s)[|Trim(s)| - 1]))
    ensures Trim(s) == [] <==> AllWhitespace(s)
  {
    var i := LeadingEnd(s, 0);
    var j := TrailingStart(s, i, |s|);
    assert Trim(s) == s[i..j];
    if i < j {
      assert Trim(s)[0] == s[i] && Trim(s)[|Trim(s)| - 1] == s[j - 1];
      assert !IsWhitespace(s[i]);
    } else {
      assert forall k :: 0 <= k < |s| ==> IsWhitespace(s[k]);
    }
  }

  /** Trimming twice is trimming once. */
  lemma TrimIdempotent(s: string)
    ensures Trim(Trim(s)) == Trim(s)
  {
    var t := Trim(s);
    TrimSpec(s);
    assert LeadingEnd(t, 0) == 0;
    assert TrailingStart(t, 0, |t|) == |t|;
    assert t[0..|t|] == t;
  }

  function UpperAsciiChar(c: char): (u: char)
    ensures 'a' <= c <= 'z' ==> u as int == c as int - 32
    ensures !('a' <= c <= 'z') ==> u == c
  {
    if 'a' <= c <= 'z' then (c as int - 32) as char else c
  }

  /** `s.toUpperCase()` restricted to ASCII letters, which is all it is applied to here. */
  function UpperAscii(s: string): (r: string)
    ensures |r| == |s|
    ensures forall k :: 0 <= k < |s| ==> r[k] == UpperAsciiChar(s[k])
  {
    seq(|s|, k requires 0 <= k < |s| => UpperAsciiChar(s[k]))
  }

  /** `s.replace(pat, repl)` with a string pattern: only the first occurrence is replaced. */
  function ReplaceFirst(s: string, pat: string, repl: string): (r: string)
    ensures StartsWith(s, pat) ==> r == repl + s[|pat|..]
    decreases |s|
  {
    if StartsWith(s, pat) then repl + s[|pat|..]
    else if s == [] then s
    else [s[0]] + ReplaceFirst(s[1..], pat, repl)
  }
}
