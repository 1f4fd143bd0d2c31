/** The JavaScript string and array primitives the search controller is built
    from, over strings as sequences of characters and over sequences.
    Each function follows the ECMAScript definition of the method it is named
    after, for the argument shapes the controller uses. */
module JsString {

  function Min(a: int, b: int): int { if a <= b then a else b }
  function Max(a: int, b: int): int { if a <= b then b else a }

  /** Number of occurrences of `c` in `s`. */
  function Count(s: string, c: char): nat {
    if s == [] then 0 else (if s[0] == c then 1 else 0) + Count(s[1..], c)
  }

  /** Counting is additive over concatenation. */
  lemma {:induction false} CountConcat(a: string, b: string, c: char)
    ensures Count(a + b, c) == Count(a, c) + Count(b, c)
    decreases |a|
  {
    if a == [] {
      assert a + b == b;
    } else {
      assert (a + b)[0] == a[0] && (a + b)[1..] == a[1..] + b;
      CountConcat(a[1..], b, c);
    }
  }

  /** A string without `c` counts none. */
  lemma {:induction false} CountNone(s: string, c: char)
    requires forall i :: 0 <= i < |s| ==> s[i] != c
    ensures Count(s, c) == 0
    decreases |s|
  {
    if s != [] {
      CountNone(s[1..], c);
    }
  }

  // ---------------------------------------------------------------------------
  // String.prototype.split and Array.prototype.join
  // ---------------------------------------------------------------------------

  /** `s.split(c)` for a one-character separator: the pieces between the
      occurrences of `c`; there is always one piece more than there are
      separators, so even the empty string gives `[""]`. */
  function Split(s: string, c: char): (r: seq<string>)
    ensures |r| >= 1
    decreases |s|
  {
    if |s| == 0 then [""]
    else
      var rest := Split(s[1..], c);
      if s[0] == c then [""] + rest
      else [[s[0]] + rest[0]] + rest[1..]
  }

  /** One occurrence makes the count positive. */
  lemma {:induction false} CountPositive(s: string, c: char, j: nat)
    requires j < |s| && s[j] == c
    ensures Count(s, c) >= 1
    decreases |s|
  {
    if j > 0 {
      CountPositive(s[1..], c, j - 1);
    }
  }

  /** A character at `f` with no separator up to it lies in the first piece,
      at index `f`. */
  lemma {:induction false} SplitFirstPieceAt(s: string, c: char, f: nat)
    requires f < |s|
    requires forall i :: 0 <= i <= f ==> s[i] != c
    ensures f < |Split(s, c)[0]| && Split(s, c)[0][f] == s[f]
    decreases f
  {
    var rest := Split(s[1..], c);
    assert Split(s, c)[0] == [s[0]] + rest[0];
    if f > 0 {
      SplitFirstPieceAt(s[1..], c, f - 1);
      assert s[1..][f - 1] == s[f];
    }
  }

  /** A character at `f` that is not the separator, in the run of
      non-separators starting at `b` (the string's start or just after a
      separator), lies in the piece numbered by the separators before `f`, at
      offset `f - b` in it. */
  lemma {:induction false} SplitPieceAt(s: string, c: char, f: nat, b: nat)
    requires b <= f < |s|
    requires forall i :: b <= i <= f ==> s[i] != c
    requires b == 0 || s[b - 1] == c
    ensures Count(s[..f], c) < |Split(s, c)|
    ensures f - b < |Split(s, c)[Count(s[..f], c)]|
    ensures Split(s, c)[Count(s[..f], c)][f - b] == s[f]
    decreases b
  {
    if b == 0 {
      var before := s[..f];
      forall i | 0 <= i < |before| ensures before[i] != c {
        assert before[i] == s[i];
      }
      CountNone(before, c);
      SplitFirstPieceAt(s, c, f);
    } else {
      var t := s[1..];
      var rest := Split(t, c);
      assert s[..f] == [s[0]] + t[..f - 1];
      CountConcat([s[0]], t[..f - 1], c);
      assert t[f - 1] == s[f];
      if b >= 2 {
        assert t[b - 2] == s[b - 1];
      }
      SplitPieceAt(t, c, f - 1, b - 1);
      if s[0] == c {
        assert Split(s, c) == [""] + rest;
      } else {
        assert t[..f - 1][b - 2] == c;
        CountPositive(t[..f - 1], c, b - 2);
        assert Split(s, c) == [[s[0]] + rest[0]] + rest[1..];
      }
    }
  }

  /** `split` yields one piece more than there are separators, and no piece
      contains the separator. */
  lemma {:induction false} SplitPieces(s: string, c: char)
    ensures |Split(s, c)| == Count(s, c) + 1
    ensures forall i :: 0 <= i < |Split(s, c)| ==> c !in Split(s, c)[i]
    decreases |s|
  {
    if |s| > 0 {
      SplitPieces(s[1..], c);
    }
  }

  /** `s.split('')`: one single-character string per character (none for ""). */
  function Chars(s: string): seq<string> {
    seq(|s|, i requires 0 <= i < |s| => [s[i]])
  }

  /** `ws.join(sep)`. */
  function Join(ws: seq<string>, sep: string): string {
    if |ws| == 0 then "" else if |ws| == 1 then ws[0] else ws[0] + sep + Join(ws[1..], sep)
  }

  /** Joining a word in front of a non-empty list puts one separator after it. */
  lemma {:induction false} JoinCons(x: string, ws: seq<string>, sep: string)
    requires |ws| >= 1
    ensures Join([x] + ws, sep) == x + sep + Join(ws, sep)
  {
    assert ([x] + ws)[1..] == ws;
  }

  /** Cutting a word list at an inner index `i` and joining both halves puts
      exactly one separator between them. */
  lemma {:induction false} JoinSplitAt(ws: seq<string>, i: nat, sep: string)
    requires 0 < i < |ws|
    ensures Join(ws, sep) == Join(ws[..i], sep) + sep + Join(ws[i..], sep)
    decreases i
  {
    if i > 1 {
      JoinSplitAt(ws[1..], i - 1, sep);
      assert ws[1..][..i - 1] == ws[..i][1..];
      assert ws[1..][i - 1..] == ws[i..];
    }
  }

  /** Cutting a word list at two inner indices and joining the three runs
      puts exactly one separator between consecutive runs. */
  lemma {:induction false} JoinThree(ws: seq<string>, i: nat, j: nat, sep: string)
    requires 0 < i < j < |ws|
    ensures Join(ws, sep) == Join(ws[..i], sep) + sep + Join(ws[i..j], sep) + sep + Join(ws[j..], sep)
  {
    JoinSplitAt(ws, i, sep);
    JoinSplitAt(ws[i..], j - i, sep);
    assert ws[i..][..j - i] == ws[i..j];
    assert ws[i..][j - i..] == ws[j..];
  }

  /** Splitting on a character and joining with it gives back the string. */
  lemma {:induction false} SplitJoin(s: string, c: char)
    ensures Join(Split(s, c), [c]) == s
    decreases |s|
  {
    if |s| > 0 {
      var rest := Split(s[1..], c);
      SplitJoin(s[1..], c);
      if s[0] == c {
        assert Split(s, c) == [""] + rest;
        assert ([""] + rest)[1..] == rest;
        assert s == [c] + s[1..];
      } else if |rest| == 1 {
        assert Split(s, c) == [[s[0]] + rest[0]];
        assert s == [s[0]] + s[1..];
      } else {
        var w := [s[0]] + rest[0];
        assert Split(s, c) == [w] + rest[1..];
        JoinCons(w, rest[1..], [c]);
        JoinCons(rest[0], rest[1..], [c]);
        assert [rest[0]] + rest[1..] == rest;
        assert s == [s[0]] + s[1..];
      }
    }
  }

  /** Joining the characters with "" gives back the string. */
  lemma {:induction false} CharsJoin(s: string)
    ensures Join(Chars(s), "") == s
    decreases |s|
  {
    if |s| > 1 {
      CharsJoin(s[1..]);
      assert Chars(s)[1..] == Chars(s[1..]);
      assert s == [s[0]] + s[1..];
    }
  }

  /** A contiguous run of the characters is the characters of the run. */
  lemma {:induction false} CharsSlice(s: string, i: nat, j: nat)
    requires i <= j <= |s|
    ensures Chars(s)[i..j] == Chars(s[i..j])
  {
    var l, r := Chars(s)[i..j], Chars(s[i..j]);
    assert |l| == |r|;
    forall k | 0 <= k < |l| ensures l[k] == r[k] {
      assert l[k] == [s[i + k]];
    }
  }

  /** Joining a run of the characters with "" gives the same run of the string. */
  lemma {:induction false} JoinCharsRange(s: string, i: nat, j: nat)
    requires i <= j <= |s|
    ensures Join(Chars(s)[i..j], "") == s[i..j]
  {
    CharsSlice(s, i, j);
    CharsJoin(s[i..j]);
  }

  /** Slicing the characters and joining them with "" is slicing the string. */
  lemma {:induction false} JoinCharsSlice(s: string, i: int, j: int)
    ensures Join(Slice(Chars(s), i, j), "") == Slice(s, i, j)
  {
    var k, f := RelativeIndex(i, |s|), RelativeIndex(j, |s|);
    if k < f {
      JoinCharsRange(s, k, f);
    }
  }

  /** The same for a slice to the end. */
  lemma {:induction false} JoinCharsSliceFrom(s: string, j: int)
    ensures Join(SliceFrom(Chars(s), j), "") == SliceFrom(s, j)
  {
    JoinCharsSlice(s, j, |s|);
  }

  // ---------------------------------------------------------------------------
  // Array.prototype.slice and String.prototype.substring
  // ---------------------------------------------------------------------------

  /** Where an index argument of `slice` lands: a negative one counts back from
      the end, and the result is clamped to `[0, len]`. */
  function RelativeIndex(rel: int, len: nat): (k: nat)
    ensures k <= len
  {
    if rel < 0 then (if len + rel < 0 then 0 else len + rel)
    else if rel < len then rel else len
  }

  /** `a.slice(start, end)`. */
  function Slice<T>(a: seq<T>, start: int, end: int): seq<T> {
    var k := RelativeIndex(start, |a|);
    var f := RelativeIndex(end, |a|);
    if k < f then a[k..f] else []
  }

  /** `a.slice(start)`. */
  function SliceFrom<T>(a: seq<T>, start: int): seq<T> {
    Slice(a, start, |a|)
  }

  /** With non-negative arguments in order, `slice` is the plain sub-sequence
      between the two arguments, each capped at the length. */
  lemma {:induction false} SliceNonNegative<T>(a: seq<T>, i: int, j: int)
    requires 0 <= i <= j
    ensures Slice(a, i, j) == a[Min(i, |a|)..Min(j, |a|)]
    ensures SliceFrom(a, j) == a[Min(j, |a|)..]
  {
  }

  /** Slices at `0 <= i <= j` cut the sequence into three consecutive parts. */
  lemma {:induction false} SlicesPartition<T>(a: seq<T>, i: int, j: int)
    requires 0 <= i <= j
    ensures Slice(a, 0, i) + Slice(a, i, j) + SliceFrom(a, j) == a
  {
    SliceNonNegative(a, 0, i);
    SliceNonNegative(a, i, j);
    var x, y := Min(i, |a|), Min(j, |a|);
    assert a[..x] + a[x..y] + a[y..] == a;
  }

  /** The argument clamping of `substring`: negative to 0, past the end to the length. */
  function Clamp(x: int, len: nat): (k: nat)
    ensures k <= len
  {
    if x < 0 then 0 else if x > len then len else x
  }

  /** `s.substring(start, end)`: both arguments clamped, swapped when out of order. */
  function Substring(s: string, start: int, end: int): string {
    var a := Clamp(start, |s|);
    var b := Clamp(end, |s|);
    if a <= b then s[a..b] else s[b..a]
  }

  /** `substring` does not depend on the order of its arguments, and from a
      non-positive start it is a prefix. */
  lemma {:induction false} SubstringSymmetric(s: string, start: int, end: int)
    ensures Substring(s, start, end) == Substring(s, end, start)
    ensures start <= 0 ==> Substring(s, start, end) == s[..Clamp(end, |s|)]
  {
  }

  // ---------------------------------------------------------------------------
  // String.prototype.indexOf and lastIndexOf for a one-character search string
  // ---------------------------------------------------------------------------

  /** First index at or after `k` holding `c`, or -1. */
  function IndexOfFrom(s: string, c: char, k: nat): int
    requires k <= |s|
    decreases |s| - k
  {
    if k == |s| then -1 else if s[k] == c then k else IndexOfFrom(s, c, k + 1)
  }

  /** `s.indexOf(c, position)`: the search starts at `position` clamped to `[0, |s|]`. */
  function IndexOf(s: string, c: char, position: int): int {
    IndexOfFrom(s, c, Clamp(position, |s|))
  }

  lemma {:induction false} IndexOfFromSpec(s: string, c: char, k: nat)
    requires k <= |s|
    ensures var r := IndexOfFrom(s, c, k);
      (r == -1 <==> forall i :: k <= i < |s| ==> s[i] != c) &&
      (r != -1 ==> k <= r < |s| && s[r] == c && forall i :: k <= i < r ==> s[i] != c)
    decreases |s| - k
  {
    if k < |s| && s[k] != c {
      IndexOfFromSpec(s, c, k + 1);
    }
  }

  /** `indexOf` finds the first `c` at or after the (clamped) position, and -1
      exactly when there is none. */
  lemma {:induction false} IndexOfSpec(s: string, c: char, position: int)
    ensures var r := IndexOf(s, c, position); var k := Clamp(position, |s|);
      (r == -1 <==> forall i :: k <= i < |s| ==> s[i] != c) &&
      (r != -1 ==> k <= r < |s| && s[r] == c && forall i :: k <= i < r ==> s[i] != c)
  {
    IndexOfFromSpec(s, c, Clamp(position, |s|));
  }

  /** Largest index at or before `k` holding `c`, or -1. */
  function LastIndexOfAt(s: string, c: char, k: int): int
    requires -1 <= k < |s|
    decreases k + 1
  {
    if k < 0 then -1 else if s[k] == c then k else LastIndexOfAt(s, c, k - 1)
  }

  /** `s.lastIndexOf(c, position)`: the search runs backwards from `position`
      clamped to `[0, |s|]`, and from no further than the last index. */
  function LastIndexOf(s: string, c: char, position: int): int {
    var start := Clamp(position, |s|);
    LastIndexOfAt(s, c, if start < |s| then start else |s| - 1)
  }

  lemma {:induction false} LastIndexOfAtSpec(s: string, c: char, k: int)
    requires -1 <= k < |s|
    ensures var r := LastIndexOfAt(s, c, k);
      (r == -1 <==> forall i :: 0 <= i <= k ==> s[i] != c) &&
      (r != -1 ==> 0 <= r <= k && s[r] == c && forall i :: r < i <= k ==> s[i] != c)
    decreases k + 1
  {
    if k >= 0 && s[k] != c {
      LastIndexOfAtSpec(s, c, k - 1);
    }
  }

  /** `lastIndexOf` finds the last `c` at or before `max(position, 0)`, and -1
      exactly when there is none. */
  lemma {:induction false} LastIndexOfSpec(s: string, c: char, position: int)
    ensures var r := LastIndexOf(s, c, position); var k := Max(position, 0);
      (r == -1 <==> forall i :: 0 <= i < |s| && i <= k ==> s[i] != c) &&
      (r != -1 ==> 0 <= r < |s| && r <= k && s[r] == c &&
                   forall i :: r < i < |s| && i <= k ==> s[i] != c)
  {
    var start := Clamp(position, |s|);
    LastIndexOfAtSpec(s, c, if start < |s| then start else |s| - 1);
  }

  // ---------------------------------------------------------------------------
  // String.prototype.trim
  // ---------------------------------------------------------------------------

  /** The ECMAScript WhiteSpace and LineTerminator code points that `trim` removes. */
  predicate IsWhitespace(c: char) {
    c == '\t' || c == '\n' || c == '\U{000B}' || c == '\U{000C}' || c == '\r' ||
    c == ' ' || c == '\U{00A0}' || c == '\U{1680}' ||
    ('\U{2000}' <= c <= '\U{200A}') ||
    c == '\U{2028}' || c == '\U{2029}' || c == '\U{202F}' || c == '\U{205F}' ||
    c == '\U{3000}' || c == '\U{FEFF}'
  }

  /** The first index at or after `i` that does not hold whitespace. */
  function TrimStartIndex(s: string, i: nat): (k: nat)
    requires i <= |s|
    ensures i <= k <= |s|
    decreases |s| - i
  {
    if i < |s| && IsWhitespace(s[i]) then TrimStartIndex(s, i + 1) else i
  }

  /** The index just past the last non-whitespace character before `j`. */
  function TrimEndIndex(s: string, j: nat): (k: nat)
    requires j <= |s|
    ensures k <= j
  {
    if j > 0 && IsWhitespace(s[j - 1]) then TrimEndIndex(s, j - 1) else j
  }

  lemma {:induction false} TrimStartIndexSpec(s: string, i: nat)
    requires i <= |s|
    ensures var k := TrimStartIndex(s, i);
      (forall m :: i <= m < k ==> IsWhitespace(s[m])) && (k < |s| ==> !IsWhitespace(s[k]))
    decreases |s| - i
  {
    if i < |s| && IsWhitespace(s[i]) {
      TrimStartIndexSpec(s, i + 1);
    }
  }

  lemma {:induction false} TrimEndIndexSpec(s: string, j: nat)
    requires j <= |s|
    ensures var k := TrimEndIndex(s, j);
      (forall m :: k <= m < j ==> IsWhitespace(s[m])) && (k > 0 ==> !IsWhitespace(s[k - 1]))
  {
    if j > 0 && IsWhitespace(s[j - 1]) {
      TrimEndIndexSpec(s, j - 1);
    }
  }

  /** `s.trimStart()`: the suffix left after the leading whitespace. */
  function TrimStart(s: string): string {
    s[TrimStartIndex(s, 0)..]
  }

  /** `s.trimEnd()`: the prefix left before the trailing whitespace. */
  function TrimEnd(s: string): string {
    s[..TrimEndIndex(s, |s|)]
  }

  lemma {:induction false} TrimStartSpec(s: string)
    ensures var r := TrimStart(s);
      |r| <= |s| && r == s[|s| - |r|..] &&
      (forall i :: 0 <= i < |s| - |r| ==> IsWhitespace(s[i])) &&
      (|r| > 0 ==> !IsWhitespace(r[0]))
  {
    TrimStartIndexSpec(s, 0);
  }

  lemma {:induction false} TrimEndSpec(s: string)
    ensures var r := TrimEnd(s);
      |r| <= |s| && r == s[..|r|] &&
      (forall i :: |r| <= i < |s| ==> IsWhitespace(s[i])) &&
      (|r| > 0 ==> !IsWhitespace(r[|r| - 1]))
  {
    TrimEndIndexSpec(s, |s|);
  }

  /** `s.trim()`. */
  function Trim(s: string): string {
    TrimEnd(TrimStart(s))
  }

  /** `trim` keeps a contiguous piece of `s` that neither starts nor ends with
      whitespace, and drops only whitespace around it. */
  lemma {:induction false} TrimSpec(s: string)
    ensures var r := Trim(s); var k := |s| - |TrimStart(s)|;
      0 <= k && k + |r| <= |s| && r == s[k..k + |r|] &&
      (forall i :: 0 <= i < k ==> IsWhitespace(s[i])) &&
      (forall i :: k + |r| <= i < |s| ==> IsWhitespace(s[i])) &&
      (|r| > 0 ==> !IsWhitespace(r[0]) && !IsWhitespace(r[|r| - 1]))
  {
    var t := TrimStart(s);
    var r := TrimEnd(t);
    var k := |s| - |t|;
    TrimStartSpec(s);
    TrimEndSpec(t);
    assert r == t[..|r|];
    forall i | k + |r| <= i < |s| ensures IsWhitespace(s[i]) {
      assert s[i] == t[i - k];
    }
  }

  /** A string that neither starts nor ends with whitespace is its own trim. */
  lemma {:induction false} TrimUnchanged(s: string)
    requires s != [] ==> !IsWhitespace(s[0]) && !IsWhitespace(s[|s| - 1])
    ensures Trim(s) == s
  {
    TrimSpec(s);
  }

  // ---------------------------------------------------------------------------
  // String.prototype.search, for patterns of literal characters and '.'
  // ---------------------------------------------------------------------------

  /** The characters a regular-expression `.` does not match. */
  predicate IsLineTerminator(c: char) {
    c == '\n' || c == '\r' || c == '\U{2028}' || c == '\U{2029}'
  }

  /** One pattern character against one string character: `.` matches any
      character but a line terminator, every other character only itself. */
  predicate PatternCharMatches(p: char, c: char) {
    if p == '.' then !IsLineTerminator(c) else p == c
  }

  /** The pattern characters from `k` on match `s` from `i + k` on. */
  predicate MatchesFrom(s: string, p: string, i: nat, k: nat)
    requires i + |p| <= |s| && k <= |p|
    decreases |p| - k
  {
    k == |p| || (PatternCharMatches(p[k], s[i + k]) && MatchesFrom(s, p, i, k + 1))
  }

  /** The pattern matches `s` starting at index `i`. */
  predicate MatchesAt(s: string, p: string, i: nat) {
    i + |p| <= |s| && MatchesFrom(s, p, i, 0)
  }

  lemma {:induction false} MatchesFromSpec(s: string, p: string, i: nat, k: nat)
    requires i + |p| <= |s| && k <= |p|
    ensures MatchesFrom(s, p, i, k) <==> forall m :: k <= m < |p| ==> PatternCharMatches(p[m], s[i + m])
    decreases |p| - k
  {
    if k < |p| {
      MatchesFromSpec(s, p, i, k + 1);
    }
  }

  /** A match at `i` is a character-by-character match of the whole pattern
      against the text from `i` on. */
  lemma {:induction false} MatchesAtSpec(s: string, p: string, i: nat)
    ensures MatchesAt(s, p, i) <==>
      i + |p| <= |s| && forall k :: 0 <= k < |p| ==> PatternCharMatches(p[k], s[i + k])
  {
    if i + |p| <= |s| {
      MatchesFromSpec(s, p, i, 0);
    }
  }

  function SearchFrom(s: string, p: string, i: nat): int
    requires i <= |s|
    decreases |s| - i
  {
    if MatchesAt(s, p, i) then i else if i == |s| then -1 else SearchFrom(s, p, i + 1)
  }

  /** `s.search(p)`: the index of the first match of `p`, or -1. */
  function Search(s: string, p: string): int {
    SearchFrom(s, p, 0)
  }

  lemma {:induction false} SearchFromSpec(s: string, p: string, i: nat)
    requires i <= |s|
    ensures var r := SearchFrom(s, p, i);
      (r == -1 <==> forall j :: i <= j <= |s| ==> !MatchesAt(s, p, j)) &&
      (r != -1 ==> i <= r && MatchesAt(s, p, r) && forall j :: i <= j < r ==> !MatchesAt(s, p, j))
    decreases |s| - i
  {
    if !MatchesAt(s, p, i) && i < |s| {
      SearchFromSpec(s, p, i + 1);
    }
  }

  /** `search` returns the least index at which the pattern matches, and -1
      exactly when it matches nowhere. */
  lemma {:induction false} SearchSpec(s: string, p: string)
    ensures var r := Search(s, p);
      (r == -1 <==> forall j :: 0 <= j <= |s| ==> !MatchesAt(s, p, j)) &&
      (r != -1 ==> 0 <= r <= |s| - |p| && MatchesAt(s, p, r) &&
                   forall j :: 0 <= j < r ==> !MatchesAt(s, p, j))
  {
    SearchFromSpec(s, p, 0);
  }

  // ---------------------------------------------------------------------------
  // String.prototype.replace with a global one-character pattern
  // ---------------------------------------------------------------------------

  /** `s.replace(new RegExp(a, 'g'), b)` for a literal, non-special `a`:
      every `a` becomes `b`, nothing else changes. */
  function ReplaceAll(s: string, a: char, b: char): (r: string)
    ensures |r| == |s|
  {
    if s == [] then [] else [if s[0] == a then b else s[0]] + ReplaceAll(s[1..], a, b)
  }

  lemma {:induction false} ReplaceAllSpec(s: string, a: char, b: char)
    ensures var r := ReplaceAll(s, a, b);
      forall i :: 0 <= i < |s| ==> r[i] == if s[i] == a then b else s[i]
  {
    if s != [] {
      ReplaceAllSpec(s[1..], a, b);
    }
  }

  /** After replacing every `a` by a different `b`, no `a` is left. */
  lemma {:induction false} ReplaceAllRemoves(s: string, a: char, b: char)
    requires a != b
    ensures a !in ReplaceAll(s, a, b)
  {
    var r := ReplaceAll(s, a, b);
    ReplaceAllSpec(s, a, b);
    forall i | 0 <= i < |r| ensures r[i] != a {
    }
  }
}
