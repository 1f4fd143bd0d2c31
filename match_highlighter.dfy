/** The match highlighter (app/frontend/src/Controller/Search/match-highlighter.js).
    Given a result's Gurmukhi line, a target string (the Gurmukhi itself or a
    transliteration of it) and the query, it splits the target into the words
    before the match, the matched words and the words after. The match is
    located in the vishraam-free Gurmukhi, turned into word indices, and those
    indices are applied to the target's space-separated words, so the target
    only has to agree with the Gurmukhi word for word. */
module MatchHighlighter {
  import opened JsString
  import opened Consts
  import opened TextUtils

  /** The `[ beforeMatch, match, afterMatch ]` triple a highlighter returns. */
  datatype Span = Span(before: string, matched: string, after: string)

  /** The three return values shared by every highlighter: the words before
      index `i`, the words from `i` up to `j` and the words from `j` on, each
      joined with `sep` and followed by one more `sep`. */
  function SpanOfSlices(words: seq<string>, i: int, j: int, sep: string): Span {
    Span(Join(Slice(words, 0, i), sep) + sep,
         Join(Slice(words, i, j), sep) + sep,
         Join(SliceFrom(words, j), sep) + sep)
  }

  /** For `0 <= i <= j` the three parts are joins of the consecutive runs of
      `words` cut at `i` and `j` (each capped at the word count), and those
      runs make up `words` in order. */
  lemma {:induction false} SpanOfSlicesParts(words: seq<string>, i: int, j: int, sep: string)
    requires 0 <= i <= j
    ensures var a, b := Min(i, |words|), Min(j, |words|);
      var s := SpanOfSlices(words, i, j, sep);
      Slice(words, 0, i) + Slice(words, i, j) + SliceFrom(words, j) == words &&
      s.before == Join(words[..a], sep) + sep &&
      s.matched == Join(words[a..b], sep) + sep &&
      s.after == Join(words[b..], sep) + sep
  {
    SlicesPartition(words, i, j);
    SliceNonNegative(words, 0, i);
    SliceNonNegative(words, i, j);
  }

  /** When none of the three runs is empty, concatenating the parts gives back
      the joined words followed by one separator. */
  lemma {:induction false} SpanRoundTrip(words: seq<string>, i: int, j: int, sep: string)
    requires 0 < i < j < |words|
    ensures var s := SpanOfSlices(words, i, j, sep);
      s.before + s.matched + s.after == Join(words, sep) + sep
  {
    SpanOfSlicesParts(words, i, j, sep);
    JoinThree(words, i, j, sep);
    SpanOfRuns(SpanOfSlices(words, i, j, sep), Join(words, sep),
      Join(words[..i], sep), Join(words[i..j], sep), Join(words[j..], sep), sep);
  }

  /** The same for the space-separated words of a line: the parts give back
      the line followed by one space. */
  lemma {:induction false} LineSpanRoundTrip(line: string, i: int, j: int)
    requires 0 < i < j < |Split(line, ' ')|
    ensures var s := SpanOfSlices(Split(line, ' '), i, j, " ");
      s.before + s.matched + s.after == line + " "
  {
    SpanRoundTrip(Split(line, ' '), i, j, " ");
    SplitJoin(line, ' ');
  }

  /** Concatenating three separator-terminated runs. */
  lemma {:induction false} SpanOfRuns(s: Span, joined: string, x: string, y: string, z: string, sep: string)
    requires s == Span(x + sep, y + sep, z + sep)
    requires joined == x + sep + y + sep + z
    ensures s.before + s.matched + s.after == joined + sep
  {
  }

  // ---------------------------------------------------------------------------
  // Full-word mode
  // ---------------------------------------------------------------------------

  /** The intermediate values of `fullWordMatches`, under their names there. */
  datatype FullWordPositions = FullWordPositions(
    baseGurmukhi: string,
    sanitisedQuery: string,
    foundPosition: int,
    matchStartPosition: int,
    wordEndPosition: int,
    matchEndPosition: int,
    wordMatchStart: int,
    wordMatchLength: int)

  /** Where `fullWordMatches` puts the match. Character positions come from the
      vishraam-free line; the word counts are taken over substrings of the
      original `gurmukhi` at those positions. Because `split` always yields a
      piece, the start is never negative and at least one word is matched. */
  function FullWordPositionsOf(query: string, gurmukhi: string, u: Helpers): (p: FullWordPositions)
    ensures p.wordMatchStart >= 0 && p.wordMatchLength >= 1
  {
    var baseGurmukhi := u.stripVishraams(gurmukhi);
    var sanitisedQuery := Trim(query);
    var foundPosition := Search(baseGurmukhi, sanitisedQuery);
    var matchStartPosition := LastIndexOf(baseGurmukhi, ' ', foundPosition);
    var wordEndPosition := IndexOf(baseGurmukhi, ' ', foundPosition + |sanitisedQuery|);
    var matchEndPosition := if wordEndPosition == -1 then |baseGurmukhi| - 1 else wordEndPosition;
    var wordMatchStart := |Split(Trim(Substring(gurmukhi, 0, matchStartPosition)), ' ')| - 1;
    var wordMatchLength := |Split(Trim(Substring(gurmukhi, matchStartPosition, matchEndPosition)), ' ')|;
    FullWordPositions(baseGurmukhi, sanitisedQuery, foundPosition, matchStartPosition,
                      wordEndPosition, matchEndPosition, wordMatchStart, wordMatchLength)
  }

  /** The match starts at the word numbered by the spaces in the trimmed
      original line before `matchStartPosition`, and spans one word more than
      the spaces in the trimmed original line between the two positions. */
  lemma {:induction false} FullWordCounts(query: string, gurmukhi: string, u: Helpers)
    ensures var p := FullWordPositionsOf(query, gurmukhi, u);
      p.wordMatchStart == Count(Trim(Substring(gurmukhi, 0, p.matchStartPosition)), ' ') &&
      p.wordMatchLength ==
        Count(Trim(Substring(gurmukhi, p.matchStartPosition, p.matchEndPosition)), ' ') + 1
  {
    var p := FullWordPositionsOf(query, gurmukhi, u);
    SplitPieces(Trim(Substring(gurmukhi, 0, p.matchStartPosition)), ' ');
    SplitPieces(Trim(Substring(gurmukhi, p.matchStartPosition, p.matchEndPosition)), ' ');
  }

  /** `fullWordMatches( query )( { target, gurmukhi } )`. */
  function FullWordMatches(query: string, target: string, gurmukhi: string, u: Helpers): Span {
    WordSpan(Split(u.stripVishraams(target), ' '), FullWordPositionsOf(query, gurmukhi, u))
  }

  /** The return value of `fullWordMatches` for the target's words and the
      match's word positions. */
  function WordSpan(words: seq<string>, p: FullWordPositions): Span {
    SpanOfSlices(words, p.wordMatchStart, p.wordMatchStart + p.wordMatchLength, " ")
  }

  /** The search runs over the vishraam-free line with the trimmed query and
      finds its first occurrence. */
  lemma {:induction false} FullWordFound(query: string, gurmukhi: string, u: Helpers)
    ensures var p := FullWordPositionsOf(query, gurmukhi, u);
      p.baseGurmukhi == u.stripVishraams(gurmukhi) && p.sanitisedQuery == Trim(query) &&
      (p.foundPosition == -1 <==>
         forall j :: 0 <= j <= |p.baseGurmukhi| ==> !MatchesAt(p.baseGurmukhi, p.sanitisedQuery, j)) &&
      (p.foundPosition >= 0 ==>
         MatchesAt(p.baseGurmukhi, p.sanitisedQuery, p.foundPosition) &&
         forall j :: 0 <= j < p.foundPosition ==> !MatchesAt(p.baseGurmukhi, p.sanitisedQuery, j))
  {
    var p := FullWordPositionsOf(query, gurmukhi, u);
    SearchSpec(p.baseGurmukhi, p.sanitisedQuery);
  }

  /** The backtrack to the start of the word: `matchStartPosition` is the last
      space at or before the found position (read as 0 when there is no match),
      and -1 exactly when there is none, in which case the match starts at
      word 0. */
  lemma {:induction false} FullWordMatchStart(query: string, gurmukhi: string, u: Helpers)
    ensures var p := FullWordPositionsOf(query, gurmukhi, u);
      var g, k := p.baseGurmukhi, Max(p.foundPosition, 0);
      (p.matchStartPosition == -1 <==> forall i :: 0 <= i < |g| && i <= k ==> g[i] != ' ') &&
      (p.matchStartPosition == -1 ==> p.wordMatchStart == 0) &&
      (p.matchStartPosition != -1 ==>
         0 <= p.matchStartPosition < |g| && p.matchStartPosition <= k &&
         g[p.matchStartPosition] == ' ' &&
         forall i :: p.matchStartPosition < i < |g| && i <= k ==> g[i] != ' ')
  {
    var p := FullWordPositionsOf(query, gurmukhi, u);
    LastIndexOfSpec(p.baseGurmukhi, ' ', p.foundPosition);
    if p.matchStartPosition == -1 {
      assert Substring(gurmukhi, 0, -1) == "";
      assert Trim("") == "";
    }
  }

  /** The scan to the end of the word: with `from` the position just past the
      trimmed query, `matchEndPosition` is the first space at or after `from`,
      or the last index of the line when no space follows. */
  lemma {:induction false} FullWordMatchEnd(query: string, gurmukhi: string, u: Helpers)
    ensures var p := FullWordPositionsOf(query, gurmukhi, u);
      var g, from := p.baseGurmukhi, Max(p.foundPosition + |p.sanitisedQuery|, 0);
      (p.wordEndPosition == -1 <==> forall i :: from <= i < |g| ==> g[i] != ' ') &&
      (p.wordEndPosition == -1 ==> p.matchEndPosition == |g| - 1) &&
      (p.wordEndPosition != -1 ==>
         p.matchEndPosition == p.wordEndPosition &&
         from <= p.matchEndPosition < |g| && g[p.matchEndPosition] == ' ' &&
         forall i :: from <= i < p.matchEndPosition ==> g[i] != ' ')
  {
    var p := FullWordPositionsOf(query, gurmukhi, u);
    var g, position := p.baseGurmukhi, p.foundPosition + |p.sanitisedQuery|;
    IndexOfSpec(g, ' ', position);
    assert Clamp(position, |g|) < |g| ==> Clamp(position, |g|) == Max(position, 0);
  }

  /** The parts of a word span, as joins of the runs cut at the match's start
      and end words, capped at the word count. */
  lemma {:induction false} WordSpanParts(words: seq<string>, p: FullWordPositions)
    requires p.wordMatchStart >= 0 && p.wordMatchLength >= 1
    ensures var a := Min(p.wordMatchStart, |words|);
      var b := Min(p.wordMatchStart + p.wordMatchLength, |words|);
      var s := WordSpan(words, p);
      s.before == Join(words[..a], " ") + " " &&
      s.matched == Join(words[a..b], " ") + " " &&
      s.after == Join(words[b..], " ") + " "
  {
    SpanOfSlicesParts(words, p.wordMatchStart, p.wordMatchStart + p.wordMatchLength, " ");
  }

  /** A word span over a line's words whose runs are all cut inside the word
      list gives back the line followed by one space. */
  lemma {:induction false} WordSpanRoundTrip(line: string, p: FullWordPositions)
    requires 0 < p.wordMatchStart && 1 <= p.wordMatchLength
    requires p.wordMatchStart + p.wordMatchLength < |Split(line, ' ')|
    ensures var s := WordSpan(Split(line, ' '), p);
      s.before + s.matched + s.after == line + " "
  {
    LineSpanRoundTrip(line, p.wordMatchStart, p.wordMatchStart + p.wordMatchLength);
  }

  /** The word slices taken from the vishraam-free target's words, at
      `wordMatchStart` and `wordMatchStart + wordMatchLength`, make up those
      words in order. */
  lemma {:induction false} FullWordPartition(query: string, target: string, gurmukhi: string, u: Helpers)
    ensures var p := FullWordPositionsOf(query, gurmukhi, u);
      var words := Split(u.stripVishraams(target), ' ');
      var i, j := p.wordMatchStart, p.wordMatchStart + p.wordMatchLength;
      Slice(words, 0, i) + Slice(words, i, j) + SliceFrom(words, j) == words
  {
    SlicesPartition(Split(u.stripVishraams(target), ' '),
                    FullWordPositionsOf(query, gurmukhi, u).wordMatchStart,
                    FullWordPositionsOf(query, gurmukhi, u).wordMatchStart +
                    FullWordPositionsOf(query, gurmukhi, u).wordMatchLength);
  }

  /** Each of the three parts joins a run of the target's words with single
      spaces and ends in one more space; the runs are cut at the match's word
      indices, capped at the word count. */
  lemma {:induction false} FullWordParts(query: string, target: string, gurmukhi: string, u: Helpers)
    ensures var p := FullWordPositionsOf(query, gurmukhi, u);
      var words := Split(u.stripVishraams(target), ' ');
      var a := Min(p.wordMatchStart, |words|);
      var b := Min(p.wordMatchStart + p.wordMatchLength, |words|);
      var s := FullWordMatches(query, target, gurmukhi, u);
      s.before == Join(words[..a], " ") + " " &&
      s.matched == Join(words[a..b], " ") + " " &&
      s.after == Join(words[b..], " ") + " "
  {
    WordSpanParts(Split(u.stripVishraams(target), ' '), FullWordPositionsOf(query, gurmukhi, u));
  }

  /** When words precede and follow the match, the three parts concatenate to
      the vishraam-free target plus one trailing space. */
  lemma {:induction false} FullWordRoundTrip(query: string, target: string, gurmukhi: string, u: Helpers)
    requires var p := FullWordPositionsOf(query, gurmukhi, u);
      0 < p.wordMatchStart &&
      p.wordMatchStart + p.wordMatchLength < |Split(u.stripVishraams(target), ' ')|
    ensures var s := FullWordMatches(query, target, gurmukhi, u);
      s.before + s.matched + s.after == u.stripVishraams(target) + " "
  {
    WordSpanRoundTrip(u.stripVishraams(target), FullWordPositionsOf(query, gurmukhi, u));
  }

  // ---------------------------------------------------------------------------
  // Full-word mode: the start word as written and as intended
  // ---------------------------------------------------------------------------

  /** The intended start word: the number of spaces up to and including
      `matchStartPosition` in the vishraam-free line, which is the index of
      the word the match starts in; the other positions are as written. */
  function FixedStart(p: FullWordPositions): FullWordPositions {
    p.(wordMatchStart := Count(Slice(p.baseGurmukhi, 0, p.matchStartPosition + 1), ' '))
  }

  /** `fullWordMatches` with the intended start word. Only the start is
      corrected: the word count still ends at `matchEndPosition`, which is
      `baseGurmukhi.length - 1` when no space follows the match, so a match
      reaching the end of the line leaves its last character out of the count. */
  function FullWordMatchesFixed(query: string, target: string, gurmukhi: string, u: Helpers): Span {
    WordSpan(Split(u.stripVishraams(target), ' '), FixedStart(FullWordPositionsOf(query, gurmukhi, u)))
  }

  /** The spaces up to and including the last space at or before a letter at
      `f` are the spaces before `f`. */
  lemma {:induction false} SpacesBeforeWord(g: string, f: int)
    requires 0 <= f < |g| && g[f] != ' '
    ensures var m := LastIndexOf(g, ' ', f);
      Count(Slice(g, 0, m + 1), ' ') == Count(g[..f], ' ')
  {
    var m := LastIndexOf(g, ' ', f);
    LastIndexOfSpec(g, ' ', f);
    assert -1 <= m < f;
    SliceNonNegative(g, 0, m + 1);
    assert g[..f] == g[..m + 1] + g[m + 1..f];
    var between := g[m + 1..f];
    forall i | 0 <= i < |between| ensures between[i] != ' ' {
      assert between[i] == g[m + 1 + i];
    }
    CountNone(between, ' ');
    CountConcat(g[..m + 1], g[m + 1..f], ' ');
  }

  /** A space after a run with no whitespace at either end adds one space to
      the trimmed run's count. */
  lemma {:induction false} SpaceAfterRun(g: string, m: int)
    requires 1 <= m < |g| && g[m] == ' ' && !IsWhitespace(g[0]) && !IsWhitespace(g[m - 1])
    ensures Count(Trim(Substring(g, 0, m)), ' ') + 1 == Count(Slice(g, 0, m + 1), ' ')
  {
    SubstringSymmetric(g, 0, m);
    TrimUnchanged(g[..m]);
    SliceNonNegative(g, 0, m + 1);
    assert g[..m + 1] == g[..m] + [' '];
    CountConcat(g[..m], [' '], ' ');
  }

  /** A letter at `f` lies in the piece numbered by the spaces before it, at
      its distance from the last space at or before it (or from the start). */
  lemma {:induction false} PieceOfLetter(g: string, f: int)
    requires 0 <= f < |g| && g[f] != ' '
    ensures var k, d := Count(g[..f], ' '), f - (LastIndexOf(g, ' ', f) + 1);
      k < |Split(g, ' ')| && 0 <= d < |Split(g, ' ')[k]| && Split(g, ' ')[k][d] == g[f]
  {
    var m := LastIndexOf(g, ' ', f);
    LastIndexOfSpec(g, ' ', f);
    SplitPieceAt(g, ' ', f, m + 1);
  }

  /** With the intended start, when the match begins at a letter of the line,
      the matched run starts at the word holding that letter: the piece
      numbered by the spaces before the found position, which holds the found
      position itself at its distance from `matchStartPosition + 1`. */
  lemma {:induction false} FixedStartIsMatchWord(query: string, gurmukhi: string, u: Helpers)
    requires var p := FullWordPositionsOf(query, gurmukhi, u);
      0 <= p.foundPosition < |p.baseGurmukhi| && p.baseGurmukhi[p.foundPosition] != ' '
    ensures var p := FullWordPositionsOf(query, gurmukhi, u);
      var g, f := p.baseGurmukhi, p.foundPosition;
      var k, d := Count(g[..f], ' '), f - (p.matchStartPosition + 1);
      FixedStart(p).wordMatchStart == k && k < |Split(g, ' ')| &&
      0 <= d < |Split(g, ' ')[k]| && Split(g, ' ')[k][d] == g[f]
  {
    var p := FullWordPositionsOf(query, gurmukhi, u);
    assert p.matchStartPosition == LastIndexOf(p.baseGurmukhi, ' ', p.foundPosition);
    FixedStartOfLetter(p);
  }

  /** The same for any positions whose start is the last space at or before a
      letter at the found position. */
  lemma {:induction false} FixedStartOfLetter(p: FullWordPositions)
    requires 0 <= p.foundPosition < |p.baseGurmukhi| && p.baseGurmukhi[p.foundPosition] != ' '
    requires p.matchStartPosition == LastIndexOf(p.baseGurmukhi, ' ', p.foundPosition)
    ensures var g, f := p.baseGurmukhi, p.foundPosition;
      var k, d := Count(g[..f], ' '), f - (p.matchStartPosition + 1);
      FixedStart(p).wordMatchStart == k && k < |Split(g, ' ')| &&
      0 <= d < |Split(g, ' ')[k]| && Split(g, ' ')[k][d] == g[f]
  {
    SpacesBeforeWord(p.baseGurmukhi, p.foundPosition);
    PieceOfLetter(p.baseGurmukhi, p.foundPosition);
  }

  /** As written, the start word is one short: for a vishraam-free line whose
      match lies past its first word, with no whitespace at the line's start
      or just before the space that opens the match's word, `wordMatchStart`
      is one less than the index of the word holding the found letter, which
      is where the intended start puts it. So the word before the match is
      highlighted and the match's last word is left after it. */
  lemma {:induction false} AsWrittenStartOneShort(query: string, gurmukhi: string, u: Helpers)
    requires u.stripVishraams(gurmukhi) == gurmukhi
    requires var p := FullWordPositionsOf(query, gurmukhi, u);
      0 <= p.foundPosition < |gurmukhi| && gurmukhi[p.foundPosition] != ' ' &&
      1 <= p.matchStartPosition <= p.foundPosition && !IsWhitespace(gurmukhi[0]) &&
      !IsWhitespace(gurmukhi[p.matchStartPosition - 1])
    ensures var p := FullWordPositionsOf(query, gurmukhi, u);
      p.wordMatchStart + 1 == FixedStart(p).wordMatchStart &&
      p.wordMatchStart + 1 == Count(gurmukhi[..p.foundPosition], ' ')
  {
    FullWordCounts(query, gurmukhi, u);
    FullWordMatchStart(query, gurmukhi, u);
    var p := FullWordPositionsOf(query, gurmukhi, u);
    SpaceAfterRun(gurmukhi, p.matchStartPosition);
    assert p.matchStartPosition == LastIndexOf(p.baseGurmukhi, ' ', p.foundPosition);
    FixedStartOfLetter(p);
  }

  /** The parts of the span with the intended start, as joins of the target's
      words cut at the intended start word and the as-written word count. */
  lemma {:induction false} FullWordFixedParts(query: string, target: string, gurmukhi: string, u: Helpers)
    ensures var p := FixedStart(FullWordPositionsOf(query, gurmukhi, u));
      var words := Split(u.stripVishraams(target), ' ');
      var a := Min(p.wordMatchStart, |words|);
      var b := Min(p.wordMatchStart + p.wordMatchLength, |words|);
      var s := FullWordMatchesFixed(query, target, gurmukhi, u);
      s.before == Join(words[..a], " ") + " " &&
      s.matched == Join(words[a..b], " ") + " " &&
      s.after == Join(words[b..], " ") + " "
  {
    WordSpanParts(Split(u.stripVishraams(target), ' '), FixedStart(FullWordPositionsOf(query, gurmukhi, u)));
  }

  /** A word span whose start word lies within the words matches a
      non-empty run of words, and that start word opens the matched part. */
  lemma {:induction false} WordSpanAtStartWord(words: seq<string>, p: FullWordPositions)
    requires p.wordMatchLength >= 1 && 0 <= p.wordMatchStart < |words|
    ensures var k := p.wordMatchStart;
      var b := Min(k + p.wordMatchLength, |words|);
      var s := WordSpan(words, p);
      k < b && s.matched == Join(words[k..b], " ") + " " && words[k] <= s.matched
  {
    var k := p.wordMatchStart;
    var b := Min(k + p.wordMatchLength, |words|);
    WordSpanParts(words, p);
    assert words[k..b][0] == words[k];
  }

  // ---------------------------------------------------------------------------
  // First-letter mode
  // ---------------------------------------------------------------------------

  /** The first-letter projection of the vishraam-free line that
      `firstLetterMatches` searches. */
  function Letters(gurmukhi: string, u: Helpers): string {
    u.toAscii(u.firstLetters(u.stripAccents(u.toUnicode(u.stripVishraams(gurmukhi)))))
  }

  /** Where `firstLetterMatches` finds the accent-free query in the letters. */
  function FirstLetterPosition(query: string, gurmukhi: string, u: Helpers): int {
    Search(Letters(gurmukhi, u), u.stripAccents(query))
  }

  /** `firstLetterMatches( query )( { target, gurmukhi } )`: the match position
      in the letters is used directly as a word index, and the match covers as
      many words as the query has characters. */
  function FirstLetterMatches(query: string, target: string, gurmukhi: string, u: Helpers): Span {
    var words := Split(u.stripVishraams(target), ' ');
    var startPosition := FirstLetterPosition(query, gurmukhi, u);
    var endPosition := startPosition + |query|;
    SpanOfSlices(words, startPosition, endPosition, " ")
  }

  /** When the letters match, the match is at the first index where the
      accent-free query matches them, `.` standing for any one letter. */
  lemma {:induction false} FirstLetterFound(query: string, gurmukhi: string, u: Helpers)
    requires FirstLetterPosition(query, gurmukhi, u) >= 0
    ensures var letters, pattern := Letters(gurmukhi, u), u.stripAccents(query);
      var pos := FirstLetterPosition(query, gurmukhi, u);
      MatchesAt(letters, pattern, pos) &&
      forall j :: 0 <= j < pos ==> !MatchesAt(letters, pattern, j)
  {
    SearchSpec(Letters(gurmukhi, u), u.stripAccents(query));
  }

  /** When the letters match at `pos`, the word slices at `pos` and
      `pos + |query|` make up the target's words in order. */
  lemma {:induction false} FirstLetterPartition(query: string, target: string, gurmukhi: string, u: Helpers)
    requires FirstLetterPosition(query, gurmukhi, u) >= 0
    ensures var pos := FirstLetterPosition(query, gurmukhi, u);
      var words := Split(u.stripVishraams(target), ' ');
      Slice(words, 0, pos) + Slice(words, pos, pos + |query|) + SliceFrom(words, pos + |query|) == words
  {
    SlicesPartition(Split(u.stripVishraams(target), ' '), FirstLetterPosition(query, gurmukhi, u),
                    FirstLetterPosition(query, gurmukhi, u) + |query|);
  }

  /** When the letters match at `pos`, each part joins a run of the target's
      words with single spaces and ends in one more space; the middle run
      starts at word `pos` and holds `|query|` words, fewer only where the
      target runs out of words. */
  lemma {:induction false} FirstLetterParts(query: string, target: string, gurmukhi: string, u: Helpers)
    requires FirstLetterPosition(query, gurmukhi, u) >= 0
    ensures var pos := FirstLetterPosition(query, gurmukhi, u);
      var words := Split(u.stripVishraams(target), ' ');
      var a, b := Min(pos, |words|), Min(pos + |query|, |words|);
      var s := FirstLetterMatches(query, target, gurmukhi, u);
      s.before == Join(words[..a], " ") + " " &&
      s.matched == Join(words[a..b], " ") + " " &&
      s.after == Join(words[b..], " ") + " " &&
      b - a == Min(|query|, |words| - a)
  {
    FirstLetterBefore(query, target, gurmukhi, u);
    FirstLetterMatched(query, target, gurmukhi, u);
    FirstLetterAfter(query, target, gurmukhi, u);
  }

  /** The words before the match. */
  lemma {:induction false} FirstLetterBefore(query: string, target: string, gurmukhi: string, u: Helpers)
    requires FirstLetterPosition(query, gurmukhi, u) >= 0
    ensures var pos := FirstLetterPosition(query, gurmukhi, u);
      var words := Split(u.stripVishraams(target), ' ');
      var a, b := Min(pos, |words|), Min(pos + |query|, |words|);
      var s := FirstLetterMatches(query, target, gurmukhi, u);
      s.before == Join(words[..a], " ") + " "
  {
    SpanOfSlicesParts(Split(u.stripVishraams(target), ' '), FirstLetterPosition(query, gurmukhi, u),
                      FirstLetterPosition(query, gurmukhi, u) + |query|, " ");
  }

  /** The matched words. */
  lemma {:induction false} FirstLetterMatched(query: string, target: string, gurmukhi: string, u: Helpers)
    requires FirstLetterPosition(query, gurmukhi, u) >= 0
    ensures var pos := FirstLetterPosition(query, gurmukhi, u);
      var words := Split(u.stripVishraams(target), ' ');
      var a, b := Min(pos, |words|), Min(pos + |query|, |words|);
      var s := FirstLetterMatches(query, target, gurmukhi, u);
      s.matched == Join(words[a..b], " ") + " "
  {
    SpanOfSlicesParts(Split(u.stripVishraams(target), ' '), FirstLetterPosition(query, gurmukhi, u),
                      FirstLetterPosition(query, gurmukhi, u) + |query|, " ");
  }

  /** The words after the match. */
  lemma {:induction false} FirstLetterAfter(query: string, target: string, gurmukhi: string, u: Helpers)
    requires FirstLetterPosition(query, gurmukhi, u) >= 0
    ensures var pos := FirstLetterPosition(query, gurmukhi, u);
      var words := Split(u.stripVishraams(target), ' ');
      var a, b := Min(pos, |words|), Min(pos + |query|, |words|);
      var s := FirstLetterMatches(query, target, gurmukhi, u);
      s.after == Join(words[b..], " ") + " "
  {
    SpanOfSlicesParts(Split(u.stripVishraams(target), ' '), FirstLetterPosition(query, gurmukhi, u),
                      FirstLetterPosition(query, gurmukhi, u) + |query|, " ");
  }

  /** When words precede and follow the match, the three parts concatenate to
      the vishraam-free target plus one trailing space. */
  lemma {:induction false} FirstLetterRoundTrip(query: string, target: string, gurmukhi: string, u: Helpers)
    requires var pos := FirstLetterPosition(query, gurmukhi, u);
      0 < pos < pos + |query| < |Split(u.stripVishraams(target), ' ')|
    ensures var s := FirstLetterMatches(query, target, gurmukhi, u);
      s.before + s.matched + s.after == u.stripVishraams(target) + " "
  {
    LineSpanRoundTrip(u.stripVishraams(target), FirstLetterPosition(query, gurmukhi, u),
                      FirstLetterPosition(query, gurmukhi, u) + |query|);
  }

  // ---------------------------------------------------------------------------
  // The highlighter table and getHighlighter
  // ---------------------------------------------------------------------------

  /** The `highlighters` table: each search type to its highlighter. */
  function Highlight(mode: SearchType, query: string, target: string, gurmukhi: string, u: Helpers): Span {
    match mode
    case FullWord => FullWordMatches(query, target, gurmukhi, u)
    case FirstLetter => FirstLetterMatches(query, target, gurmukhi, u)
  }

  /** The query with every wildcard marker `_` turned into the regular
      expression wildcard `.`. */
  function SanitizeQuery(q: string): (r: string)
    ensures |r| == |q|
  {
    ReplaceAll(q, '_', '.')
  }

  /** Sanitising leaves no `_`, changes nothing but the `_`s, and a second
      pass changes nothing. */
  lemma {:induction false} SanitizeQuerySpec(q: string)
    ensures var r := SanitizeQuery(q);
      '_' !in r && SanitizeQuery(r) == r &&
      forall i :: 0 <= i < |q| ==> r[i] == if q[i] == '_' then '.' else q[i]
  {
    var r := SanitizeQuery(q);
    ReplaceAllRemoves(q, '_', '.');
    ReplaceAllSpec(q, '_', '.');
    ReplaceAllSpec(r, '_', '.');
    assert SanitizeQuery(r) == r;
  }

  /** The contextual information every highlighter receives besides the target. */
  datatype Context = Context(gurmukhi: string)

  /** `getHighlighter( searchQuery, searchMode )( context )( target )`. An empty
      target gives three empty strings and no highlighter runs. */
  function GetHighlighter(searchQuery: string, searchMode: SearchType, context: Context,
                          target: string, u: Helpers): (r: Span)
    ensures target == "" ==> r == Span("", "", "")
  {
    if target == "" then Span("", "", "")
    else Highlight(searchMode, SanitizeQuery(searchQuery), target, context.gurmukhi, u)
  }

  /** `_` and `.` are interchangeable in a query: sanitising it first changes
      nothing, and a non-empty target goes through the mode's highlighter. */
  lemma {:induction false} GetHighlighterSanitized(searchQuery: string, searchMode: SearchType, context: Context,
                                target: string, u: Helpers)
    ensures GetHighlighter(SanitizeQuery(searchQuery), searchMode, context, target, u) ==
            GetHighlighter(searchQuery, searchMode, context, target, u)
    ensures target != "" ==>
      GetHighlighter(searchQuery, searchMode, context, target, u) ==
      (match searchMode
       case FullWord => FullWordMatches(SanitizeQuery(searchQuery), target, context.gurmukhi, u)
       case FirstLetter => FirstLetterMatches(SanitizeQuery(searchQuery), target, context.gurmukhi, u))
  {
    SanitizeQuerySpec(searchQuery);
  }
}
