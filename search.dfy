/** The search box of the controller (app/frontend/src/Controller/Search.js):
    turning what is typed into a search query, the older inline highlighter it
    renders results with, and the search session state that typing and the
    server's answers update. */
module Search {
  import opened JsString
  import opened Consts
  import opened TextUtils
  import opened MatchHighlighter

  datatype Option<T> = None | Some(value: T)

  // ---------------------------------------------------------------------------
  // Query parsing
  // ---------------------------------------------------------------------------

  /** What `(.*)` matches at the start of `s`: the longest prefix without a
      line terminator, since `.` does not match one. */
  function TakeLine(s: string): (r: string)
    ensures r <= s
    ensures forall i :: 0 <= i < |r| ==> !IsLineTerminator(r[i])
    ensures |r| < |s| ==> IsLineTerminator(s[|r|])
  {
    if s == [] || IsLineTerminator(s[0]) then [] else [s[0]] + TakeLine(s[1..])
  }

  /** A line without line terminators is matched by `(.*)` as a whole. */
  lemma {:induction false} TakeLineWhole(s: string)
    requires forall i :: 0 <= i < |s| ==> !IsLineTerminator(s[i])
    ensures TakeLine(s) == s
  {
    if s != [] {
      TakeLineWhole(s[1..]);
      assert s == [s[0]] + s[1..];
    }
  }

  /** The two capture groups of `searchRegex`, `^([\#])?(.*)`, whose character
      class holds the keys of SEARCH_ANCHORS. */
  datatype AnchorMatch = AnchorMatch(anchor: Option<char>, query: string)

  /** `searchQuery.match( searchRegex )`: an anchor is taken only from the
      first character; the query is what follows, up to a line terminator. */
  function MatchSearchRegex(s: string): (m: AnchorMatch)
    ensures m.anchor.Some? <==> |s| > 0 && s[0] in SearchAnchors
    ensures var rest := if m.anchor.Some? then s[1..] else s;
      (m.anchor.Some? ==> m.anchor.value == s[0]) &&
      m.query <= rest &&
      (forall i :: 0 <= i < |m.query| ==> !IsLineTerminator(m.query[i])) &&
      (|m.query| < |rest| ==> IsLineTerminator(rest[|m.query|]))
  {
    if |s| > 0 && s[0] in SearchAnchors then AnchorMatch(Some(s[0]), TakeLine(s[1..]))
    else AnchorMatch(None, TakeLine(s))
  }

  /** `SEARCH_ANCHORS[ anchor ] || SEARCH_TYPES.firstLetter`. */
  function TypeOfAnchor(anchor: Option<char>): (t: SearchType)
    ensures t == FullWord <==> anchor == Some(WordAnywhere)
  {
    if anchor.Some? && anchor.value in SearchAnchors then SearchAnchors[anchor.value] else FirstLetter
  }

  /** The `{ anchor, value, type }` that `getSearchParams` returns. */
  datatype SearchParams = SearchParams(anchor: Option<char>, value: string, searchType: SearchType)

  /** `getSearchParams( searchQuery )`: a leading `#` selects full-word search
      and is dropped; the rest of the line goes through `toAscii`, and in
      first-letter mode every wildcard space becomes the marker `_`, leaving
      the length and every other character as they were. */
  function GetSearchParams(searchQuery: string, u: Helpers): (r: SearchParams)
    ensures r.anchor == (if |searchQuery| > 0 && searchQuery[0] == WordAnywhere then Some(WordAnywhere) else None)
    ensures r.searchType == (if r.anchor.Some? then FullWord else FirstLetter)
    ensures var converted := u.toAscii(MatchSearchRegex(searchQuery).query);
      (r.searchType == FullWord ==> r.value == converted) &&
      (r.searchType == FirstLetter ==>
         |r.value| == |converted| && Wildcard !in r.value &&
         forall i :: 0 <= i < |converted| ==>
           r.value[i] == if converted[i] == Wildcard then '_' else converted[i])
  {
    var m := MatchSearchRegex(searchQuery);
    var inputValue := u.toAscii(m.query);
    var searchType := TypeOfAnchor(m.anchor);
    var value := if searchType == FirstLetter then ReplaceAll(inputValue, Wildcard, '_') else inputValue;
    ReplaceAllRemoves(inputValue, Wildcard, '_');
    ReplaceAllSpec(inputValue, Wildcard, '_');
    SearchParams(m.anchor, value, searchType)
  }

  /** A leading `#` is the anchor and only it is removed: the rest of a line,
      further `#`s included, is converted as the full-word query. */
  lemma {:induction false} GetSearchParamsAnchored(rest: string, u: Helpers)
    requires forall i :: 0 <= i < |rest| ==> !IsLineTerminator(rest[i])
    ensures GetSearchParams([WordAnywhere] + rest, u) == SearchParams(Some(WordAnywhere), u.toAscii(rest), FullWord)
  {
    assert ([WordAnywhere] + rest)[1..] == rest;
    TakeLineWhole(rest);
  }

  /** Without a leading `#` there is no anchor, the search is first-letter and
      the whole line is converted, its spaces then marked as wildcards. */
  lemma {:induction false} GetSearchParamsUnanchored(s: string, u: Helpers)
    requires s == [] || s[0] != WordAnywhere
    requires forall i :: 0 <= i < |s| ==> !IsLineTerminator(s[i])
    ensures GetSearchParams(s, u) == SearchParams(None, ReplaceAll(u.toAscii(s), Wildcard, '_'), FirstLetter)
  {
    TakeLineWhole(s);
  }

  // ---------------------------------------------------------------------------
  // The inline highlighter used to render results
  // ---------------------------------------------------------------------------

  /** The string `highlightMatches` searches: the line itself in full-word
      mode, its first letters in first-letter mode. */
  function HighlightSubject(gurmukhi: string, mode: SearchType, u: Helpers): string {
    match mode
    case FullWord => gurmukhi
    case FirstLetter => u.firstLetters(gurmukhi)
  }

  /** The `splitChar` of `highlightMatches`: "" in full-word mode, " " in first-letter mode. */
  function SplitChar(mode: SearchType): string {
    match mode
    case FullWord => ""
    case FirstLetter => " "
  }

  /** `value.split( splitChar )`. */
  function SplitOn(value: string, mode: SearchType): seq<string> {
    match mode
    case FullWord => Chars(value)
    case FirstLetter => Split(value, ' ')
  }

  /** The match position `highlightMatches` finds, `_` read as `.`. */
  function HighlightPosition(gurmukhi: string, input: string, mode: SearchType, u: Helpers): int {
    Search(HighlightSubject(gurmukhi, mode, u), SanitizeQuery(input))
  }

  /** `highlightMatches( gurmukhi )( value, input, mode )`: splits `value`, with
      its pauses stripped, into the pieces before, in and after the match of
      `input` in the line. An empty value gives three empty strings. */
  function HighlightMatches(gurmukhi: string, value: string, input: string, mode: SearchType, u: Helpers): (r: Span)
    ensures value == "" ==> r == Span("", "", "")
  {
    if value == "" then Span("", "", "")
    else
      var pos := HighlightPosition(gurmukhi, input, mode, u);
      var words := SplitOn(u.stripPauses(value), mode);
      SpanOfSlices(words, pos, pos + |input|, SplitChar(mode))
  }

  /** With a non-empty value, the parts are the slices of its pieces at the
      match position, whatever mode cut it. */
  lemma {:induction false} HighlightMatchesFound(gurmukhi: string, value: string, input: string, mode: SearchType, u: Helpers)
    requires value != ""
    ensures HighlightMatches(gurmukhi, value, input, mode, u) ==
      SpanOfSlices(SplitOn(u.stripPauses(value), mode), HighlightPosition(gurmukhi, input, mode, u),
                   HighlightPosition(gurmukhi, input, mode, u) + |input|, SplitChar(mode))
  {
  }

  /** First-letter mode with a match at `pos`: the word slices make up the
      pause-free value's words in order, and each part joins its run of words
      with single spaces followed by one more space. */
  lemma {:induction false} HighlightFirstLetterParts(gurmukhi: string, value: string, input: string, u: Helpers)
    requires value != ""
    requires HighlightPosition(gurmukhi, input, FirstLetter, u) >= 0
    ensures var pos := HighlightPosition(gurmukhi, input, FirstLetter, u);
      var words := Split(u.stripPauses(value), ' ');
      var a, b := Min(pos, |words|), Min(pos + |input|, |words|);
      var s := HighlightMatches(gurmukhi, value, input, FirstLetter, u);
      Slice(words, 0, pos) + Slice(words, pos, pos + |input|) + SliceFrom(words, pos + |input|) == words &&
      s.before == Join(words[..a], " ") + " " &&
      s.matched == Join(words[a..b], " ") + " " &&
      s.after == Join(words[b..], " ") + " "
  {
    SlicesPartition(Split(u.stripPauses(value), ' '), HighlightPosition(gurmukhi, input, FirstLetter, u),
                    HighlightPosition(gurmukhi, input, FirstLetter, u) + |input|);
    HighlightFirstLetterBefore(gurmukhi, value, input, u);
    HighlightFirstLetterMatched(gurmukhi, value, input, u);
    HighlightFirstLetterAfter(gurmukhi, value, input, u);
  }

  /** The words before the match. */
  lemma {:induction false} HighlightFirstLetterBefore(gurmukhi: string, value: string, input: string, u: Helpers)
    requires value != ""
    requires HighlightPosition(gurmukhi, input, FirstLetter, u) >= 0
    ensures var pos := HighlightPosition(gurmukhi, input, FirstLetter, u);
      var words := Split(u.stripPauses(value), ' ');
      var a, b := Min(pos, |words|), Min(pos + |input|, |words|);
      var s := HighlightMatches(gurmukhi, value, input, FirstLetter, u);
      s.before == Join(words[..a], " ") + " "
  {
    HighlightMatchesFound(gurmukhi, value, input, FirstLetter, u);
    SliceNonNegative(Split(u.stripPauses(value), ' '), 0, HighlightPosition(gurmukhi, input, FirstLetter, u));
  }

  /** The matched words. */
  lemma {:induction false} HighlightFirstLetterMatched(gurmukhi: string, value: string, input: string, u: Helpers)
    requires value != ""
    requires HighlightPosition(gurmukhi, input, FirstLetter, u) >= 0
    ensures var pos := HighlightPosition(gurmukhi, input, FirstLetter, u);
      var words := Split(u.stripPauses(value), ' ');
      var a, b := Min(pos, |words|), Min(pos + |input|, |words|);
      var s := HighlightMatches(gurmukhi, value, input, FirstLetter, u);
      s.matched == Join(words[a..b], " ") + " "
  {
    HighlightMatchesFound(gurmukhi, value, input, FirstLetter, u);
    SliceNonNegative(Split(u.stripPauses(value), ' '), HighlightPosition(gurmukhi, input, FirstLetter, u),
                     HighlightPosition(gurmukhi, input, FirstLetter, u) + |input|);
  }

  /** The words after the match. */
  lemma {:induction false} HighlightFirstLetterAfter(gurmukhi: string, value: string, input: string, u: Helpers)
    requires value != ""
    requires HighlightPosition(gurmukhi, input, FirstLetter, u) >= 0
    ensures var pos := HighlightPosition(gurmukhi, input, FirstLetter, u);
      var words := Split(u.stripPauses(value), ' ');
      var a, b := Min(pos, |words|), Min(pos + |input|, |words|);
      var s := HighlightMatches(gurmukhi, value, input, FirstLetter, u);
      s.after == Join(words[b..], " ") + " "
  {
    HighlightMatchesFound(gurmukhi, value, input, FirstLetter, u);
    SliceNonNegative(Split(u.stripPauses(value), ' '), HighlightPosition(gurmukhi, input, FirstLetter, u),
                     HighlightPosition(gurmukhi, input, FirstLetter, u) + |input|);
  }

  /** Cutting the characters of `v` at `i` and `j` and joining each run with
      "" slices `v` itself at `i` and `j`. */
  lemma {:induction false} CharsSpan(v: string, i: int, j: int)
    ensures SpanOfSlices(Chars(v), i, j, "") == Span(Slice(v, 0, i), Slice(v, i, j), SliceFrom(v, j))
  {
    JoinCharsSlice(v, 0, i);
    JoinCharsSlice(v, i, j);
    JoinCharsSliceFrom(v, j);
  }

  /** Cutting the characters of `v` at `i` and `j` and putting the three
      parts together gives back `v`. */
  lemma {:induction false} CharsSpanRoundTrip(v: string, i: int, j: int)
    requires 0 <= i <= j
    ensures var s := SpanOfSlices(Chars(v), i, j, "");
      s.before + s.matched + s.after == v
  {
    CharsSpan(v, i, j);
    SlicesPartition(v, i, j);
  }

  /** Full-word mode: the value is cut character by character, so the three
      parts are the pause-free value sliced at `pos` and `pos + |input|`,
      whether or not the line matched. */
  lemma {:induction false} HighlightFullWordParts(gurmukhi: string, value: string, input: string, u: Helpers)
    requires value != ""
    ensures var pos := HighlightPosition(gurmukhi, input, FullWord, u);
      var v := u.stripPauses(value);
      HighlightMatches(gurmukhi, value, input, FullWord, u) ==
        Span(Slice(v, 0, pos), Slice(v, pos, pos + |input|), SliceFrom(v, pos + |input|))
  {
    HighlightMatchesFound(gurmukhi, value, input, FullWord, u);
    CharsSpan(u.stripPauses(value), HighlightPosition(gurmukhi, input, FullWord, u),
              HighlightPosition(gurmukhi, input, FullWord, u) + |input|);
  }

  /** Full-word mode with a match: the three parts put together are exactly
      the pause-free value. */
  lemma {:induction false} HighlightFullWordRoundTrip(gurmukhi: string, value: string, input: string, u: Helpers)
    requires value != ""
    requires HighlightPosition(gurmukhi, input, FullWord, u) >= 0
    ensures var s := HighlightMatches(gurmukhi, value, input, FullWord, u);
      s.before + s.matched + s.after == u.stripPauses(value)
  {
    HighlightMatchesFound(gurmukhi, value, input, FullWord, u);
    assert SplitOn(u.stripPauses(value), FullWord) == Chars(u.stripPauses(value)) && SplitChar(FullWord) == "";
    CharsSpanRoundTrip(u.stripPauses(value), HighlightPosition(gurmukhi, input, FullWord, u),
                       HighlightPosition(gurmukhi, input, FullWord, u) + |input|);
  }

  // ---------------------------------------------------------------------------
  // The search session
  // ---------------------------------------------------------------------------

  /** A result line as the search list renders it: its Gurmukhi and the
      transliteration chosen for display ("" when none is shown). */
  datatype LineRecord = LineRecord(gurmukhi: string, transliteration: string)

  /** The result-shaping flags sent with a search: whether translations,
      transliterations and citations are wanted. */
  datatype SearchOptions = SearchOptions(translations: bool, transliterations: bool, citations: bool)

  /** One `controller.search( value, type, options )` call. */
  datatype SearchRequest = SearchRequest(value: string, searchType: SearchType, options: SearchOptions)

  /** The state of the search component: the `inputValue` ref, the `anchor`,
      `results` and `searchedValue` state, and, as logs, the searches sent to
      the server and the calls to `updateFocus`. */
  class SearchSession {
    const u: Helpers
    var inputValue: string
    var anchor: Option<char>
    var results: seq<LineRecord>
    var searchedValue: string
    var requests: seq<SearchRequest>
    var focusUpdates: seq<int>

    /** The anchor is only ever what `getSearchParams` yields: none or `#`. */
    predicate Valid()
      reads this
    {
      anchor == None || anchor == Some(WordAnywhere)
    }

    /** The component's first render, with the query taken from the URL. */
    constructor (urlQuery: string, helpers: Helpers)
      ensures u == helpers
      ensures inputValue == GetSearchParams(urlQuery, helpers).value
      ensures anchor == GetSearchParams(urlQuery, helpers).anchor
      ensures results == [] && searchedValue == "" && requests == [] && focusUpdates == []
      ensures Valid()
    {
      u := helpers;
      var p := GetSearchParams(urlQuery, helpers);
      inputValue := p.value;
      anchor := p.anchor;
      results := [];
      searchedValue := "";
      requests := [];
      focusUpdates := [];
    }

    /** The search mode results are rendered in: `SEARCH_ANCHORS[ anchor ] ||
        SEARCH_TYPES.firstLetter`, full-word exactly under the `#` anchor. */
    function Mode(): (t: SearchType)
      reads this
      ensures t == FullWord <==> anchor == Some(WordAnywhere)
    {
      TypeOfAnchor(anchor)
    }

    /** The text shown in the input box: the anchor, if any, then the value. */
    function DisplayedValue(): (s: string)
      reads this
      ensures anchor.None? ==> s == inputValue
      ensures anchor.Some? ==> s == [anchor.value] + inputValue
    {
      (if anchor.Some? then [anchor.value] else "") + inputValue
    }

    /** The stored value can be read back from the displayed text: it has no
        line terminator and, without an anchor, does not itself start with `#`. */
    predicate ReadsBack()
      reads this
    {
      (anchor == None ==> inputValue == [] || inputValue[0] != WordAnywhere) &&
      forall i :: 0 <= i < |inputValue| ==> !IsLineTerminator(inputValue[i])
    }

    /** Parsing the displayed text gives back the stored anchor and value, so
        the mode is kept, when the anchor is none or `#` and the value reads back. */
    lemma DisplayedValueReparses()
      requires Valid() && ReadsBack()
      ensures MatchSearchRegex(DisplayedValue()) == AnchorMatch(anchor, inputValue)
      ensures GetSearchParams(DisplayedValue(), u).anchor == anchor
      ensures GetSearchParams(DisplayedValue(), u).searchType == Mode()
    {
      TakeLineWhole(inputValue);
      if anchor.Some? {
        assert DisplayedValue()[1..] == inputValue;
      }
    }

    /** The clear button is shown only while there is a value. */
    function ClearShown(): (shown: bool)
      reads this
      ensures shown <==> |inputValue| > 0
    {
      inputValue != ""
    }

    /** The pieces a result renders: its Gurmukhi and its transliteration, each
        split around the match of the last searched value in the current mode.
        The match is looked for in the Gurmukhi only, so both are cut at the
        same piece indices `pos` and `pos + |searchedValue|`; an empty one gets
        three empty strings. */
    function ResultMatches(line: LineRecord): (r: (Span, Span))
      reads this
      ensures var pos, mode := HighlightPosition(line.gurmukhi, searchedValue, Mode(), u), Mode();
        var j := pos + |searchedValue|;
        (line.gurmukhi == "" ==> r.0 == Span("", "", "")) &&
        (line.transliteration == "" ==> r.1 == Span("", "", "")) &&
        (line.gurmukhi != "" ==>
           r.0 == SpanOfSlices(SplitOn(u.stripPauses(line.gurmukhi), mode), pos, j, SplitChar(mode))) &&
        (line.transliteration != "" ==>
           r.1 == SpanOfSlices(SplitOn(u.stripPauses(line.transliteration), mode), pos, j, SplitChar(mode)))
    {
      (HighlightMatches(line.gurmukhi, line.gurmukhi, searchedValue, Mode(), u),
       HighlightMatches(line.gurmukhi, line.transliteration, searchedValue, Mode(), u))
    }

    /** `onResults( results )`: takes the server's results as they come, with
        no check of which search they answer, records the current input as the
        searched value and moves the focus to the first result. */
    method OnResults(rs: seq<LineRecord>)
      modifies this
      ensures results == rs && searchedValue == old(inputValue)
      ensures focusUpdates == old(focusUpdates) + [0]
      ensures inputValue == old(inputValue) && anchor == old(anchor) && requests == old(requests)
    {
      searchedValue := inputValue;
      results := rs;
      focusUpdates := focusUpdates + [0];
    }

    /** `onChange( { target: { value } } )`: parses the value, sends a search
        exactly when the parsed value has at least MIN_SEARCH_CHARS characters
        and otherwise empties the results, then stores the parsed value and
        anchor either way. */
    method OnChange(value: string, options: SearchOptions)
      modifies this
      ensures var p := GetSearchParams(value, u);
        (|p.value| >= MinSearchChars ==>
           requests == old(requests) + [SearchRequest(p.value, p.searchType, options)] &&
           results == old(results)) &&
        (|p.value| < MinSearchChars ==> requests == old(requests) && results == []) &&
        inputValue == p.value && anchor == p.anchor && Mode() == p.searchType
      ensures searchedValue == old(searchedValue) && focusUpdates == old(focusUpdates)
      ensures Valid()
    {
      var p := GetSearchParams(value, u);
      var doSearch := |p.value| >= MinSearchChars;
      if doSearch {
        requests := requests + [SearchRequest(p.value, p.searchType, options)];
      } else {
        results := [];
      }
      inputValue := p.value;
      anchor := p.anchor;
    }

    /** The clear button: `onChange` with an empty value. It leaves no anchor,
        keeps the searched value, and empties the results without searching
        as long as the converted empty string is shorter than MIN_SEARCH_CHARS. */
    method Clear(options: SearchOptions)
      modifies this
      ensures anchor == None && Mode() == FirstLetter && Valid()
      ensures inputValue == ReplaceAll(u.toAscii(""), Wildcard, '_')
      ensures |u.toAscii("")| < MinSearchChars ==> results == [] && requests == old(requests)
      ensures searchedValue == old(searchedValue) && focusUpdates == old(focusUpdates)
    {
      OnChange("", options);
    }

    /** The effect that re-runs the search when the settings change: with a
        value present, `onChange` with the displayed text; otherwise nothing. */
    method Refresh(options: SearchOptions)
      requires Valid()
      modifies this
      ensures old(inputValue) == "" ==>
        inputValue == old(inputValue) && anchor == old(anchor) && results == old(results) &&
        requests == old(requests)
      ensures old(inputValue) != "" ==>
        var p := GetSearchParams(old(DisplayedValue()), u);
        inputValue == p.value && anchor == p.anchor &&
        requests == old(requests) + (if |p.value| >= MinSearchChars then [SearchRequest(p.value, p.searchType, options)] else []) &&
        results == (if |p.value| >= MinSearchChars then old(results) else [])
      ensures old(inputValue != "" && ReadsBack()) ==> anchor == old(anchor) && Mode() == old(Mode())
      ensures searchedValue == old(searchedValue) && focusUpdates == old(focusUpdates)
      ensures Valid()
    {
      if inputValue != "" {
        if ReadsBack() {
          DisplayedValueReparses();
        }
        OnChange(DisplayedValue(), options);
      }
    }
  }

  /** A word of ordinary letters that `toAscii` leaves alone parses to itself,
      with no anchor, in first-letter mode. */
  lemma {:induction false} PlainWordParams(w: string, u: Helpers)
    requires u.toAscii(w) == w
    requires w == [] || w[0] != WordAnywhere
    requires forall i :: 0 <= i < |w| ==> !IsLineTerminator(w[i]) && w[i] != Wildcard
    ensures GetSearchParams(w, u) == SearchParams(None, w, FirstLetter)
  {
    GetSearchParamsUnanchored(w, u);
    ReplaceAllSpec(w, Wildcard, '_');
    var r := ReplaceAll(w, Wildcard, '_');
    assert r == w;
  }

  /** Answers are not matched to the searches they answer: after typing "ab"
      and then "abc", a late answer to "ab" still replaces the results, and is
      rendered as if it answered "abc". */
  method StaleAnswerApplied(stale: seq<LineRecord>, options: SearchOptions)
    returns (shown: seq<LineRecord>, highlightedFor: string, sent: seq<SearchRequest>)
    ensures shown == stale && highlightedFor == "abc"
    ensures sent == [SearchRequest("ab", FirstLetter, options), SearchRequest("abc", FirstLetter, options)]
  {
    var same := (s: string) => s;
    var helpers := Helpers(same, same, same, same, same, same);
    var session := new SearchSession("", helpers);
    PlainWordParams("ab", helpers);
    PlainWordParams("abc", helpers);
    session.OnChange("ab", options);
    session.OnChange("abc", options);
    session.OnResults(stale);
    shown, highlightedFor, sent := session.results, session.searchedValue, session.requests;
  }
}
