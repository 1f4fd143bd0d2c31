# ShabadOS search controller, modelled in Dafny

This project models the search box of the ShabadOS controller and the match highlighter that its results are rendered with. It proves properties of that model.

- **Query parsing (`getSearchParams`).** What the user types is split into an optional `#` anchor and the query. The query is converted with `toAscii`. In first-letter mode its wildcard spaces become `_`.
- **Search session state.** Typing either sends a search to the server, when the parsed value has at least `MIN_SEARCH_CHARS` characters, or empties the results. The text, the anchor and the render mode are kept either way. The server's answer replaces the results and records the latest input (`inputValue.current`) as the searched value, whichever search it answers. The clear button goes through the same path. So does the effect that re-sends the displayed text, which React runs on mount and whenever `anchor`, `onChange` or a result setting changes.
- **Highlighting.** Every result line is cut into the words before the match, the matched words and the words after. On a vishraam-free, single-spaced line, the full-word highlighter as written starts the match one word early whenever the match is not in the first word (see Findings). With vishraams or repeated spaces before the match it can be further off, because the positions are found in the vishraam-free line but applied to the original one. The model keeps that version, as the code does, in the highlighter table. It proves the discrepancy and defines the corrected start alongside (`FixedStart`, `FullWordMatchesFixed`), outside the table. Two implementations are modelled:
  - the standalone `getHighlighter`, with its full-word and first-letter highlighters;
  - the inline `highlightMatches` that the search list actually uses.

The model has five modules:

- `Consts` holds the search constants of `lib/consts.js`.
- `TextUtils` gives the transliteration helpers that the code calls but does not define. They are arbitrary function values, so no proof assumes anything about their behaviour except where a lemma states it as a hypothesis (for example `stripVishraams(gurmukhi) == gurmukhi`).
- `JsString` defines the few JavaScript string and array primitives the code relies on: `split`, `join`, `slice`, `substring`, `indexOf`, `lastIndexOf`, `trim`, `search` and `replace` with a global one-character pattern. Each comes with lemmas that state what it returns.
- `MatchHighlighter` models `Controller/Search/match-highlighter.js`. It is pure code, so it is written as functions and lemmas.
- `Search` models `Controller/Search.js`:
  - the parsing and the inline highlighter, as functions;
  - the component state, as the class `SearchSession`, whose methods are the event handlers.

Where the code does not do what one might expect, the model follows the code:

- **The query stops at the first line break.** `searchRegex` is `^([\#])?(.*)`. In a JavaScript regular expression `.` does not match a line terminator, so the query is the longest prefix of the rest that has no line terminator. It is not necessarily the whole remaining input (`Search.TakeLine`).
- **Results are never checked for staleness.** `onResults` does not check which search an answer belongs to. A late answer to an earlier search replaces the results and is highlighted against the latest value (`Search.StaleAnswerApplied`).
- **Every part ends with a separator.** Every highlighted part, including an empty one, ends with one separator: a space in word modes, nothing in the character-wise full-word mode of `highlightMatches`. So when words lie on both sides of the match, the three parts of a first-letter or full-word match from `getHighlighter` put back together give the vishraam-free line plus one trailing space. At either end of the line the empty run adds a space of its own.

## Model

| member | source | states |
|---|---|---|
| JsString.SplitPieces | app/frontend/src/Controller/Search/match-highlighter.js:32-33 | `split(c)` returns one piece more than the number of `c`s, and no piece contains `c`. |
| JsString.SplitJoin | app/frontend/src/Controller/Search/match-highlighter.js:36 | Joining the pieces of `split(c)` with `c` gives back the string. |
| JsString.SplitPieceAt | app/frontend/src/Controller/Search/match-highlighter.js:32-36 | A non-separator character at `f`, in the run of non-separators that starts at `b` (the start or just after a separator), lies in the piece numbered by the separators before `f`, at offset `f - b`. |
| JsString.SlicesPartition | app/frontend/src/Controller/Search/match-highlighter.js:39-41 | For `0 <= i <= j`, the slices `[0,i)`, `[i,j)` and `[j,)` concatenate back to the whole sequence. |
| JsString.IndexOfSpec | app/frontend/src/Controller/Search/match-highlighter.js:25 | `indexOf(c, p)` is the first `c` at or after `p` (clamped). It is -1 exactly when no `c` is there. |
| JsString.LastIndexOfSpec | app/frontend/src/Controller/Search/match-highlighter.js:22 | `lastIndexOf(c, p)` is the last `c` at or before `max(p, 0)`. It is -1 exactly when no `c` is there. |
| JsString.TrimSpec | app/frontend/src/Controller/Search/match-highlighter.js:18 | `trim` returns a contiguous substring. Only whitespace lies before and after it, and it neither starts nor ends with whitespace. |
| JsString.SearchSpec | app/frontend/src/Controller/Search/match-highlighter.js:21 | `search(p)` is the first index where `p` matches, `.` matching any one non-line-terminator. It is -1 exactly when no index matches. |
| JsString.ReplaceAllSpec | app/frontend/src/Controller/Search.js:53 | A global one-character `replace` keeps the length and changes exactly the matching characters. |
| JsString.ReplaceAllRemoves | app/frontend/src/Controller/Search.js:53 | After the replacement no replaced character is left. |
| MatchHighlighter.SpanOfSlicesParts | app/frontend/src/Controller/Search/match-highlighter.js:38-42 | Each returned string is a join of a consecutive run of the words followed by exactly one separator, and the three runs make up the words in order. |
| MatchHighlighter.SpanRoundTrip | app/frontend/src/Controller/Search/match-highlighter.js:38-42 | When no run is empty, the three strings concatenate to the joined words plus one separator. |
| MatchHighlighter.FullWordPositionsOf | app/frontend/src/Controller/Search/match-highlighter.js:31-34 | For every input `wordMatchStart >= 0` and `wordMatchLength >= 1`, because `split` always yields a piece. |
| MatchHighlighter.FullWordCounts | app/frontend/src/Controller/Search/match-highlighter.js:31-34 | `wordMatchStart` is the number of spaces in the trimmed original line before `matchStartPosition`. `wordMatchLength` is one more than the number of spaces in the trimmed original line between the two positions. |
| MatchHighlighter.FullWordFound | app/frontend/src/Controller/Search/match-highlighter.js:13-21 | The search runs on the vishraam-free line with the trimmed query. It finds the first match, and gives -1 exactly when there is none. |
| MatchHighlighter.FullWordMatchStart | app/frontend/src/Controller/Search/match-highlighter.js:22 | `matchStartPosition` is the last space at or before the found position, and -1 exactly when there is none. In that case `wordMatchStart` is 0. |
| MatchHighlighter.FullWordMatchEnd | app/frontend/src/Controller/Search/match-highlighter.js:25-28 | `matchEndPosition` is the first space at or after the end of the query. When no space follows, it is `baseGurmukhi.length - 1`. |
| MatchHighlighter.FullWordPartition | app/frontend/src/Controller/Search/match-highlighter.js:36-42 | The three word slices concatenate back to exactly `stripVishraams(target).split(' ')`, for every input. |
| MatchHighlighter.FullWordParts | app/frontend/src/Controller/Search/match-highlighter.js:36-42 | Each returned string joins a run of the target's words with single spaces and adds one more space. The runs are cut at `wordMatchStart` and `wordMatchStart + wordMatchLength`, where `wordMatchStart` as written is one word early past the first word on a vishraam-free, single-spaced line, and can be further off with vishraams or repeated spaces before the match. |
| MatchHighlighter.FullWordRoundTrip | app/frontend/src/Controller/Search/match-highlighter.js:15-42 | With words before and after the match, the three strings concatenate to the vishraam-free target plus one space. |
| MatchHighlighter.AsWrittenStartOneShort | app/frontend/src/Controller/Search/match-highlighter.js:22-32 | Take a vishraam-free line whose match lies past its first word, with no whitespace at the line's start or just before the space that opens the match's word. Then `wordMatchStart` is one less than the index of the word holding the found letter, and one less than the corrected start. |
| MatchHighlighter.FixedStartIsMatchWord | app/frontend/src/Controller/Search/match-highlighter.js:21-32 | When the match begins at a letter, the corrected start word `k` is the number of spaces before the found position `f`. Piece `k` of the split line holds the found letter itself, at offset `f - (matchStartPosition + 1)`. |
| MatchHighlighter.WordSpanAtStartWord | app/frontend/src/Controller/Search/match-highlighter.js:36-42 | When the start word lies within the words, the matched part is a non-empty run of words and begins with the start word. |
| MatchHighlighter.FullWordFixedParts | app/frontend/src/Controller/Search/match-highlighter.js:36-42 | With the corrected start, each returned string joins a run of the target's words followed by one space, cut at the corrected start word and past the as-written number of matched words. Only the start is corrected: the match length keeps the as-written `matchEndPosition`, which for a match reaching the line's end leaves out the last character. |
| MatchHighlighter.FirstLetterFound | app/frontend/src/Controller/Search/match-highlighter.js:57-61 | A match position is the first index where the accent-free query matches the letters, `.` standing for any letter. |
| MatchHighlighter.FirstLetterPartition | app/frontend/src/Controller/Search/match-highlighter.js:58-68 | With a match at `p`, the slices at `p` and `p + query.length` partition the target's words in order. |
| MatchHighlighter.FirstLetterParts | app/frontend/src/Controller/Search/match-highlighter.js:58-68 | Each returned string joins a run of words followed by one space. The middle run starts at word `p` and holds `min(query.length, words - p)` words. |
| MatchHighlighter.FirstLetterRoundTrip | app/frontend/src/Controller/Search/match-highlighter.js:54-68 | With words before and after the match, the three strings concatenate to the vishraam-free target plus one space. |
| MatchHighlighter.SanitizeQuery | app/frontend/src/Controller/Search/match-highlighter.js:95 | The sanitised query has the query's length. |
| MatchHighlighter.SanitizeQuerySpec | app/frontend/src/Controller/Search/match-highlighter.js:95 | Every `_` becomes `.`, nothing else changes and no `_` remains. A second pass changes nothing. |
| MatchHighlighter.GetHighlighter | app/frontend/src/Controller/Search/match-highlighter.js:91-92 | An empty target gives `['', '', '']`. |
| MatchHighlighter.GetHighlighterSanitized | app/frontend/src/Controller/Search/match-highlighter.js:77-100 | A non-empty target goes to the highlighter that the table names for the mode, with the sanitised query. The full-word entry is `fullWordMatches` as written. Sanitising beforehand changes nothing. |
| Search.TakeLine | app/frontend/src/Controller/Search.js:41 | `(.*)` takes the longest prefix without a line terminator: the result is a prefix of the input, none of its characters is a line terminator, and the input either ends there or has one next. |
| Search.TakeLineWhole | app/frontend/src/Controller/Search.js:41 | A line without line terminators is taken whole. |
| Search.MatchSearchRegex | app/frontend/src/Controller/Search.js:41-45 | An anchor is captured, and is the first character, exactly when that character is a key of SEARCH_ANCHORS. The query is the longest prefix of what follows without a line terminator: a prefix of it, free of line terminators, followed by one or by the end. |
| Search.TypeOfAnchor | app/frontend/src/Controller/Search.js:50 | The type is full-word exactly under the `#` anchor, and first-letter otherwise. |
| Search.GetSearchParams | app/frontend/src/Controller/Search.js:43-57 | A leading `#` is the anchor and selects full-word mode, where the value is the converted query. Without it the mode is first-letter: the value has the converted query's length, every wildcard space is `_`, and no other character changes. |
| Search.GetSearchParamsAnchored | app/frontend/src/Controller/Search.js:41-56 | Only the first `#` is removed: `#` plus a line gives anchor `#`, full-word mode and `toAscii` of the rest, with any further `#` kept. |
| Search.GetSearchParamsUnanchored | app/frontend/src/Controller/Search.js:41-56 | Without a leading `#`, the whole line is converted and its spaces are marked, in first-letter mode. |
| Search.PlainWordParams | app/frontend/src/Controller/Search.js:43-57 | A plain word that `toAscii` leaves alone parses to itself, with no anchor, in first-letter mode. |
| Search.HighlightMatches | app/frontend/src/Controller/Search.js:61 | An empty value gives `['', '', '']`. |
| Search.HighlightFirstLetterParts | app/frontend/src/Controller/Search.js:69-76 | First-letter mode with a match: the slices partition `stripPauses(value).split(' ')`, and each part joins its run with spaces and ends in `' '`. |
| Search.HighlightFullWordParts | app/frontend/src/Controller/Search.js:69-76 | Full-word mode: the parts are the pause-free value's characters before, inside and after `[pos, pos + input.length)`. |
| Search.HighlightFullWordRoundTrip | app/frontend/src/Controller/Search.js:69-76 | Full-word mode with a match: the three parts concatenate to exactly the pause-free value. |
| Search.SearchSession.constructor | app/frontend/src/Controller/Search.js:93-101 | The initial value and anchor are parsed from the URL query. The results, `searchedValue`, the requests and the focus log start empty. The anchor is none or `#`. |
| Search.SearchSession.Mode | app/frontend/src/Controller/Search.js:194 | The render mode is full-word exactly under the `#` anchor, as `getSearchParams` chose it. |
| Search.SearchSession.DisplayedValueReparses | app/frontend/src/Controller/Search.js:291 | Take a state whose anchor is none or `#` (`Valid`) and whose value has no line terminator and, without an anchor, does not start with `#` (`ReadsBack`). Then `searchRegex` on the displayed text (anchor, then value) captures the stored anchor and value, and `getSearchParams` of it keeps the anchor and so the mode. |
| Search.SearchSession.ResultMatches | app/frontend/src/Controller/Search.js:197-203 | The match is looked for in the result's Gurmukhi only. Its Gurmukhi and its transliteration are both cut at the same piece indices `pos` and `pos + searchedValue.length`, in the current mode. An empty one gives three empty strings. |
| Search.SearchSession.OnResults | app/frontend/src/Controller/Search.js:111-116 | The results are replaced without comparison, `searchedValue` becomes the current input, and focus moves to 0. Nothing else changes. |
| Search.SearchSession.OnChange | app/frontend/src/Controller/Search.js:123-138 | A search request is sent exactly when the parsed value has at least MIN_SEARCH_CHARS characters, and the results are emptied otherwise. The value and the anchor are stored either way, so the anchor is none or `#`. `searchedValue` and the focus are unchanged. |
| Search.SearchSession.Clear | app/frontend/src/Controller/Search.js:317 | No anchor and first-letter mode are left. The results are emptied without a search whenever the converted empty string is shorter than MIN_SEARCH_CHARS. |
| Search.SearchSession.Refresh | app/frontend/src/Controller/Search.js:290-298 | One run of the effect: with a value present, the displayed text goes through `onChange`. Otherwise nothing changes. When the value reads back (see DisplayedValueReparses), the anchor and the mode are kept. The anchor stays none or `#`. |
| Search.StaleAnswerApplied | app/frontend/src/Controller/Search.js:111-138 | After typing "ab" then "abc", both searches are sent. A late answer to "ab" is shown and highlighted as the answer to "abc". |

## Left out

- Rendering is not modelled: the JSX, the Material-UI components, CSS classes, `filterInputKeys`, `refocus`, `highlightSearch` and the hotkey wrapper. None of it affects the search state.
- The URL history is left out. `history.push` (Search.js:140-144) and `getUrlState` are router side effects. The initial URL query is a parameter of the constructor.
- Search.SearchSession.Refresh, Search.SearchSession.constructor and Search.StaleAnswerApplied: when the effect at Search.js:290-298 fires is not modelled. React runs it on mount and when `anchor`, `onChange` or a result setting changes. `onChange` is recreated whenever the URL `search` changes (Search.js:145-151), and it pushes that URL itself. So a keystroke is usually followed by a second search for the same text, and a non-empty URL query is searched on mount. Refresh models one run of the effect, a caller decides when, and the constructor and StaleAnswerApplied send no search of their own.
- `controller.search` is recorded as a `SearchRequest` appended to `requests`. The WebSocket and the `controller.on`/`off` registration (Search.js:285-288) are left out, and results arrive as calls to `OnResults`.
- `updateFocus` is a callback from the parent, so it is recorded as a log of the indices it is called with.
- React state updates are modelled as immediate assignments. Batching, re-render timing and stale `useCallback` closures are not modelled.
- The settings that shape a search are reduced to the three booleans that `onChange` sends: `!!` of the translation language, the transliteration language and the citations flag.
- A result line is reduced to its Gurmukhi and the transliteration chosen for display. `getTransliteration`, `getTranslation` and the citation text are outside the search logic.
- `toAscii`, `toUnicode`, `firstLetters`, `stripAccents`, `stripVishraams` and `stripPauses` are uninterpreted. Their implementations, gurmukhi-utils and `lib/utils.js`, are not part of this model. So PAUSE_CHARS, which only `stripPauses` uses, plays no part.
- JavaScript regular expressions are modelled only for literal characters and `.`, where `.` matches any character but a line terminator. Any other metacharacter in a query is read as a literal, whereas the browser would interpret it or throw.
- The search-type strings are a datatype with the two modes of SEARCH_TYPES. A mode outside the highlighter tables, where the code would throw, cannot be expressed.
- The highlighter context carries only `gurmukhi`, the one field the highlighters read.
- The SEARCH_CHARS entries `wordOrder` and `larivaarAccentless` and the constant MAX_RESULTS are not used by this core.
- Strings are sequences of characters. UTF-16 code units, surrogate pairs and number precision are not modelled.
- Search.SearchSession.DisplayedValue and Search.HighlightMatchesFound are definitions that the rows above use. They have no rows of their own.
- Search.SearchSession.ClearShown states when the clear button is rendered (Search.js:315), while there is a value. It has no row, and nothing else uses it, since rendering is not modelled.
- Search.SearchSession.Clear: it states that the results empty without a search only when `toAscii("")` is shorter than MIN_SEARCH_CHARS, because `toAscii` is uninterpreted. With the real conversion the empty string stays empty and the button always clears.
- MatchHighlighter.FirstLetterParts, MatchHighlighter.FirstLetterPartition, MatchHighlighter.FirstLetterRoundTrip, Search.HighlightFirstLetterParts and Search.HighlightFullWordRoundTrip: they are stated only when the search found a match. With -1 the negative `slice` indices give overlapping parts, which the model computes but proves nothing about.
- MatchHighlighter.FullWordRoundTrip and MatchHighlighter.FirstLetterRoundTrip: they are stated only when words precede and follow the match. At either end the empty run still adds its space, so the concatenation has an extra space at the front or at the end.

## Findings

| source | as written | input that shows it | evidently intended | confidence | as-written member | corrected member |
|---|---|---|---|---|---|---|
| app/frontend/src/Controller/Search/match-highlighter.js:32 | `wordMatchStart` counts the words of `gurmukhi.substring(0, matchStartPosition)` and subtracts one. On a vishraam-free, single-spaced line with the match past the first word, that substring stops just before the space that opens the match's word. So it holds exactly the words before the match, and subtracting one makes the start one word early. With vishraams or repeated spaces before the match, `matchStartPosition` (found in the vishraam-free line) cuts the original line elsewhere, and the start can be further off. The highlighter table uses this version. | Query `bb` in the line `aa bb cc` (no vishraams): `matchStartPosition` is 2, the substring is `aa`, `wordMatchStart` is 0, and the parts are `" "`, `"aa "`, `"bb cc "`. In `aa bb` the match `bb` is even left entirely in the after part. | The start is the index of the word holding the match: one more than the number of spaces before `matchStartPosition`, or 0 when there is none. | not executed | MatchHighlighter.AsWrittenStartOneShort | MatchHighlighter.FixedStartIsMatchWord |
