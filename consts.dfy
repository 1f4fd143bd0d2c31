/** The search constants of the application (app/frontend/src/lib/consts.js). */
module Consts {

  /** MIN_SEARCH_CHARS: the shortest parsed value that is sent to the server. */
  const MinSearchChars: nat := 2

  /** SEARCH_CHARS.wildcard: the keystroke that stands for any one letter. */
  const Wildcard: char := ' '

  /** SEARCH_CHARS.wordAnywhere: the anchor that selects full-word search. */
  const WordAnywhere: char := '#'

  /** SEARCH_TYPES: 'full-word' and 'first-letter'. */
  datatype SearchType = FullWord | FirstLetter

  /** SEARCH_ANCHORS: anchor character to the search type it selects. */
  const SearchAnchors: map<char, SearchType> := map[WordAnywhere := FullWord]
}
