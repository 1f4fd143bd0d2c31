/** The transliteration helpers the search controller calls but does not
    define: `toAscii`, `toUnicode`, `firstLetters`, `stripAccents` and
    `stripVishraams` from the gurmukhi-utils package, and `stripPauses` from
    the application's utility module. They are given as arbitrary functions,
    so nothing proved here depends on how they behave. */
module TextUtils {

  datatype Helpers = Helpers(
    toAscii: string -> string,
    toUnicode: string -> string,
    firstLetters: string -> string,
    stripAccents: string -> string,
    stripVishraams: string -> string,
    stripPauses: string -> string)
}
