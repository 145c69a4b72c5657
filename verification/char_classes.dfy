/**
 * The character classes used by the regular expressions of the user schemas.
 * Explicit ranges such as `[a-zA-Z]` are ASCII in every engine and modelled exactly;
 * `\s` is modelled exactly as Python's Unicode whitespace; `\d` and `\w` are
 * approximated (see the individual predicates).
 */
module CharClasses {

  /** Python's `\s` on str patterns: the characters for which `str.isspace()` holds. */
  predicate IsSpace(c: char) {
    || ('\t' <= c <= '\r')
    || ('\U{1C}' <= c <= ' ')
    || c == '\U{85}' || c == '\U{A0}' || c == '\U{1680}'
    || ('\U{2000}' <= c <= '\U{200A}')
    || c == '\U{2028}' || c == '\U{2029}' || c == '\U{202F}' || c == '\U{205F}' || c == '\U{3000}'
  }

  predicate IsAsciiUpper(c: char) { 'A' <= c <= 'Z' }

  predicate IsAsciiLower(c: char) { 'a' <= c <= 'z' }

  predicate IsAsciiLetter(c: char) { IsAsciiUpper(c) || IsAsciiLower(c) }

  /** `\d`, restricted to the ASCII digits. */
  predicate IsAsciiDigit(c: char) { '0' <= c <= '9' }

  /** A character of the ASCII range. */
  predicate IsAscii(c: char) {
    c <= '\U{7F}'
  }

  /** Letters of the Latin-1 Supplement and Latin Extended-A/B blocks. */
  predicate IsLatinLetter(c: char) {
    '\U{C0}' <= c <= '\U{24F}' && c != '\U{D7}' && c != '\U{F7}'
  }

  /**
   * `\w` of a Unicode-aware engine: ASCII letters, digits and underscore, plus the
   * Latin letter blocks standing in for the rest of Unicode's word characters.
   */
  predicate IsWordChar(c: char) {
    IsAsciiLetter(c) || IsAsciiDigit(c) || c == '_' || IsLatinLetter(c)
  }

  /** `[\w-]`, the class of the pydantic `pattern` on nicknames. */
  predicate IsNicknamePatternChar(c: char) { IsWordChar(c) || c == '-' }

  /** `[a-zA-Z0-9_-]`, the class of the nickname validator. */
  predicate IsNicknameChar(c: char) {
    IsAsciiLetter(c) || IsAsciiDigit(c) || c == '_' || c == '-'
  }

  /** `[a-zA-Z\s'-]`, the class of the first- and last-name validators. */
  predicate IsNameChar(c: char) {
    IsAsciiLetter(c) || IsSpace(c) || c == '\'' || c == '-'
  }

  /** The punctuation a password must draw at least one character from. */
  const SpecialChars: string := "!@#$%^&*(),.?\":{}|<>"

  predicate IsSpecialChar(c: char) { c in SpecialChars }

  /** The pattern class is strictly wider than the validator class, and neither holds a line break. */
  lemma NicknameClassesNested(c: char)
    ensures IsNicknameChar(c) ==> IsNicknamePatternChar(c)
    ensures !IsNicknamePatternChar('\n') && !IsNicknameChar('\n')
    ensures IsNicknamePatternChar('\U{E9}') && !IsNicknameChar('\U{E9}')
  {
  }
}
