/** Which texts are valid UPS, command and variable names. */
module Names {

  /** `u8::is_ascii_whitespace`: space, tab, line feed, form feed and carriage return. */
  predicate IsAsciiWhitespace(c: char) {
    c == ' ' || c == '\t' || c == '\n' || c == 12 as char || c == '\r'
  }

  predicate IsAsciiAlphabetic(c: char) {
    'A' <= c <= 'Z' || 'a' <= c <= 'z'
  }

  /** The name characters of RFC 9271. */
  predicate IsNameChar(c: char) {
    c == '-' || c == '.' || c == '_' || '0' <= c <= '9' || IsAsciiAlphabetic(c)
  }

  predicate NoWhitespace(s: string) {
    forall i | 0 <= i < |s| :: !IsAsciiWhitespace(s[i])
  }

  predicate IsUpsName(s: string) {
    s != [] && NoWhitespace(s)
  }

  /** Command names and variable names follow the same rule. */
  predicate IsDottedName(s: string) {
    s != [] && IsAsciiAlphabetic(s[0]) && forall i | 0 <= i < |s| :: IsNameChar(s[i])
  }

  /** A text that the lexer reads back as one plain word. */
  predicate IsWord(s: string) {
    s != [] && NoWhitespace(s) && s[0] != '"'
  }
}
