/** Whitespace as JavaScript's `trim` and `\s` read it. */
module Whitespace {
  predicate IsSpace(c: char) {
    c in {'\t', '\n', '\U{0B}', '\U{0C}', '\r', ' ', '\U{A0}', '\U{1680}', '\U{2028}', '\U{2029}', '\U{202F}',
          '\U{205F}', '\U{3000}', '\U{FEFF}'}
    || '\U{2000}' <= c <= '\U{200A}'
  }

  /** Nothing is left of it once trimmed. */
  predicate AllSpace(s: string) {
    forall c | c in s :: IsSpace(c)
  }
}
