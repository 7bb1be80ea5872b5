/** Text tests shared by the ledger and the keyring: what `str.strip()` leaves non-empty. */
module PlainText {

  /** The characters `str.strip()` removes. */
  predicate IsSpace(ch: char) {
    || '\t' <= ch <= '\r' || '\U{1C}' <= ch <= ' ' || ch == '\U{85}' || ch == '\U{A0}' || ch == '\U{1680}'
    || '\U{2000}' <= ch <= '\U{200A}' || ch == '\U{2028}' || ch == '\U{2029}' || ch == '\U{202F}'
    || ch == '\U{205F}' || ch == '\U{3000}'
  }

  predicate HasText(s: string) {
    exists i | 0 <= i < |s| :: !IsSpace(s[i])
  }
}
