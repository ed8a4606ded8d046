/** The `<cctype>` classifiers in the C locale: only ASCII characters are
    spaces, letters or digits; a byte of 128 or more is none of them. */
module Ascii {
  import opened Basic

  /** `std::isspace`: space, tab, newline, vertical tab, form feed, return. */
  predicate IsSpace(c: CChar) {
    c == ' ' || c == '\t' || c == '\n' || c as int == 11 || c as int == 12 || c == '\r'
  }

  /** `std::isdigit`. */
  predicate IsDigit(c: CChar) {
    '0' <= c <= '9'
  }

  /** `std::isalpha`. */
  predicate IsAlpha(c: CChar) {
    'a' <= c <= 'z' || 'A' <= c <= 'Z'
  }

  /** `std::isalnum`. */
  predicate IsAlnum(c: CChar) {
    IsAlpha(c) || IsDigit(c)
  }

  /** `std::isxdigit`. */
  predicate IsXDigit(c: CChar) {
    IsDigit(c) || 'a' <= c <= 'f' || 'A' <= c <= 'F'
  }

  /** The value of a hexadecimal digit, as `std::stoi(std::string(1, c), nullptr, 16)`
      gives it. */
  function HexValue(c: CChar): (v: nat)
    requires IsXDigit(c)
    ensures v < 16
  {
    if IsDigit(c) then c as int - '0' as int
    else if 'a' <= c <= 'f' then c as int - 'a' as int + 10
    else c as int - 'A' as int + 10
  }
}
