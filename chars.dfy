/** Java's `char`: a UTF-16 code unit, and the few facts about it the shaper uses. */
module Chars {

  /** A Java `char`. Unlike Dafny's `char` it includes the surrogate halves. */
  newtype CodeUnit = c: int | 0 <= c < 0x1_0000

  /**
   * `Character.isDigit(char)`: the code unit is in Unicode category Nd.
   * The ranges below are the Basic Multilingual Plane's decimal-digit blocks
   * as of Unicode 15.0; each block holds exactly ten digits.
   */
  predicate IsDigit(c: CodeUnit) {
    0x0030 <= c <= 0x0039 || 0x0660 <= c <= 0x0669 || 0x06F0 <= c <= 0x06F9 ||
    0x07C0 <= c <= 0x07C9 || 0x0966 <= c <= 0x096F || 0x09E6 <= c <= 0x09EF ||
    0x0A66 <= c <= 0x0A6F || 0x0AE6 <= c <= 0x0AEF || 0x0B66 <= c <= 0x0B6F ||
    0x0BE6 <= c <= 0x0BEF || 0x0C66 <= c <= 0x0C6F || 0x0CE6 <= c <= 0x0CEF ||
    0x0D66 <= c <= 0x0D6F || 0x0DE6 <= c <= 0x0DEF || 0x0E50 <= c <= 0x0E59 ||
    0x0ED0 <= c <= 0x0ED9 || 0x0F20 <= c <= 0x0F29 || 0x1040 <= c <= 0x1049 ||
    0x1090 <= c <= 0x1099 || 0x17E0 <= c <= 0x17E9 || 0x1810 <= c <= 0x1819 ||
    0x1946 <= c <= 0x194F || 0x19D0 <= c <= 0x19D9 || 0x1A80 <= c <= 0x1A89 ||
    0x1A90 <= c <= 0x1A99 || 0x1B50 <= c <= 0x1B59 || 0x1BB0 <= c <= 0x1BB9 ||
    0x1C40 <= c <= 0x1C49 || 0x1C50 <= c <= 0x1C59 || 0xA620 <= c <= 0xA629 ||
    0xA8D0 <= c <= 0xA8D9 || 0xA900 <= c <= 0xA909 || 0xA9D0 <= c <= 0xA9D9 ||
    0xA9F0 <= c <= 0xA9F9 || 0xAA50 <= c <= 0xAA59 || 0xABF0 <= c <= 0xABF9 ||
    0xFF10 <= c <= 0xFF19
  }

  /** The sequence read back to front. */
  function Reverse(t: seq<CodeUnit>): seq<CodeUnit> {
    seq(|t|, k requires 0 <= k < |t| => t[|t| - 1 - k])
  }

  /** A sequence of at most one element is its own reverse. */
  lemma ReverseShort(t: seq<CodeUnit>)
    requires |t| <= 1
    ensures Reverse(t) == t
  {
    if |t| == 1 {
      assert Reverse(t)[0] == t[0];
    }
  }
}
