/**
 * The join classifier: the two character classes `UNJOINABLE_COMING_BEFORE`
 * and `UNJOINABLE_COMING_AFTER`, and `getShapeIndex`, which turns the two
 * neighbours of a letter into a column of the glyph table.
 */
module Joining {
  import opened Chars
  import opened Optional
  import opened Glyphs

  /** The regular-expression class `\s`: space, tab, line feed, vertical tab, form feed, carriage return. */
  predicate IsRegexSpace(c: CodeUnit) {
    c == 0x20 || 0x09 <= c <= 0x0D
  }

  /** The regular-expression class `\d`: the ASCII digits only. */
  predicate IsRegexDigit(c: CodeUnit) {
    0x30 <= c <= 0x39
  }

  /** The range `۰-۹`: the extended Arabic-Indic (Persian) digits. */
  predicate IsPersianDigit(c: CodeUnit) {
    0x06F0 <= c <= 0x06F9
  }

  const Hamza: CodeUnit := 0x0621       // ء
  const AsciiComma: CodeUnit := 0x2C    // ,
  const ArabicComma: CodeUnit := 0x060C // ،

  /**
   * The punctuation both classes share:
   * % ! ( ) + - * / : = [ ] { } < > ' " # . and the Arabic semicolon and question mark.
   */
  predicate IsSharedPunctuation(c: CodeUnit) {
    c == 0x25 || c == 0x21 || c == 0x28 || c == 0x29 || c == 0x2B || c == 0x2D ||
    c == 0x2A || c == 0x2F || c == 0x3A || c == 0x3D || c == 0x5B || c == 0x5D ||
    c == 0x7B || c == 0x7D || c == 0x3C || c == 0x3E || c == 0x27 || c == 0x22 ||
    c == 0x23 || c == 0x2E || c == 0x061B || c == 0x061F
  }

  /** The letters that end a connection: ر آ ا د ذ ز و ژ (hamza is counted separately). */
  predicate IsNonForwardJoining(c: CodeUnit) {
    c == 0x0631 || c == 0x0622 || c == 0x0627 || c == 0x062F ||
    c == 0x0630 || c == 0x0632 || c == 0x0648 || c == 0x0698
  }

  /** What both classes contain. */
  predicate Unjoinable(c: CodeUnit) {
    IsPersianDigit(c) || IsRegexSpace(c) || IsRegexDigit(c) || IsSharedPunctuation(c) || c == Hamza
  }

  /** `UNJOINABLE_COMING_BEFORE`: a previous neighbour that does not join to the letter. */
  predicate BlocksBefore(c: CodeUnit) {
    Unjoinable(c) || c == AsciiComma || IsNonForwardJoining(c)
  }

  /** `UNJOINABLE_COMING_AFTER`: a next neighbour that does not join to the letter. */
  predicate BlocksAfter(c: CodeUnit) {
    Unjoinable(c) || c == ArabicComma
  }

  /** Variable `b` of `getShapeIndex`: no previous neighbour, or one that blocks. */
  predicate BlockedBefore(previous: Option<CodeUnit>) {
    previous.None? || BlocksBefore(previous.value)
  }

  /** Variable `n` of `getShapeIndex`: no next neighbour, or one that blocks. */
  predicate BlockedAfter(next: Option<CodeUnit>) {
    next.None? || BlocksAfter(next.value)
  }

  /**
   * `getShapeIndex`: the column of the glyph table for a letter between
   * `previous` and `next`. The source's fourth test `!b && !n` always holds
   * when the first three fail, so its fall-through value 0 is never returned.
   */
  function ShapeIndex(previous: Option<CodeUnit>, next: Option<CodeUnit>): (r: nat)
    ensures r < 4
    ensures r == Isolated <==> BlockedBefore(previous) && BlockedAfter(next)
    ensures r == Final <==> !BlockedBefore(previous) && BlockedAfter(next)
    ensures r == Initial <==> BlockedBefore(previous) && !BlockedAfter(next)
    ensures r == Medial <==> !BlockedBefore(previous) && !BlockedAfter(next)
    // bit 0 says the letter joins its previous neighbour, bit 1 its next one
    ensures r % 2 == 1 <==> !BlockedBefore(previous)
    ensures r / 2 == 1 <==> !BlockedAfter(next)
  {
    var b := BlockedBefore(previous);
    var n := BlockedAfter(next);
    if b && n then 0
    else if !b && n then 1
    else if b && !n then 2
    else 3
  }

  /**
   * The two classes differ exactly in the two commas and the letters that end
   * a connection: these block a join only as the previous neighbour.
   */
  lemma ClassesDiffer(c: CodeUnit)
    ensures BlocksBefore(c) && !BlocksAfter(c) <==> c == AsciiComma || IsNonForwardJoining(c)
    ensures BlocksAfter(c) && !BlocksBefore(c) <==> c == ArabicComma
  {
  }

  /**
   * Among the table's letters, the previous neighbours that block are exactly
   * the right-joining-only letters.
   */
  lemma LettersBlockingBefore(k: nat)
    requires k < LetterCount
    ensures BlocksBefore(Letters[k]) <==> k in RightJoiningOnly
  {
    LettersInBlocks(k);
    assert BlocksBefore(Letters[k]) <==> IsNonForwardJoining(Letters[k]);
    if IsNonForwardJoining(Letters[k]) {
      LetterIndexInvertsLetters(k);
    }
  }

  /** No letter of the table blocks a join as the next neighbour. */
  lemma LettersJoinAfter(k: nat)
    requires k < LetterCount
    ensures !BlocksAfter(Letters[k])
  {
    LettersInBlocks(k);
  }

  /**
   * `Character.isDigit` is wider than the digits in both classes: the Arabic-Indic
   * digits U+0660..U+0669 are digits, yet as neighbours they let a letter join.
   */
  lemma DigitsAndClasses(c: CodeUnit)
    ensures IsRegexDigit(c) || IsPersianDigit(c) ==> IsDigit(c) && BlocksBefore(c) && BlocksAfter(c)
    ensures 0x0660 <= c <= 0x0669 ==> IsDigit(c) && !BlocksBefore(c) && !BlocksAfter(c)
  {
  }

  /**
   * For a right-joining-only letter the chosen glyph depends on the previous
   * neighbour alone: the final form after a joining letter, else the isolated one.
   */
  lemma RightJoiningOnlyIgnoresNext(k: nat, previous: Option<CodeUnit>, next: Option<CodeUnit>)
    requires k in RightJoiningOnly
    ensures k < LetterCount
    ensures Forms(k)[ShapeIndex(previous, next)] == if BlockedBefore(previous) then Forms(k)[Isolated] else Forms(k)[Final]
  {
    RightJoiningOnlyRows(k);
  }
}
