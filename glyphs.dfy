/**
 * The presentation-form table (class `PersianGlyphs`) and the map from a
 * base letter to its row, which the source spells out as the `case` labels
 * of the switch in `parse`.
 */
module Glyphs {
  import opened Chars
  import opened Optional

  /** Number of shapable letters. */
  const LetterCount: nat := 34

  /** Column indices of a row: the values `getShapeIndex` returns. */
  const Isolated: nat := 0
  const Final: nat := 1
  const Initial: nat := 2
  const Medial: nat := 3

  /** The `case` labels of the switch, in row order: Letters[k] selects row k. */
  const Letters: seq<CodeUnit> := [
    0x0622, // آ
    0x0627, // ا
    0x0628, // ب
    0x067E, // پ
    0x062A, // ت
    0x062B, // ث
    0x062C, // ج
    0x0686, // چ
    0x062D, // ح
    0x062E, // خ
    0x062F, // د
    0x0630, // ذ
    0x0631, // ر
    0x0632, // ز
    0x0698, // ژ
    0x0633, // س
    0x0634, // ش
    0x0635, // ص
    0x0636, // ض
    0x0637, // ط
    0x0638, // ظ
    0x0639, // ع
    0x063A, // غ
    0x0641, // ف
    0x0642, // ق
    0x06A9, // ک (Persian keheh)
    0x06AF, // گ
    0x0644, // ل
    0x0645, // م
    0x0646, // ن
    0x0648, // و
    0x0647, // ه
    0x06CC, // ی (Farsi yeh)
    0x0626  // ئ
  ]

  /** The glyph table: row k lists {isolated, final, initial, medial}. */
  const FormTable: seq<seq<CodeUnit>> := [
    [1570, 65154, 1570, 65154],
    [1575, 65166, 1575, 65166],
    [1576, 65168, 65169, 65170],
    [1662, 64343, 64344, 64345],
    [1578, 65174, 65175, 65176],
    [1579, 65178, 65179, 65180],
    [1580, 65182, 65183, 65184],
    [1670, 64379, 64380, 64381],
    [1581, 65186, 65187, 65188],
    [1582, 65190, 65191, 65192],
    [1583, 65194, 1583, 65194],
    [1584, 65196, 1584, 65196],
    [1585, 65198, 1585, 65198],
    [1586, 65200, 1586, 65200],
    [1688, 64395, 1688, 64395],
    [1587, 65202, 65203, 65204],
    [1588, 65206, 65207, 65208],
    [1589, 65210, 65211, 65212],
    [1590, 65214, 65215, 65216],
    [1591, 65218, 65219, 65220],
    [1592, 65222, 65223, 65224],
    [1593, 65226, 65227, 65228],
    [1594, 65230, 65231, 65232],
    [1601, 65234, 65235, 65236],
    [1602, 65238, 65239, 65240],
    [1603, 64399, 64400, 64401],
    [1711, 64403, 64404, 64405],
    [1604, 65246, 65247, 65248],
    [1605, 65250, 65251, 65252],
    [1606, 65254, 65255, 65256],
    [1608, 65262, 1608, 65262],
    [1607, 65258, 65259, 65260],
    [1609, 64509, 64510, 64511],
    [1574, 65162, 65163, 65164]
  ]

  /** `GLYPHS.get(k)`: the four forms of row k. */
  function Forms(k: nat): (f: seq<CodeUnit>)
    requires k < LetterCount
    ensures |f| == 4
  {
    FormTable[k]
  }

  /**
   * The rows of the letters that never join to the following letter
   * (alef with madda, alef, dal, thal, reh, zain, jeh, waw).
   */
  const RightJoiningOnly: set<nat> := {0, 1, 10, 11, 12, 13, 14, 30}

  /** The row the switch in `parse` dispatches `c` to, or None for its `default` branch. */
  function LetterIndex(c: CodeUnit): (r: Option<nat>)
    ensures r.Some? ==> r.value < LetterCount && Letters[r.value] == c
  {
    match c
    case 0x0622 => Some(0)
    case 0x0627 => Some(1)
    case 0x0628 => Some(2)
    case 0x067E => Some(3)
    case 0x062A => Some(4)
    case 0x062B => Some(5)
    case 0x062C => Some(6)
    case 0x0686 => Some(7)
    case 0x062D => Some(8)
    case 0x062E => Some(9)
    case 0x062F => Some(10)
    case 0x0630 => Some(11)
    case 0x0631 => Some(12)
    case 0x0632 => Some(13)
    case 0x0698 => Some(14)
    case 0x0633 => Some(15)
    case 0x0634 => Some(16)
    case 0x0635 => Some(17)
    case 0x0636 => Some(18)
    case 0x0637 => Some(19)
    case 0x0638 => Some(20)
    case 0x0639 => Some(21)
    case 0x063A => Some(22)
    case 0x0641 => Some(23)
    case 0x0642 => Some(24)
    case 0x06A9 => Some(25)
    case 0x06AF => Some(26)
    case 0x0644 => Some(27)
    case 0x0645 => Some(28)
    case 0x0646 => Some(29)
    case 0x0648 => Some(30)
    case 0x0647 => Some(31)
    case 0x06CC => Some(32)
    case 0x0626 => Some(33)
    case _ => None
  }

  /** Every `case` label selects its own row: the lookup inverts `Letters`. */
  lemma LetterIndexInvertsLetters(k: nat)
    requires k < LetterCount
    ensures LetterIndex(Letters[k]) == Some(k)
  {
  }

  /** The `default` branch is taken exactly for the code units that are no `case` label. */
  lemma LetterIndexNone(c: CodeUnit)
    ensures LetterIndex(c).None? <==> c !in Letters
  {
    if LetterIndex(c).None? {
      forall k | 0 <= k < LetterCount
        ensures Letters[k] != c
      {
        LetterIndexInvertsLetters(k);
      }
    }
  }

  /** No two `case` labels coincide. */
  lemma LettersDistinct(k: nat, m: nat)
    requires k < LetterCount && m < LetterCount
    requires Letters[k] == Letters[m]
    ensures k == m
  {
    LetterIndexInvertsLetters(k);
    LetterIndexInvertsLetters(m);
  }

  /**
   * A right-joining-only row has just two distinct glyphs: its initial form
   * repeats the isolated one and its medial form repeats the final one.
   */
  lemma RightJoiningOnlyRows(k: nat)
    requires k < LetterCount
    ensures k in RightJoiningOnly <==> Forms(k)[Initial] == Forms(k)[Isolated] && Forms(k)[Medial] == Forms(k)[Final]
  {
  }

  /** The isolated form is the base letter itself except in the rows of keheh and Farsi yeh. */
  lemma IsolatedFormIsBase(k: nat)
    requires k < LetterCount
    ensures Forms(k)[Isolated] == Letters[k] <==> k != 25 && k != 32
  {
  }

  /** The Arabic block below the Arabic-Indic digits, above them, or the presentation forms. */
  predicate InGlyphBlocks(c: CodeUnit) {
    0x0622 <= c < 0x0660 || 0x0669 < c <= 0x06CC || 0xFB57 <= c <= 0xFEEE
  }

  /** Every base letter lies in the blocks above. */
  lemma LettersInBlocks(k: nat)
    requires k < LetterCount
    ensures InGlyphBlocks(Letters[k])
  {
  }

  /** Every table entry lies in the blocks above. */
  lemma FormsInBlocks(k: nat, f: nat)
    requires k < LetterCount && f < 4
    ensures InGlyphBlocks(Forms(k)[f])
  {
  }

  /** No table entry and no base letter is a digit, so shaping never makes or hides one. */
  lemma NoGlyphIsDigit(k: nat, f: nat)
    requires k < LetterCount && f < 4
    ensures !IsDigit(Forms(k)[f]) && !IsDigit(Letters[k])
  {
    LettersInBlocks(k);
    FormsInBlocks(k, f);
  }
}
