/**
 * `PersianGlyphParser.parse`: one left-to-right pass that shapes every table
 * letter by its input neighbours and reverses every run of digits in place.
 *
 * `Parse` is the loop itself, over a `StringBuilder` modelled as a sequence
 * with insertion as a splice. `ShapedText` says declaratively what lands at
 * each output position, and `Parse` is proved to compute it.
 */
module Parser {
  import opened Chars
  import opened Optional
  import opened Glyphs
  import opened Joining

  /** The previous input neighbour of position i, absent at the start. */
  function Prev(s: seq<CodeUnit>, i: nat): Option<CodeUnit>
    requires i < |s|
  {
    if i > 0 then Some(s[i - 1]) else None
  }

  /** The next input neighbour of position i, absent at the end. */
  function Next(s: seq<CodeUnit>, i: nat): Option<CodeUnit>
    requires i < |s|
  {
    if i < |s| - 1 then Some(s[i + 1]) else None
  }

  /**
   * One `case` branch of the switch, for the letter of row k at position i:
   * the last position looks only back, an inner one both ways, and the first
   * position looks only ahead, except that the two alef branches take column 0.
   */
  function CaseBranch(s: seq<CodeUnit>, i: nat, k: nat): CodeUnit
    requires 2 <= |s| && i < |s| && k < LetterCount
  {
    if i == |s| - 1 then Forms(k)[ShapeIndex(Some(s[i - 1]), None)]
    else if i != 0 then Forms(k)[ShapeIndex(Some(s[i - 1]), Some(s[i + 1]))]
    else if k == 0 || k == 1 then Forms(k)[Isolated]
    else Forms(k)[ShapeIndex(None, Some(s[i + 1]))]
  }

  /**
   * The rule every branch of the switch follows: a table letter takes the entry
   * of its row at the column its two input neighbours select, and any other
   * code unit is copied.
   */
  function GlyphAt(s: seq<CodeUnit>, i: nat): CodeUnit
    requires i < |s|
  {
    match LetterIndex(s[i])
    case None => s[i]
    case Some(k) => Forms(k)[ShapeIndex(Prev(s, i), Next(s, i))]
  }

  /**
   * The switch on a non-digit at position i. Its 34 hand-written branches,
   * the alef branches' fixed column 0 at the first position included, and its
   * `default` branch all agree with the single rule GlyphAt.
   */
  function ShapeChar(s: seq<CodeUnit>, i: nat): (c: CodeUnit)
    requires 2 <= |s| && i < |s|
    ensures c == GlyphAt(s, i)
  {
    match LetterIndex(s[i])
    case None => s[i]
    case Some(k) => BranchesCollapse(s, i, k); CaseBranch(s, i, k)
  }

  /** Each hand-written branch equals the generic lookup at the classifier's column. */
  lemma BranchesCollapse(s: seq<CodeUnit>, i: nat, k: nat)
    requires 2 <= |s| && i < |s| && k < LetterCount
    ensures CaseBranch(s, i, k) == Forms(k)[ShapeIndex(Prev(s, i), Next(s, i))]
  {
    if i == 0 && (k == 0 || k == 1) {
      RightJoiningOnlyIgnoresNext(k, None, Next(s, i));
    }
  }

  /** First position of the maximal digit run ending at p: walk back over digits. */
  function RunStart(s: seq<CodeUnit>, p: nat): (a: nat)
    requires p < |s|
    ensures a <= p
    ensures a == 0 || !IsDigit(s[a - 1])
    ensures forall q :: a <= q < p ==> IsDigit(s[q])
    decreases p
  {
    if p > 0 && IsDigit(s[p - 1]) then RunStart(s, p - 1) else p
  }

  /** One past the last position of the maximal digit run starting at p: walk on over digits. */
  function RunEnd(s: seq<CodeUnit>, p: nat): (b: nat)
    requires p < |s|
    ensures p < b <= |s|
    ensures b == |s| || !IsDigit(s[b])
    ensures forall q :: p < q < b ==> IsDigit(s[q])
    decreases |s| - p
  {
    if p + 1 < |s| && IsDigit(s[p + 1]) then RunEnd(s, p + 1) else p + 1
  }

  /**
   * The output code unit at position p: a digit takes the place mirrored
   * within its run, anything else is shaped where it stands.
   */
  function OutputAt(s: seq<CodeUnit>, p: nat): CodeUnit
    requires p < |s|
  {
    if IsDigit(s[p]) then s[RunStart(s, p) + RunEnd(s, p) - 1 - p] else GlyphAt(s, p)
  }

  /**
   * What `parse` returns: inputs of length 0 or 1 unchanged, otherwise OutputAt
   * everywhere. Every position is filled, by one insert or one append each.
   */
  function ShapedText(s: seq<CodeUnit>): (r: seq<CodeUnit>)
    ensures |r| == |s|
  {
    if |s| <= 1 then s else seq(|s|, p requires 0 <= p < |s| => OutputAt(s, p))
  }

  /** A run [a, b) is a maximal run of digits of s. */
  predicate IsDigitRun(s: seq<CodeUnit>, a: nat, b: nat) {
    a < b <= |s| &&
    (forall q :: a <= q < b ==> IsDigit(s[q])) &&
    (a == 0 || !IsDigit(s[a - 1])) &&
    (b == |s| || !IsDigit(s[b]))
  }

  /** Walking back from any position of a maximal run reaches its first position. */
  lemma {:induction false} RunStartOfRun(s: seq<CodeUnit>, a: nat, b: nat, p: nat)
    requires IsDigitRun(s, a, b) && a <= p < b
    ensures RunStart(s, p) == a
    decreases p
  {
    if p > a {
      RunStartOfRun(s, a, b, p - 1);
    }
  }

  /** Walking on from any position of a maximal run reaches its end. */
  lemma {:induction false} RunEndOfRun(s: seq<CodeUnit>, a: nat, b: nat, p: nat)
    requires IsDigitRun(s, a, b) && a <= p < b
    ensures RunEnd(s, p) == b
    decreases b - p
  {
    if p + 1 < b {
      RunEndOfRun(s, a, b, p + 1);
    }
  }

  /** Inside a maximal run, the output mirrors the input. */
  lemma OutputInRun(s: seq<CodeUnit>, a: nat, b: nat, p: nat)
    requires IsDigitRun(s, a, b) && a <= p < b
    ensures OutputAt(s, p) == s[a + b - 1 - p]
  {
    RunStartOfRun(s, a, b, p);
    RunEndOfRun(s, a, b, p);
  }

  /**
   * The state of `parse` after reading s[..i] with its cursor at j: sb holds
   * the final output for every position before j, and the digit run s[j..i]
   * not yet closed by a non-digit, back to front.
   */
  predicate Built(s: seq<CodeUnit>, sb: seq<CodeUnit>, j: nat, i: nat) {
    j <= i <= |s| && |sb| == i &&
    (j == 0 || !IsDigit(s[j - 1])) &&
    (forall q :: j <= q < i ==> IsDigit(s[q])) &&
    (forall p :: 0 <= p < j ==> sb[p] == OutputAt(s, p)) &&
    (forall p :: j <= p < i ==> sb[p] == s[j + i - 1 - p])
  }

  /**
   * `parse`. A digit is inserted at cursor j, which is moved just past every
   * non-digit, so each run of digits builds up back to front; a non-digit is
   * appended, shaped by the switch.
   */
  method Parse(s: seq<CodeUnit>) returns (r: seq<CodeUnit>)
    ensures r == ShapedText(s)
  {
    if |s| <= 1 {
      return s;
    }
    var sb: seq<CodeUnit> := [];
    var j := 0;
    var n := |s|;
    for i := 0 to n
      invariant Built(s, sb, j, i)
    {
      var c := s[i];
      if IsDigit(c) {
        InsertDigit(s, sb, j, i);
        sb := sb[..j] + [c] + sb[j..];
      } else {
        AppendOther(s, sb, j, i);
        j := i + 1;
        sb := sb + [ShapeChar(s, i)];
      }
    }
    AllBuilt(s, sb, j);
    OutputEverywhere(s, sb);
    r := sb;
  }

  /** Inserting a digit at the cursor extends the open run by one. */
  lemma InsertDigit(s: seq<CodeUnit>, sb: seq<CodeUnit>, j: nat, i: nat)
    requires Built(s, sb, j, i) && i < |s| && IsDigit(s[i])
    ensures Built(s, sb[..j] + [s[i]] + sb[j..], j, i + 1)
  {
    InsertAt(sb, j, s[i]);
  }

  /** Appending a shaped non-digit closes the open run, whose digits are then final. */
  lemma AppendOther(s: seq<CodeUnit>, sb: seq<CodeUnit>, j: nat, i: nat)
    requires 2 <= |s| && Built(s, sb, j, i) && i < |s| && !IsDigit(s[i])
    ensures Built(s, sb + [ShapeChar(s, i)], i + 1, i + 1)
  {
    var sb' := sb + [ShapeChar(s, i)];
    forall p | 0 <= p < i + 1
      ensures sb'[p] == OutputAt(s, p)
    {
      if j <= p < i {
        OutputInRun(s, j, i, p);
      }
    }
  }

  /** At the end of the input the open run is closed by the end itself. */
  lemma AllBuilt(s: seq<CodeUnit>, sb: seq<CodeUnit>, j: nat)
    requires Built(s, sb, j, |s|)
    ensures |sb| == |s| && forall p :: 0 <= p < |s| ==> sb[p] == OutputAt(s, p)
  {
    forall p | j <= p < |s|
      ensures sb[p] == OutputAt(s, p)
    {
      OutputInRun(s, j, |s|, p);
    }
  }

  /** A text of two or more code units whose every position holds OutputAt is the shaped text. */
  lemma OutputEverywhere(s: seq<CodeUnit>, sb: seq<CodeUnit>)
    requires 2 <= |s| && |sb| == |s|
    requires forall p :: 0 <= p < |s| ==> sb[p] == OutputAt(s, p)
    ensures sb == ShapedText(s)
  {
  }

  /** `StringBuilder.insert(j, c)`: c lands at j, what was at j and beyond moves up by one. */
  lemma InsertAt(sb: seq<CodeUnit>, j: nat, c: CodeUnit)
    requires j <= |sb|
    ensures |sb[..j] + [c] + sb[j..]| == |sb| + 1
    ensures (sb[..j] + [c] + sb[j..])[j] == c
    ensures forall p :: 0 <= p < j ==> (sb[..j] + [c] + sb[j..])[p] == sb[p]
    ensures forall p :: j < p <= |sb| ==> (sb[..j] + [c] + sb[j..])[p] == sb[p - 1]
  {
  }

  /** An input of length 0 or 1 comes back as it is, so a lone letter keeps its base code unit. */
  lemma ShortInputUnchanged(s: seq<CodeUnit>)
    requires |s| <= 1
    ensures ShapedText(s) == s
  {
  }

  /** A lone keheh is returned as U+06A9, not as its isolated glyph U+0643. */
  lemma LoneLetterNotShaped()
    ensures ShapedText([0x06A9]) == [0x06A9]
    ensures Forms(25)[Isolated] != 0x06A9
  {
  }

  /**
   * A non-digit stays where it was: a table letter becomes the entry of its row
   * at the column its input neighbours select, any other code unit is copied.
   */
  lemma NonDigitInPlace(s: seq<CodeUnit>, p: nat)
    requires 2 <= |s| && p < |s| && !IsDigit(s[p])
    ensures LetterIndex(s[p]).None? ==> ShapedText(s)[p] == s[p]
    ensures LetterIndex(s[p]).Some? ==>
      ShapedText(s)[p] == Forms(LetterIndex(s[p]).value)[ShapeIndex(Prev(s, p), Next(s, p))]
  {
  }

  /** Each digit of a maximal run lands at the position mirrored within the run. */
  lemma DigitOutput(s: seq<CodeUnit>, a: nat, b: nat, p: nat)
    requires IsDigitRun(s, a, b) && a <= p < b
    ensures ShapedText(s)[p] == s[a + b - 1 - p]
  {
    if 2 <= |s| {
      OutputInRun(s, a, b, p);
    }
  }

  /** Every maximal run of digits appears reversed at the positions it occupied. */
  lemma DigitRunReversed(s: seq<CodeUnit>, a: nat, b: nat)
    requires IsDigitRun(s, a, b)
    ensures ShapedText(s)[a..b] == Reverse(s[a..b])
  {
    forall p | a <= p < b
      ensures ShapedText(s)[p] == s[a + b - 1 - p]
    {
      DigitOutput(s, a, b, p);
    }
    MirroredSlice(ShapedText(s), s, a, b);
  }

  /** A slice of out that mirrors the same slice of s is its reverse. */
  lemma MirroredSlice(out: seq<CodeUnit>, s: seq<CodeUnit>, a: nat, b: nat)
    requires a <= b <= |out| && b <= |s|
    requires forall p :: a <= p < b ==> out[p] == s[a + b - 1 - p]
    ensures out[a..b] == Reverse(s[a..b])
  {
    var run := s[a..b];
    forall p | 0 <= p < b - a
      ensures out[a..b][p] == Reverse(run)[p]
    {
      assert Reverse(run)[p] == run[b - a - 1 - p] == s[b - 1 - p];
    }
  }

  /** A text of digits only comes back reversed. */
  lemma DigitsOnlyReversed(s: seq<CodeUnit>)
    requires forall q :: 0 <= q < |s| ==> IsDigit(s[q])
    ensures ShapedText(s) == Reverse(s)
  {
    if 0 < |s| {
      assert IsDigitRun(s, 0, |s|);
      DigitRunReversed(s, 0, |s|);
      assert ShapedText(s)[0..|s|] == ShapedText(s) && s[0..|s|] == s;
    } else {
      ReverseShort(s);
    }
  }

  /** The output has digits exactly where the input has them. */
  lemma DigitPositionsPreserved(s: seq<CodeUnit>, p: nat)
    requires p < |s|
    ensures IsDigit(ShapedText(s)[p]) <==> IsDigit(s[p])
  {
    if 2 <= |s| {
      if IsDigit(s[p]) {
        MirroredDigitIsDigit(s, p);
      } else {
        GlyphNotDigit(s, p);
      }
    }
  }

  /** The code unit a digit is swapped with lies in the same run, so it is a digit too. */
  lemma MirroredDigitIsDigit(s: seq<CodeUnit>, p: nat)
    requires p < |s| && IsDigit(s[p])
    ensures IsDigit(OutputAt(s, p))
  {
    var a, b := RunStart(s, p), RunEnd(s, p);
    var q := a + b - 1 - p;
    assert a <= q < b;
  }

  /** The generic rule never turns a non-digit into a digit. */
  lemma GlyphNotDigit(s: seq<CodeUnit>, p: nat)
    requires p < |s| && !IsDigit(s[p])
    ensures !IsDigit(GlyphAt(s, p))
  {
    var k := LetterIndex(s[p]);
    if k.Some? {
      NoGlyphIsDigit(k.value, ShapeIndex(Prev(s, p), Next(s, p)));
    }
  }

  /** A text with no digit and no table letter comes back as it is. */
  lemma PassThrough(s: seq<CodeUnit>)
    requires forall q :: 0 <= q < |s| ==> !IsDigit(s[q]) && LetterIndex(s[q]).None?
    ensures ShapedText(s) == s
  {
  }

  /**
   * The glyph of a non-digit depends only on the input at its own position and
   * the two beside it, never on what was written to the output before it.
   */
  lemma ShapingIsLocal(s: seq<CodeUnit>, t: seq<CodeUnit>, p: nat, q: nat)
    requires 2 <= |s| && 2 <= |t| && p < |s| && q < |t|
    requires s[p] == t[q] && !IsDigit(s[p])
    requires Prev(s, p) == Prev(t, q) && Next(s, p) == Next(t, q)
    ensures ShapedText(s)[p] == ShapedText(t)[q]
  {
  }

  /** The letter of row k at position p takes the column its neighbours select. */
  lemma LetterShapedAt(s: seq<CodeUnit>, p: nat, k: nat, column: nat)
    requires 2 <= |s| && p < |s| && k < LetterCount && s[p] == Letters[k]
    requires ShapeIndex(Prev(s, p), Next(s, p)) == column
    ensures column < 4 && ShapedText(s)[p] == Forms(k)[column]
  {
    LetterIndexInvertsLetters(k);
    NoGlyphIsDigit(k, 0);
    NonDigitInPlace(s, p);
  }

  /** Two ASCII digits swap places: "12" becomes "21". */
  lemma TwoDigitsSwap(s: seq<CodeUnit>)
    requires s == ['1' as CodeUnit, '2' as CodeUnit]
    ensures ShapedText(s) == ['2' as CodeUnit, '1' as CodeUnit]
  {
    DigitsOnlyReversed(s);
  }

  /** Between two other characters the run reverses on its own: "x12y" becomes "x21y". */
  lemma RunBetweenOthers(s: seq<CodeUnit>)
    requires s == ['x' as CodeUnit, '1' as CodeUnit, '2' as CodeUnit, 'y' as CodeUnit]
    ensures ShapedText(s) == ['x' as CodeUnit, '2' as CodeUnit, '1' as CodeUnit, 'y' as CodeUnit]
  {
    assert IsDigitRun(s, 1, 3);
    DigitOutput(s, 1, 3, 1);
    DigitOutput(s, 1, 3, 2);
    NonDigitInPlace(s, 0);
    NonDigitInPlace(s, 3);
  }

  /** ب ا: beh takes its initial form and alef its final form. */
  lemma BehAlef(s: seq<CodeUnit>)
    requires s == [0x0628, 0x0627]
    ensures ShapedText(s) == [65169, 65166]
  {
    LetterShapedAt(s, 0, 2, Initial);
    LetterShapedAt(s, 1, 1, Final);
  }

  /**
   * An Arabic-Indic digit is reversed as a digit yet lets a neighbouring letter
   * join: in ب٠ the beh takes its initial form.
   */
  lemma ArabicIndicDigitJoins(s: seq<CodeUnit>)
    requires s == [0x0628, 0x0660]
    ensures ShapedText(s) == [65169, 0x0660]
  {
    LetterShapedAt(s, 0, 2, Initial);
    assert ShapedText(s)[1] == 0x0660 by {
      assert IsDigitRun(s, 1, 2);
      OutputInRun(s, 1, 2, 1);
    }
  }

  /** ب ا ب: beh initial, alef final (medial and final coincide), the last beh isolated. */
  lemma BehAlefBeh(s: seq<CodeUnit>)
    requires s == [0x0628, 0x0627, 0x0628]
    ensures ShapedText(s) == [65169, 65166, 0x0628]
  {
    LetterShapedAt(s, 0, 2, Initial);
    LetterShapedAt(s, 1, 1, Medial);
    LetterShapedAt(s, 2, 2, Isolated);
  }

  /** The output of BehAlefBeh shaped again: only its last code unit is a table letter, and it now joins. */
  lemma BehAlefBehReshaped(t: seq<CodeUnit>)
    requires t == [65169, 65166, 0x0628]
    ensures ShapedText(t) == [65169, 65166, 65168]
  {
    assert !IsDigit(t[0]) && LetterIndex(t[0]).None?;
    assert !IsDigit(t[1]) && LetterIndex(t[1]).None?;
    NonDigitInPlace(t, 0);
    NonDigitInPlace(t, 1);
    LetterShapedAt(t, 2, 2, Final);
  }

  /**
   * Shaping twice is not shaping once: in ب ا ب the last beh follows alef and
   * stays isolated, but after one pass it follows alef's final glyph, which joins.
   */
  lemma NotIdempotent(s: seq<CodeUnit>)
    requires s == [0x0628, 0x0627, 0x0628]
    ensures ShapedText(ShapedText(s)) != ShapedText(s)
  {
    BehAlefBeh(s);
    BehAlefBehReshaped(ShapedText(s));
  }
}
