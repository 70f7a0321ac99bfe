# Persian glyph shaping, modelled in Dafny

`PersianGlyphParser.parse` turns Persian text in logical order into text a
renderer without contextual shaping can show. It returns a text of the same
length. It makes two changes to the input:

- **Letter shaping.** Each of 34 Persian letters is replaced by one of its four
  presentation forms: isolated, final, initial or medial. The form depends on
  whether the letter joins its previous and its next input neighbour.
- **Digit reordering.** Every maximal run of digits is reversed in place, so
  that numerals read left to right inside right-to-left text.

The model has five modules. Line numbers in this prose refer to
`src/main/java/com/jme3/font/plugins/PersianGlyphParser.java`.

- `Chars` (`chars.dfy`): the Java `char` as a UTF-16 code unit (`CodeUnit`),
  and `Character.isDigit` (line 67) as `IsDigit`.
- `Optional` (`optional.dfy`): `Option`, standing for Java's `null`.
- `Glyphs` (`glyphs.dfy`): the form table of class `PersianGlyphs`
  (`FormTable`, `Forms`), and the `case` labels of the switch in `parse` as
  the map `LetterIndex` from a code unit to its table row.
- `Joining` (`joining.dfy`): the two character classes `UNJOINABLE_COMING_BEFORE`
  (line 50) and `UNJOINABLE_COMING_AFTER` (line 51), written out as the
  predicates `BlocksBefore` and `BlocksAfter`, and `getShapeIndex`
  (lines 487-508) as `ShapeIndex`.
- `Parser` (`parser.dfy`): `parse` itself.
  - `Parse` is the loop. It keeps the `StringBuilder` as a sequence, with
    `insert(j, c)` as a splice.
  - `Parse` is proved to compute `ShapedText`, a declarative description of
    what lands at every output position.
  - Each `case` branch of the hand-unrolled switch is modelled as written
    (`CaseBranch`, lines 75-476). That includes the alef branches, which take
    column 0 at the first position. `Prev` and `Next` are the input
    neighbours the arms read. The whole switch is proved equal to one generic
    rule, `GlyphAt`: look up the letter's row at the column `ShapeIndex` picks
    from its two input neighbours.

The source is treated as the authority:

- **Shaping twice changes the text again.** Re-shaping already shaped text is
  not the identity. `Parser.NotIdempotent` exhibits this on ب ا ب, and the
  model follows the code.
- **Two labels differ from their row's isolated form.** The `case` labels for
  keheh and Farsi yeh are U+06A9 and U+06CC. The isolated forms in their table
  rows are U+0643 and U+0649. The lookup is keyed on the labels.

## Model

| member | source | states |
|---|---|---|
| Glyphs.Forms | src/main/java/com/jme3/font/plugins/PersianGlyphParser.java:529-567 | `GLYPHS.get(k)` for a row 0..33 yields a row of exactly four forms (isolated, final, initial, medial) |
| Glyphs.LetterIndex | src/main/java/com/jme3/font/plugins/PersianGlyphParser.java:75-478 | the switch dispatches a code unit to row k only if it is the k-th `case` label; anything else goes to `default` |
| Glyphs.LetterIndexInvertsLetters | src/main/java/com/jme3/font/plugins/PersianGlyphParser.java:75-465 | every `case` label dispatches to its own row |
| Glyphs.LetterIndexNone | src/main/java/com/jme3/font/plugins/PersianGlyphParser.java:477-478 | the `default` branch is taken exactly for code units that are not a `case` label |
| Glyphs.LettersDistinct | src/main/java/com/jme3/font/plugins/PersianGlyphParser.java:75-465 | no two `case` labels are equal |
| Glyphs.RightJoiningOnlyRows | src/main/java/com/jme3/font/plugins/PersianGlyphParser.java:529-562 | rows 0, 1, 10-14 and 30, and no others, repeat the isolated form as initial and the final form as medial |
| Glyphs.IsolatedFormIsBase | src/main/java/com/jme3/font/plugins/PersianGlyphParser.java:529-562 | a row's isolated form is its `case` label itself, except in rows 25 and 32 (keheh, Farsi yeh) |
| Glyphs.NoGlyphIsDigit | src/main/java/com/jme3/font/plugins/PersianGlyphParser.java:529-562 | no table entry and no `case` label is a digit for `Character.isDigit` |
| Joining.ShapeIndex | src/main/java/com/jme3/font/plugins/PersianGlyphParser.java:487-508 | the column is in 0..3; it is 0, 1, 2 or 3 exactly when both sides, only the next side, only the previous side or neither side is blocked; an absent neighbour blocks; bit 0 means joined to the previous neighbour, bit 1 joined to the next |
| Joining.ClassesDiffer | src/main/java/com/jme3/font/plugins/PersianGlyphParser.java:50-51 | the "before" class alone holds the ASCII comma and ا آ د ذ ر ز ژ و; the "after" class alone holds the Arabic comma |
| Joining.LettersBlockingBefore | src/main/java/com/jme3/font/plugins/PersianGlyphParser.java:50 | a table letter as previous neighbour blocks a join exactly when its row is right-joining-only |
| Joining.LettersJoinAfter | src/main/java/com/jme3/font/plugins/PersianGlyphParser.java:51 | no table letter blocks a join as the next neighbour |
| Joining.DigitsAndClasses | src/main/java/com/jme3/font/plugins/PersianGlyphParser.java:50-51 | ASCII and Persian digits are digits and block both ways; the Arabic-Indic digits U+0660..U+0669 are digits yet block neither way |
| Joining.RightJoiningOnlyIgnoresNext | src/main/java/com/jme3/font/plugins/PersianGlyphParser.java:529-562 | for a right-joining-only row the chosen form depends only on the previous neighbour: final after a joining neighbour, otherwise isolated |
| Parser.ShapeChar | src/main/java/com/jme3/font/plugins/PersianGlyphParser.java:75-478 | the switch, branch by branch as written, equals the generic rule: the letter's row at the column its input neighbours select, or the code unit itself in `default` |
| Parser.BranchesCollapse | src/main/java/com/jme3/font/plugins/PersianGlyphParser.java:75-96 | each of the three arms of a `case`, including the fixed column 0 of the two alef cases at the first position, equals the generic lookup; the neighbours are read from the input, `str.charAt(i - 1)` and `str.charAt(i + 1)`, and are `null` at the first and last positions |
| Parser.RunStart | src/main/java/com/jme3/font/plugins/PersianGlyphParser.java:63-71 | the first position of the maximal digit run ending at p: all digits from there to p, and a non-digit or the start just before |
| Parser.RunEnd | src/main/java/com/jme3/font/plugins/PersianGlyphParser.java:63-71 | one past the last position of the maximal digit run starting at p: all digits up to there, and a non-digit or the end just after |
| Parser.ShapedText | src/main/java/com/jme3/font/plugins/PersianGlyphParser.java:63-478 | the output has the input's length |
| Parser.RunStartOfRun | src/main/java/com/jme3/font/plugins/PersianGlyphParser.java:65-71 | from any position of a maximal run, the run start is the run's first position |
| Parser.RunEndOfRun | src/main/java/com/jme3/font/plugins/PersianGlyphParser.java:65-71 | from any position of a maximal run, the run end is one past its last position |
| Parser.OutputInRun | src/main/java/com/jme3/font/plugins/PersianGlyphParser.java:65-71 | a digit at position p of the maximal run [a, b) is output at position a + b - 1 - p |
| Parser.Parse | src/main/java/com/jme3/font/plugins/PersianGlyphParser.java:57-485 | the loop, with `insert(j, c)` for digits and `append` for the rest, returns exactly `ShapedText` |
| Parser.InsertDigit | src/main/java/com/jme3/font/plugins/PersianGlyphParser.java:67-68 | inserting a digit at cursor j keeps the finished prefix and extends the open run, back to front |
| Parser.AppendOther | src/main/java/com/jme3/font/plugins/PersianGlyphParser.java:69-71 | after a non-digit is appended and j moves to i + 1, everything before j is final output |
| Parser.AllBuilt | src/main/java/com/jme3/font/plugins/PersianGlyphParser.java:63-484 | when the input is exhausted, every position of the builder holds its final output |
| Parser.InsertAt | src/main/java/com/jme3/font/plugins/PersianGlyphParser.java:67 | `insert(j, c)` puts c at j, keeps what is before j and moves what was at j and after up by one |
| Parser.ShortInputUnchanged | src/main/java/com/jme3/font/plugins/PersianGlyphParser.java:58-60 | an input of length 0 or 1 is returned unchanged |
| Parser.LoneLetterNotShaped | src/main/java/com/jme3/font/plugins/PersianGlyphParser.java:58-60 | a lone keheh comes back as U+06A9, not as its isolated glyph |
| Parser.NonDigitInPlace | src/main/java/com/jme3/font/plugins/PersianGlyphParser.java:69-478 | a non-digit stays at its position: a table letter becomes its row's entry at the column its input neighbours select, anything else is copied |
| Parser.DigitOutput | src/main/java/com/jme3/font/plugins/PersianGlyphParser.java:65-71 | each digit of a maximal run lands at the position mirrored within the run |
| Parser.DigitRunReversed | src/main/java/com/jme3/font/plugins/PersianGlyphParser.java:65-71 | every maximal digit run appears reversed at the positions it occupied |
| Parser.MirroredSlice | src/main/java/com/jme3/font/plugins/PersianGlyphParser.java:65-71 | a slice that mirrors the input slice element by element is its reverse |
| Parser.DigitsOnlyReversed | src/main/java/com/jme3/font/plugins/PersianGlyphParser.java:58-71 | a text of digits only comes back reversed, whatever its length |
| Parser.DigitPositionsPreserved | src/main/java/com/jme3/font/plugins/PersianGlyphParser.java:63-478 | the output has digits exactly where the input has them |
| Parser.MirroredDigitIsDigit | src/main/java/com/jme3/font/plugins/PersianGlyphParser.java:65-71 | the code unit a digit is swapped with is a digit of the same run |
| Parser.GlyphNotDigit | src/main/java/com/jme3/font/plugins/PersianGlyphParser.java:75-478 | shaping a non-digit never yields a digit |
| Parser.PassThrough | src/main/java/com/jme3/font/plugins/PersianGlyphParser.java:477-478 | a text without digits and without table letters comes back unchanged |
| Parser.ShapingIsLocal | src/main/java/com/jme3/font/plugins/PersianGlyphParser.java:75-478 | a non-digit's output depends only on itself and its two input neighbours, not on the output written so far |
| Parser.LetterShapedAt | src/main/java/com/jme3/font/plugins/PersianGlyphParser.java:75-476 | the letter of row k takes the column its neighbours select |
| Parser.TwoDigitsSwap | src/main/java/com/jme3/font/plugins/PersianGlyphParser.java:65-71 | "12" becomes "21" |
| Parser.RunBetweenOthers | src/main/java/com/jme3/font/plugins/PersianGlyphParser.java:63-478 | "x12y" becomes "x21y" |
| Parser.BehAlef | src/main/java/com/jme3/font/plugins/PersianGlyphParser.java:86-107 | ب ا becomes U+FE91 U+FE8E (65169, 65166): beh initial, alef final |
| Parser.ArabicIndicDigitJoins | src/main/java/com/jme3/font/plugins/PersianGlyphParser.java:50-51 | in ب٠ the digit stays and beh still takes its initial form |
| Parser.BehAlefBeh | src/main/java/com/jme3/font/plugins/PersianGlyphParser.java:86-107 | ب ا ب becomes 65169, 65166, U+0628: the last beh follows alef, which does not join forwards, and stays isolated |
| Parser.BehAlefBehReshaped | src/main/java/com/jme3/font/plugins/PersianGlyphParser.java:98-107 | shaping that output again turns its last beh into the final form 65168, since 65166 is in neither class |
| Parser.NotIdempotent | src/main/java/com/jme3/font/plugins/PersianGlyphParser.java:57-485 | shaping is not idempotent: ب ا ب shaped twice differs from it shaped once |

## Left out

- The `write` and `read` hooks (lines 511-514) do nothing; they are serialization calls into the engine's exporter and importer, and are not modelled.
- The `GlyphParser` interface and the plugin wiring around it are engine scaffolding, not modelled.
- `java.util.regex.Pattern`: each class is replaced by an explicit membership predicate. `\d` is ASCII 0-9 and `\s` is space, tab, line feed, vertical tab, form feed and carriage return, as in Java's default regex mode.
- `Character.isDigit` (line 67) is enumerated as the decimal-digit ranges of the Basic Multilingual Plane in Unicode 15.0. Java releases built on older Unicode versions lack some of them (for example U+A9F0..U+A9F9).
- `LinkedHashMap` and `StringBuilder` internals, including the cost of `insert`, are not modelled. The map is a constant sequence and the builder a sequence whose insert is a splice.
- `parse` returns its argument object itself for short inputs and a new `StringBuilder` otherwise. The model compares contents only, not object identity.
- Java code units are modelled, not code points: a surrogate pair is two code units and passes through `default` unchanged, as in the source.
