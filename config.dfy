/**
 * The size constants of the bilingual word-pair image. The program derives
 * each of them from the scale factor with integer arithmetic; they are given
 * here by value, and `ConstantsFollowScaleFactor` proves that these values
 * are what that arithmetic yields (floor division on these positive values
 * is Dafny's `/`).
 */
module Config {

  /** Resolution multiplier applied to every size. */
  const ScaleFactor: nat := 10

  /** Side lengths of the square canvas, in pixels. */
  const ImageWidth: nat := 2000
  const ImageHeight: nat := 2000

  /** Font size of the English words (the base font). */
  const BaseFontSize: nat := 100

  /** Font size of the Turkish words under them. */
  const TransFontSize: nat := 50

  /** Vertical distance between two rows of word pairs (lineVerticalSpacing). */
  const RowSpacing: nat := 300

  /** Row budget a pair must fit in (widthNotIncludingMargin). */
  const RowLimit: nat := 1332

  /** Horizontal gap left after every pair. */
  const WordSpacing: nat := 25

  /**
   * The derivations: the canvas is 200 units square, the base font 10 units,
   * the translation font half the base size rounded down, the row spacing
   * three base sizes, the row budget two thirds of the canvas width with the
   * third rounded down first, and the word gap a quarter of the base size.
   */
  lemma ConstantsFollowScaleFactor()
    ensures ImageWidth == 200 * ScaleFactor && ImageHeight == 200 * ScaleFactor
    ensures BaseFontSize == 10 * ScaleFactor
    ensures TransFontSize == BaseFontSize / 2
    ensures RowSpacing == BaseFontSize * 3
    ensures RowLimit == (ImageWidth / 3) * 2
    ensures WordSpacing == BaseFontSize / 4
  {
  }
}
