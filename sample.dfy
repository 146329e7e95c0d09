/**
 * A worked example on the first two words of the shipped sentence, under a
 * fixed-pitch stand-in for the font measurement: 60 pixels per character in
 * the base font and 30 in the translation font (a monospaced face whose
 * advance is 0.6 em, at sizes 100 and 50). Real glyph bounding boxes are not
 * modelled.
 */
module Sample {
  import opened Translation
  import opened Layout

  /** A measurement that charges a fixed advance per character in each font. */
  ghost predicate FixedPitch(measure: Measure)
  {
    forall word :: measure(word, Base) == 60 * |word| && measure(word, Trans) == 30 * |word|
  }

  /** The dictionary entries of the two sample words. */
  lemma SampleTranslations()
    ensures Lookup(WordMapping, "Hello,") == "Merhaba,"
    ensures Lookup(WordMapping, "World!") == "Dünya!"
  {
  }

  /**
   * "Hello," and "World!" both fit on row 0: each pair is as wide as its
   * English word (360), and the second starts one width plus one word gap
   * (385) to the right of the first.
   */
  lemma HelloWorldOnOneRow(measure: Measure)
    requires FixedPitch(measure)
    ensures var f := Run(["Hello,", "World!"], WordMapping, measure);
            && f.lines == [Placed(0, 0, "Hello,", "Merhaba,", 360), Placed(385, 0, "World!", "Dünya!", 360)]
            && f.maxWidth == 770
            && f.y == 0
  {
    SampleTranslations();
    var words := ["Hello,", "World!"];
    var first := Placed(0, 0, "Hello,", "Merhaba,", 360);
    assert RunFirst(words, 1, WordMapping, measure) == Flow([first], 385, 0, 385);
  }
}
