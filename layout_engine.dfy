/**
 * The layout loop as the program runs it: a cursor and a running maximum
 * updated word by word, and a list of placed pairs appended to in place.
 */
module LayoutEngine {
  import opened Config
  import opened Translation
  import opened Layout
  import opened LayoutProperties

  /**
   * Lays out the English words in order. Returns the placed pairs, the
   * largest cursor x reached (the paragraph width used for centring) and
   * the final cursor y (the total height used for centring).
   */
  method LayOut(words: seq<string>, mapping: map<string, string>, measure: Measure)
    returns (lines: seq<Placed>, maxWidth: nat, totalHeight: nat)
    ensures var f := Run(words, mapping, measure);
            lines == f.lines && maxWidth == f.maxWidth && totalHeight == f.y
    ensures |lines| == |words|
    ensures forall k :: 0 <= k < |lines| ==> lines[k].en == words[k] && lines[k].tr == Lookup(mapping, words[k])
    ensures forall k :: 0 <= k < |lines| ==> lines[k].x == 0 || lines[k].x + lines[k].width <= RowLimit
    ensures forall k :: 0 <= k < |lines| ==> lines[k].x + lines[k].width + WordSpacing <= maxWidth
    ensures forall k :: 0 <= k < |lines| ==> lines[k].y % RowSpacing == 0
    ensures words == [] ==> maxWidth == 0 && totalHeight == 0
    ensures words != [] ==> totalHeight == lines[|lines| - 1].y
  {
    lines := [];
    maxWidth := 0;
    var x: nat, y: nat := 0, 0;
    ghost var f := Start;
    for i := 0 to |words|
      invariant f == RunFirst(words, i, mapping, measure)
      invariant lines == f.lines && x == f.x && y == f.y && maxWidth == f.maxWidth
    {
      var enWord := words[i];
      var trWord := Lookup(mapping, enWord);
      var enWidth := measure(enWord, Base);
      var trWidth := measure(trWord, Trans);
      var width := Max(enWidth, trWidth);
      assert width == PairWidth(measure, enWord, trWord);
      if x + width > RowLimit {
        x := 0;
        y := y + RowSpacing;
      }
      var entry := Placed(x, y, enWord, trWord, width);
      assert entry == Entry(f, enWord, mapping, measure);
      lines := lines + [entry];
      x := x + width + WordSpacing;
      maxWidth := Max(maxWidth, x);
      f := Place(f, enWord, mapping, measure);
      assert f == Flow(lines, x, y, maxWidth);
    }
    totalHeight := y;
    assert f == Run(words, mapping, measure);

    TotalHeightIsLastRow(words, mapping, measure);
    PairsFollowWords(words, mapping, measure);
    RowsGrowDownward(words, mapping, measure);
    FitsUnlessFirstInRow(words, mapping, measure);
    MaxWidthIsLargestCursor(words, |words|, mapping, measure);
  }
}
