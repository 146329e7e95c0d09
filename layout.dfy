/**
 * The greedy row-flow layout of English/Turkish word pairs, as pure functions.
 *
 * A cursor (x, y) starts at (0, 0). Each English word is paired with its
 * Turkish lookup; the pair is as wide as the wider of the two measured words.
 * If the pair does not fit in what is left of the row budget the cursor
 * moves to the start of the next row first. The pair is recorded at the
 * cursor, the cursor moves right past it and a word gap, and the largest
 * cursor position seen so far is kept.
 */
module Layout {
  import opened Config
  import opened Translation

  /** Which font a word is measured in: the base (English) or the smaller translation (Turkish) font. */
  datatype FontRole = Base | Trans

  /**
   * The rendered width of a word in a font: the right edge of its bounding
   * box when drawn at the origin. Supplied by the caller.
   */
  type Measure = (string, FontRole) -> nat

  /** A word pair placed at (x, y) in the uncentred row-flow coordinate space. */
  datatype Placed = Placed(x: nat, y: nat, en: string, tr: string, width: nat)

  /** The layout so far: the placed pairs, the cursor and the largest cursor x reached. */
  datatype Flow = Flow(lines: seq<Placed>, x: nat, y: nat, maxWidth: nat)

  /** The state before any word is placed. */
  const Start: Flow := Flow([], 0, 0, 0)

  /** The larger of two widths, as Python's built-in max. */
  function Max(a: nat, b: nat): nat
  {
    if a >= b then a else b
  }

  /** Width of the box holding `en` above `tr`. */
  function PairWidth(measure: Measure, en: string, tr: string): nat
  {
    Max(measure(en, Base), measure(tr, Trans))
  }

  /** Where the pair for `en` goes, given the layout so far (wrap test included). */
  function Entry(f: Flow, en: string, mapping: map<string, string>, measure: Measure): Placed
  {
    var tr := Lookup(mapping, en);
    var width := PairWidth(measure, en, tr);
    if f.x + width > RowLimit then Placed(0, f.y + RowSpacing, en, tr, width)
    else Placed(f.x, f.y, en, tr, width)
  }

  /** One iteration of the layout loop: record the pair, advance the cursor, keep the maximum. */
  function Place(f: Flow, en: string, mapping: map<string, string>, measure: Measure): Flow
  {
    var e := Entry(f, en, mapping, measure);
    var next := e.x + e.width + WordSpacing;
    Flow(f.lines + [e], next, e.y, Max(f.maxWidth, next))
  }

  /** The layout after the first `n` words have been placed in order: one recorded pair per word. */
  function RunFirst(words: seq<string>, n: nat, mapping: map<string, string>, measure: Measure): (f: Flow)
    requires n <= |words|
    ensures |f.lines| == n
    decreases n
  {
    if n == 0 then Start
    else Place(RunFirst(words, n - 1, mapping, measure), words[n - 1], mapping, measure)
  }

  /** The layout of all of `words`. */
  function Run(words: seq<string>, mapping: map<string, string>, measure: Measure): (f: Flow)
    ensures |f.lines| == |words|
  {
    RunFirst(words, |words|, mapping, measure)
  }
}
