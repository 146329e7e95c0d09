/**
 * What the row-flow layout guarantees: the invariant every step keeps, the
 * wrap rule, how consecutive pairs sit next to each other, that each row
 * stays within its budget, and what the height and maximum width measure.
 */
module LayoutProperties {
  import opened Config
  import opened Translation
  import opened Layout

  /** The cursor's x after `e` is placed: past its box and one word gap. */
  function After(e: Placed): nat
  {
    e.x + e.width + WordSpacing
  }

  /**
   * The invariant of the layout loop. The cursor sits just after the last
   * pair and on its row; rows are multiples of the row spacing and never go
   * back up; a pair that does not start its row fits in the row budget;
   * the maximum width covers every pair.
   */
  ghost predicate Consistent(f: Flow)
  {
    && f.y % RowSpacing == 0
    && (f.lines == [] ==> f.x == 0 && f.y == 0 && f.maxWidth == 0)
    && (f.lines != [] ==> f.x == After(f.lines[|f.lines| - 1]) && f.y == f.lines[|f.lines| - 1].y)
    && f.x <= f.maxWidth
    && (forall k :: 0 <= k < |f.lines| ==> f.lines[k].y % RowSpacing == 0 && f.lines[k].y <= f.y)
    && (forall i, j :: 0 <= i <= j < |f.lines| ==> f.lines[i].y <= f.lines[j].y)
    && (forall k :: 0 <= k < |f.lines| ==> f.lines[k].x == 0 || f.lines[k].x + f.lines[k].width <= RowLimit)
    && (forall k :: 0 <= k < |f.lines| ==> After(f.lines[k]) <= f.maxWidth)
  }

  lemma StartConsistent()
    ensures Consistent(Start)
  {
  }

  /** One loop iteration keeps the invariant. */
  lemma PlaceKeepsConsistent(f: Flow, en: string, mapping: map<string, string>, measure: Measure)
    requires Consistent(f)
    ensures Consistent(Place(f, en, mapping, measure))
  {
    var g := Place(f, en, mapping, measure);
    var e := Entry(f, en, mapping, measure);
    assert g.lines == f.lines + [e];
    assert g.lines[|g.lines| - 1] == e;
    forall k | 0 <= k < |f.lines|
      ensures g.lines[k] == f.lines[k]
    {
    }
  }

  lemma {:induction false} RunFirstConsistent(words: seq<string>, n: nat, mapping: map<string, string>, measure: Measure)
    requires n <= |words|
    ensures Consistent(RunFirst(words, n, mapping, measure))
    decreases n
  {
    if n == 0 {
      StartConsistent();
    } else {
      RunFirstConsistent(words, n - 1, mapping, measure);
      PlaceKeepsConsistent(RunFirst(words, n - 1, mapping, measure), words[n - 1], mapping, measure);
    }
  }

  /** Later words never move the pairs already placed. */
  lemma {:induction false} PrefixStable(words: seq<string>, mapping: map<string, string>, measure: Measure, k: nat, n: nat)
    requires k <= n <= |words|
    ensures RunFirst(words, k, mapping, measure).lines == RunFirst(words, n, mapping, measure).lines[..k]
    decreases n
  {
    if k < n {
      var before := RunFirst(words, n - 1, mapping, measure);
      var e := Entry(before, words[n - 1], mapping, measure);
      PrefixStable(words, mapping, measure, k, n - 1);
      assert RunFirst(words, n, mapping, measure).lines == before.lines + [e];
      assert (before.lines + [e])[..k] == before.lines[..k];
    }
  }

  /**
   * Pair k is placed by the wrap test applied to the layout of the words
   * before it, and the cursor then stands just after it, on its row.
   */
  lemma EntryAt(words: seq<string>, mapping: map<string, string>, measure: Measure, k: nat)
    requires k < |words|
    ensures Run(words, mapping, measure).lines[k] == Entry(RunFirst(words, k, mapping, measure), words[k], mapping, measure)
    ensures RunFirst(words, k + 1, mapping, measure).x == After(Run(words, mapping, measure).lines[k])
    ensures RunFirst(words, k + 1, mapping, measure).y == Run(words, mapping, measure).lines[k].y
  {
    var before := RunFirst(words, k, mapping, measure);
    var e := Entry(before, words[k], mapping, measure);
    PrefixStable(words, mapping, measure, k + 1, |words|);
    assert RunFirst(words, k + 1, mapping, measure).lines == before.lines + [e];
    assert RunFirst(words, k + 1, mapping, measure).lines[k] == e;
  }

  /**
   * Pair k records word k of the input and its looked-up translation (the
   * dictionary entry, or the missing-word marker), and its width is the
   * larger of the two measured widths: at least each of them, and equal to
   * one of them.
   */
  lemma OnePairPerWord(words: seq<string>, mapping: map<string, string>, measure: Measure, k: nat)
    requires k < |words|
    ensures var e := Run(words, mapping, measure).lines[k];
            && e.en == words[k]
            && (words[k] in mapping ==> e.tr == mapping[words[k]])
            && (words[k] !in mapping ==> e.tr == Missing)
            && e.width >= measure(words[k], Base)
            && e.width >= measure(e.tr, Trans)
            && (e.width == measure(words[k], Base) || e.width == measure(e.tr, Trans))
  {
    EntryAt(words, mapping, measure, k);
  }

  /** The layout lists the input words in order, each with its translation. */
  lemma PairsFollowWords(words: seq<string>, mapping: map<string, string>, measure: Measure)
    ensures var lines := Run(words, mapping, measure).lines;
            forall k :: 0 <= k < |lines| ==> lines[k].en == words[k] && lines[k].tr == Lookup(mapping, words[k])
  {
    forall k | 0 <= k < |words|
      ensures var e := Run(words, mapping, measure).lines[k];
              e.en == words[k] && e.tr == Lookup(mapping, words[k])
    {
      OnePairPerWord(words, mapping, measure, k);
    }
  }

  /**
   * The wrap rule. If the pair does not fit in what is left of the row, it
   * goes to x = 0 one row spacing further down; otherwise it goes at the
   * cursor and fits.
   */
  lemma WrapRule(words: seq<string>, mapping: map<string, string>, measure: Measure, k: nat)
    requires k < |words|
    ensures var before := RunFirst(words, k, mapping, measure);
            var e := Run(words, mapping, measure).lines[k];
            if before.x + e.width > RowLimit then e.x == 0 && e.y == before.y + RowSpacing
            else e.x == before.x && e.y == before.y && e.x + e.width <= RowLimit
  {
    EntryAt(words, mapping, measure, k);
  }

  /**
   * The first pair always starts at x = 0. It stays on row 0 unless it is
   * wider than the row budget on its own, in which case the wrap test still
   * fires and it lands on the next row, leaving row 0 empty.
   */
  lemma FirstPair(words: seq<string>, mapping: map<string, string>, measure: Measure)
    requires |words| > 0
    ensures var e := Run(words, mapping, measure).lines[0];
            e.x == 0 && e.y == (if e.width > RowLimit then RowSpacing else 0)
  {
    EntryAt(words, mapping, measure, 0);
  }

  /**
   * Consecutive pairs: either the next pair sits on the same row exactly one
   * width plus one word gap to the right, or it starts the next row at x = 0.
   * It changes row exactly when it would not fit after the previous one.
   */
  lemma Neighbours(words: seq<string>, mapping: map<string, string>, measure: Measure, k: nat)
    requires 0 < k < |words|
    ensures var lines := Run(words, mapping, measure).lines;
            var p, e := lines[k - 1], lines[k];
            if After(p) + e.width > RowLimit then e.x == 0 && e.y == p.y + RowSpacing
            else e.x == After(p) && e.y == p.y
  {
    EntryAt(words, mapping, measure, k);
    EntryAt(words, mapping, measure, k - 1);
  }

  /**
   * Rows: every pair's y is a multiple of the row spacing, and later pairs
   * are never higher than earlier ones.
   */
  lemma RowsGrowDownward(words: seq<string>, mapping: map<string, string>, measure: Measure)
    ensures var lines := Run(words, mapping, measure).lines;
            && (forall k :: 0 <= k < |lines| ==> lines[k].y % RowSpacing == 0)
            && (forall i, j :: 0 <= i <= j < |lines| ==> lines[i].y <= lines[j].y)
  {
    RunFirstConsistent(words, |words|, mapping, measure);
  }

  /**
   * The total height, the cursor's final y, is the y of the last pair, or 0
   * when there are no words; the maximum width is then 0 as well.
   */
  lemma TotalHeightIsLastRow(words: seq<string>, mapping: map<string, string>, measure: Measure)
    ensures var f := Run(words, mapping, measure);
            && f.y == (if words == [] then 0 else f.lines[|words| - 1].y)
            && (words == [] ==> f.maxWidth == 0)
  {
    if words != [] {
      EntryAt(words, mapping, measure, |words| - 1);
    }
  }

  /**
   * Every pair either starts its row or ends within the row budget; a pair
   * that overruns the budget therefore always stands at x = 0.
   */
  lemma FitsUnlessFirstInRow(words: seq<string>, mapping: map<string, string>, measure: Measure)
    ensures var lines := Run(words, mapping, measure).lines;
            forall k :: 0 <= k < |lines| && lines[k].x > 0 ==> lines[k].x + lines[k].width <= RowLimit
  {
    RunFirstConsistent(words, |words|, mapping, measure);
  }

  /**
   * The maximum width is the largest cursor x reached after any step: it is
   * at least the cursor after every pair, it is reached after some pair,
   * and it stays 0 when there are no words.
   */
  lemma {:induction false} MaxWidthIsLargestCursor(words: seq<string>, n: nat, mapping: map<string, string>, measure: Measure)
    requires n <= |words|
    ensures var f := RunFirst(words, n, mapping, measure);
            && (forall k :: 0 <= k < n ==> After(f.lines[k]) <= f.maxWidth)
            && (n == 0 ==> f.maxWidth == 0)
            && (n > 0 ==> exists k :: 0 <= k < n && f.maxWidth == After(f.lines[k]))
    decreases n
  {
    if n > 0 {
      var f0 := RunFirst(words, n - 1, mapping, measure);
      var f := RunFirst(words, n, mapping, measure);
      var e := Entry(f0, words[n - 1], mapping, measure);
      MaxWidthIsLargestCursor(words, n - 1, mapping, measure);
      assert f.lines == f0.lines + [e];
      assert f.maxWidth == Max(f0.maxWidth, After(e));
      forall k | 0 <= k < n - 1
        ensures f.lines[k] == f0.lines[k]
      {
      }
      if f.maxWidth != After(e) {
        var k :| 0 <= k < n - 1 && f0.maxWidth == After(f0.lines[k]);
        assert f.maxWidth == After(f.lines[k]);
      } else {
        assert f.lines[n - 1] == e;
      }
    }
  }

  /** Sum of width plus word gap over the pairs lines[j..k]. */
  function RowSpan(lines: seq<Placed>, j: nat, k: nat): nat
    requires j <= k <= |lines|
    decreases k - j
  {
    if j == k then 0 else RowSpan(lines, j, k - 1) + lines[k - 1].width + WordSpacing
  }

  /** Index of the first pair on the row of pair k: the nearest pair at or before k that starts at x = 0. */
  function RowStart(lines: seq<Placed>, k: nat): (j: nat)
    requires k < |lines|
    ensures j <= k
  {
    if k == 0 || lines[k].x == 0 then k else RowStart(lines, k - 1)
  }

  /**
   * The row budget. Pair k lies on the same row as every pair from its row's
   * first pair on; its x is the sum of the widths and word gaps of the pairs
   * before it on that row; and unless it is alone on its row, the row up to
   * and including it fits in the budget, trailing gap excluded. A row's first
   * pair starts at x = 0 and sits on a lower row than the pair before it.
   */
  lemma {:induction false} RowBudget(words: seq<string>, mapping: map<string, string>, measure: Measure, k: nat)
    requires k < |words|
    ensures var lines := Run(words, mapping, measure).lines;
            var j := RowStart(lines, k);
            && lines[j].x == 0
            && (j > 0 ==> lines[j - 1].y < lines[j].y)
            && (forall i :: j <= i <= k ==> lines[i].y == lines[k].y)
            && lines[k].x == RowSpan(lines, j, k)
            && (j < k ==> RowSpan(lines, j, k) + lines[k].width <= RowLimit)
  {
    var lines := Run(words, mapping, measure).lines;
    if k == 0 {
      FirstPair(words, mapping, measure);
    } else {
      Neighbours(words, mapping, measure, k);
      if lines[k].x != 0 {
        RowBudget(words, mapping, measure, k - 1);
      }
    }
  }
}
