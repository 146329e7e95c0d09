# Bilingual word-pair layout

The program draws an English sentence on a square image with each word's
Turkish translation in a smaller font underneath it. Before it draws anything,
it lays the English/Turkish word pairs out in rows with a greedy row-flow loop.
For each English word, in order, the loop:

- looks the word up in a fixed dictionary, falling back to `"-"`;
- takes the pair's width as the larger of the two measured word widths;
- wraps to the next row (x back to 0, y down by the row spacing) when the pair
  would run past the row budget;
- records `(x, y, english, turkish, width)`, moves the cursor right by the width
  plus a word gap, and keeps the largest cursor x seen so far.

After the loop, the final y is the total height. The paragraph is later
centred using this height and the largest cursor x.

This project models that loop and the integer size constants it uses, and
proves what the layout guarantees.

- `Config` holds the size constants: the canvas is 2000 wide, the fonts are 100
  and 50, the row spacing is 300, the row budget 1332 and the word gap 25. A
  lemma shows how each one follows from the scale factor 10.
- `Translation` holds the dictionary, the sentence as its words, and the lookup
  with its `"-"` fallback.
- `Layout` is the specification. `Entry` gives where one pair goes, including
  the wrap test. `Place` is one loop iteration. `RunFirst` and `Run` give the
  layout of the first `n` words and of all the words. Text measurement is an
  abstract parameter, `Measure`, which maps a word and a font role to a width.
- `LayoutProperties` holds the invariant that every step keeps, and lemmas
  about `Run`. They cover the wrap rule, the first pair, how neighbours sit, the
  budget of each row, the row order, the total height and the maximum width.
- `LayoutEngine.LayOut` is the loop as the program runs it. It updates a cursor
  `x, y` and a running maximum, and appends to a list. It is proved equal to
  `Run` by its loop invariant, and its postconditions repeat the guarantees
  proved for `Run`.
- `Sample` works through the first two words of the shipped sentence under a
  fixed-pitch stand-in for the font.

## Model

| member | source | states |
|---|---|---|
| Config.ConstantsFollowScaleFactor | main.py:6-21 | The canvas is 200 units and the base font 10 units of the scale factor 10. The translation font is half the base size rounded down (50). The row spacing is three base sizes (300). The row budget is two thirds of the width with the third floored first (1332). The word gap is a quarter of the base size (25). |
| Translation.Find | main.py:58 | There is an entry exactly when the word is a dictionary key, and that entry is the key's value. |
| Translation.Lookup | main.py:58 | The translation is the dictionary value when the word is a key and exactly `"-"` otherwise. The lookup is total, so a missing key never fails. |
| Translation.SampleWordsAllMapped | main.py:28-43 | Every word of the shipped sentence is a key of the dictionary. The only word that gets `"-"` is "is", and it gets it through its explicit entry, not the fallback. |
| Layout.RunFirst | main.py:55-94 | After `n` loop iterations, exactly `n` pairs have been recorded. |
| Layout.Run | main.py:53-97 | The loop records exactly one pair per English word. |
| LayoutEngine.LayOut | main.py:53-97 | The imperative loop produces exactly the specified layout (`lines`, `max_width`, `total_height`) with one pair per word, in input order, each carrying its word and looked-up translation. Every pair not at x = 0 fits in the row budget. Every pair's right end plus the word gap is at most `max_width`. Every y is a multiple of the row spacing. With no words, `max_width` and `total_height` are 0; otherwise `total_height` is the last pair's y. |
| LayoutProperties.StartConsistent | main.py:49-55 | The starting state (no pairs, cursor at the origin, maximum 0) satisfies the layout invariant. |
| LayoutProperties.PlaceKeepsConsistent | main.py:56-94 | One loop iteration keeps the invariant. The cursor stays just after the last pair and on its row. Rows stay multiples of the row spacing and never go back up. A pair that does not start its row fits in the budget. The maximum covers every pair. |
| LayoutProperties.RunFirstConsistent | main.py:55-94 | The invariant holds after any number of iterations. |
| LayoutProperties.PrefixStable | main.py:90 | Pairs are only ever appended: the pairs recorded after `k` iterations are the first `k` pairs of any later state. |
| LayoutProperties.EntryAt | main.py:84-92 | Pair `k` is where the placement rule puts word `k` given the state after `k` iterations. The cursor after it is its x plus its width plus the word gap, on its row. |
| LayoutProperties.OnePairPerWord | main.py:58-90 | Pair `k` carries word `k` and its translation: the dictionary value, or `"-"` for a missing key. Its width is at least the English width and at least the Turkish width, and equals one of them. |
| LayoutProperties.PairsFollowWords | main.py:56-90 | The recorded pairs follow the input words in order, each with its looked-up translation. |
| LayoutProperties.WrapRule | main.py:84-90 | If cursor x plus the pair's width exceeds 1332, the pair is recorded at x = 0 with y exactly one row spacing (300) further down. Otherwise it is recorded at the cursor, and its right end is within 1332. |
| LayoutProperties.FirstPair | main.py:84-90 | The first pair is at x = 0. It is on row 0, unless it is wider than the row budget by itself; then the wrap test still fires, it lands at y = 300 and row 0 stays empty. |
| LayoutProperties.Neighbours | main.py:84-92 | The pair after another either sits on the same row exactly one width plus one word gap (25) to the right, or starts the next row down at x = 0. It changes row exactly when it would not fit after its neighbour. |
| LayoutProperties.RowsGrowDownward | main.py:54-87 | Every pair's y is a multiple of 300, and a later pair is never higher than an earlier one. |
| LayoutProperties.TotalHeightIsLastRow | main.py:97 | The total height is the last pair's y, or 0 with no words; the maximum width is then 0 too. |
| LayoutProperties.FitsUnlessFirstInRow | main.py:84-90 | Every pair with x > 0 ends within the row budget, so only a pair at x = 0 can overrun it. |
| LayoutProperties.MaxWidthIsLargestCursor | main.py:49-94 | The maximum width is at least the cursor after every pair. It equals the cursor after some pair, so it is the largest cursor reached. It is 0 when there are no words. |
| LayoutProperties.RowStart | main.py:85-86 | The first pair of pair `k`'s row is at or before `k`. |
| LayoutProperties.RowBudget | main.py:84-92 | Pair `k` shares a row with every pair from that row's first pair on, and that first pair is at x = 0 on a lower row than the pair before it. Pair `k`'s x is the sum of the widths and word gaps of the earlier pairs in its row. Unless pair `k` is alone in its row, the row up to it fits in 1332. |
| Sample.SampleTranslations | main.py:34-36 | "Hello," translates to "Merhaba," and "World!" to "Dünya!". |
| Sample.HelloWorldOnOneRow | main.py:53-97 | With a fixed pitch of 60 and 30 pixels per character, "Hello," and "World!" share row 0. They sit at x = 0 and x = 385 and are 360 wide each. The maximum width is 770 and the height is 0. |

## Left out

- Image creation, font loading, drawing and saving the image are I/O through
  the imaging library, and are not part of this model.
- `textbbox(...)[2]`, the right edge of a word's box drawn at the origin, is the
  abstract `Measure` parameter. Real glyph metrics are not modelled. The width
  is taken as a natural number; the library's box could in principle start left
  of the origin, which is not modelled.
- `Sample.FixedPitch` is a stand-in measurement (60 and 30 pixels per
  character), not the metrics of the font the program loads.
- Splitting the sentence at single spaces is not modelled. `EnglishText` is the
  list of words that split produces.
- The Turkish sentence on line 29 is never used by the layout and is not
  modelled.
- Centring the paragraph and each word inside its pair box uses true division
  and produces floating-point coordinates. It is not modelled.
- The bottom paragraph is wrapped with the standard library's `textwrap`,
  whose source is not part of this model, and centred using rendered glyph
  metrics. It is not modelled.
- The line-height sum computed for the bottom paragraph is never used, and it
  depends on measured boxes. It is not modelled.
- The image height and the translation font size appear only as constants.
  The layout loop does not use them.
- Sample.HelloWorldOnOneRow: works through the first two words of the sentence
  only. The wrap behaviour of the full sentence is covered by the general
  lemmas, not by a worked eight-word example.
