/**
 Properties of the pattern compiler: where its cells lie, which cells they are,
 in what order they come, how many there are, and how the preview grid and the
 statistics agree with them.
 */
module PatternProofs {
  import opened Strings
  import opened PatternCalculator

  /** Lit cells among the first `cols` columns of row `row`. */
  function RowOnes(g: Glyph, row: nat, cols: nat): nat
    requires row < CharHeight && cols <= CharWidth
  {
    if cols == 0 then 0 else RowOnes(g, row, cols - 1) + (if g[row][cols - 1] == 1 then 1 else 0)
  }

  /** Lit cells among the first `rows` rows of column `col`. */
  function ColumnOnes(g: Glyph, col: nat, rows: nat): nat
    requires col < CharWidth && rows <= CharHeight
  {
    if rows == 0 then 0 else ColumnOnes(g, col, rows - 1) + (if g[rows - 1][col] == 1 then 1 else 0)
  }

  /** Lit cells of the top-left `rows` x `cols` corner, counted row by row. */
  function RowMajorOnes(g: Glyph, rows: nat, cols: nat): nat
    requires rows <= CharHeight && cols <= CharWidth
  {
    if rows == 0 then 0 else RowMajorOnes(g, rows - 1, cols) + RowOnes(g, rows - 1, cols)
  }

  /** The same corner, counted column by column. */
  function ColumnMajorOnes(g: Glyph, rows: nat, cols: nat): nat
    requires rows <= CharHeight && cols <= CharWidth
  {
    if cols == 0 then 0 else ColumnMajorOnes(g, rows, cols - 1) + ColumnOnes(g, cols - 1, rows)
  }

  /** Number of lit cells of a glyph. */
  function Ones(g: Glyph): nat
  {
    RowMajorOnes(g, CharHeight, CharWidth)
  }

  /** Number of lit cells over the glyphs of the first `n` characters of `upper`. */
  function TextOnes(font: Font, upper: string, n: nat): nat
    requires n <= |upper|
  {
    if n == 0 then 0 else TextOnes(font, upper, n - 1) + Ones(Lookup(font, upper[n - 1]))
  }

  /** `c` is a cell drawn for character `c.charIndex` of the upper-cased text `upper`,
      restricted to the first `n` characters. */
  predicate DrawnCell(font: Font, upper: string, n: nat, c: Coord)
  {
    && c.charIndex < n && c.charIndex < |upper|
    && c.ch == upper[c.charIndex]
    && c.charIndex * Pitch <= c.week < c.charIndex * Pitch + CharWidth
    && c.day < CharHeight
    && Lit(Lookup(font, c.ch), c.day, c.week - c.charIndex * Pitch)
  }

  /** Calendar cell (`week`, `day`) is lit in the drawing of `text`: the week
      falls in a glyph column, not a gap, and that glyph cell is lit. */
  predicate LitAt(font: Font, text: string, week: nat, day: nat)
  {
    && week / Pitch < |text|
    && week % Pitch < CharWidth
    && day < CharHeight
    && Lit(Lookup(font, Upper(text[week / Pitch])), day, week % Pitch)
  }

  lemma OrderedConcat(a: seq<Coord>, b: seq<Coord>)
    requires StrictlyOrdered(a) && StrictlyOrdered(b)
    requires forall i, j | 0 <= i < |a| && 0 <= j < |b| :: Precedes(a[i], b[j])
    ensures StrictlyOrdered(a + b)
  {
    var s := a + b;
    forall i, j | 0 <= i < j < |s|
      ensures Precedes(s[i], s[j])
    {
      if j < |a| {
        assert Precedes(a[i], a[j]);
      } else if i >= |a| {
        assert Precedes(b[i - |a|], b[j - |a|]);
      } else {
        assert Precedes(a[i], b[j - |a|]);
      }
    }
  }

  /** Counting the lit cells row by row or column by column gives the same number. */
  lemma {:induction false} CountOrderIrrelevant(g: Glyph, rows: nat, cols: nat)
    requires rows <= CharHeight && cols <= CharWidth
    ensures RowMajorOnes(g, rows, cols) == ColumnMajorOnes(g, rows, cols)
    decreases rows
  {
    if rows == 0 {
      NoRowsNoOnes(g, cols);
    } else {
      CountOrderIrrelevant(g, rows - 1, cols);
      AddRow(g, rows - 1, cols);
    }
  }

  lemma {:induction false} NoRowsNoOnes(g: Glyph, cols: nat)
    requires cols <= CharWidth
    ensures ColumnMajorOnes(g, 0, cols) == 0
  {
    if cols > 0 {
      NoRowsNoOnes(g, cols - 1);
    }
  }

  lemma {:induction false} AddRow(g: Glyph, rows: nat, cols: nat)
    requires rows < CharHeight && cols <= CharWidth
    ensures ColumnMajorOnes(g, rows + 1, cols) == ColumnMajorOnes(g, rows, cols) + RowOnes(g, rows, cols)
  {
    if cols > 0 {
      AddRow(g, rows, cols - 1);
    }
  }

  /** The cells of one glyph column are exactly its lit rows. */
  lemma {:induction false} ColumnCoordsMembers(g: Glyph, ch: char, index: nat, col: nat, rows: nat)
    requires col < CharWidth && rows <= CharHeight
    ensures forall c :: c in ColumnCoords(g, ch, index, col, rows) <==>
              (&& c.week == index * Pitch + col && c.day < rows && c.ch == ch
               && c.charIndex == index && Lit(g, c.day, col))
  {
    if rows > 0 {
      ColumnCoordsMembers(g, ch, index, col, rows - 1);
    }
  }

  /** The cells of one glyph column come top to bottom. */
  lemma {:induction false} ColumnCoordsOrdered(g: Glyph, ch: char, index: nat, col: nat, rows: nat)
    requires col < CharWidth && rows <= CharHeight
    ensures StrictlyOrdered(ColumnCoords(g, ch, index, col, rows))
  {
    if rows > 0 {
      ColumnCoordsOrdered(g, ch, index, col, rows - 1);
      ColumnCoordsMembers(g, ch, index, col, rows - 1);
      var prev := ColumnCoords(g, ch, index, col, rows - 1);
      var last: seq<Coord> := if g[rows - 1][col] == 1 then [Coord(index * Pitch + col, rows - 1, ch, index)] else [];
      forall i, j | 0 <= i < |prev| && 0 <= j < |last|
        ensures Precedes(prev[i], last[j])
      {
        assert prev[i] in prev;
      }
      OrderedConcat(prev, last);
    }
  }

  lemma {:induction false} ColumnCoordsCount(g: Glyph, ch: char, index: nat, col: nat, rows: nat)
    requires col < CharWidth && rows <= CharHeight
    ensures |ColumnCoords(g, ch, index, col, rows)| == ColumnOnes(g, col, rows)
  {
    if rows > 0 {
      ColumnCoordsCount(g, ch, index, col, rows - 1);
    }
  }

  /** The cells of one glyph are exactly its lit cells, placed in its columns. */
  lemma {:induction false} GlyphCoordsMembers(g: Glyph, ch: char, index: nat, cols: nat)
    requires cols <= CharWidth
    ensures forall c :: c in GlyphCoords(g, ch, index, cols) <==>
              (&& index * Pitch <= c.week < index * Pitch + cols && c.day < CharHeight
               && c.ch == ch && c.charIndex == index && Lit(g, c.day, c.week - index * Pitch))
  {
    if cols > 0 {
      GlyphCoordsMembers(g, ch, index, cols - 1);
      ColumnCoordsMembers(g, ch, index, cols - 1, CharHeight);
      var prev := GlyphCoords(g, ch, index, cols - 1);
      var column := ColumnCoords(g, ch, index, cols - 1, CharHeight);
      assert GlyphCoords(g, ch, index, cols) == prev + column;
    }
  }

  /** All cells of one glyph lie from week `index * Pitch` on. */
  lemma GlyphWeeksFrom(g: Glyph, ch: char, index: nat, cols: nat)
    requires cols <= CharWidth
    ensures forall j | 0 <= j < |GlyphCoords(g, ch, index, cols)| ::
              index * Pitch <= GlyphCoords(g, ch, index, cols)[j].week < index * Pitch + cols
  {
    GlyphCoordsMembers(g, ch, index, cols);
    var q := GlyphCoords(g, ch, index, cols);
    forall j | 0 <= j < |q|
      ensures index * Pitch <= q[j].week < index * Pitch + cols
    {
      assert q[j] in q;
    }
  }

  /** The cells of one glyph come column by column, each column top to bottom. */
  lemma {:induction false} GlyphCoordsOrdered(g: Glyph, ch: char, index: nat, cols: nat)
    requires cols <= CharWidth
    ensures StrictlyOrdered(GlyphCoords(g, ch, index, cols))
  {
    if cols > 0 {
      GlyphCoordsOrdered(g, ch, index, cols - 1);
      GlyphWeeksFrom(g, ch, index, cols - 1);
      ColumnCoordsOrdered(g, ch, index, cols - 1, CharHeight);
      ColumnCoordsMembers(g, ch, index, cols - 1, CharHeight);
      var prev := GlyphCoords(g, ch, index, cols - 1);
      var column := ColumnCoords(g, ch, index, cols - 1, CharHeight);
      forall i, j | 0 <= i < |prev| && 0 <= j < |column|
        ensures Precedes(prev[i], column[j])
      {
        assert column[j] in column;
      }
      OrderedConcat(prev, column);
    }
  }

  lemma {:induction false} GlyphCoordsCount(g: Glyph, ch: char, index: nat, cols: nat)
    requires cols <= CharWidth
    ensures |GlyphCoords(g, ch, index, cols)| == ColumnMajorOnes(g, CharHeight, cols)
  {
    if cols > 0 {
      GlyphCoordsCount(g, ch, index, cols - 1);
      ColumnCoordsCount(g, ch, index, cols - 1, CharHeight);
    }
  }

  /** The cells of the first `n` characters are exactly their drawn cells. */
  lemma {:induction false} PrefixCoordsMembers(font: Font, upper: string, n: nat)
    requires n <= |upper|
    ensures forall c :: c in PrefixCoords(font, upper, n) <==> DrawnCell(font, upper, n, c)
  {
    if n > 0 {
      PrefixCoordsMembers(font, upper, n - 1);
      var ch := upper[n - 1];
      GlyphCoordsMembers(Lookup(font, ch), ch, n - 1, CharWidth);
      var prev := PrefixCoords(font, upper, n - 1);
      var glyph := GlyphCoords(Lookup(font, ch), ch, n - 1, CharWidth);
      assert PrefixCoords(font, upper, n) == prev + glyph;
      forall c
        ensures c in prev + glyph <==> DrawnCell(font, upper, n, c)
      {
        if DrawnCell(font, upper, n, c) && c.charIndex == n - 1 {
          assert c in glyph;
        }
      }
    }
  }

  lemma PrefixWeeksBelow(font: Font, upper: string, n: nat)
    requires n <= |upper|
    ensures forall i | 0 <= i < |PrefixCoords(font, upper, n)| :: PrefixCoords(font, upper, n)[i].week < n * Pitch
  {
    PrefixCoordsMembers(font, upper, n);
    var p := PrefixCoords(font, upper, n);
    forall i | 0 <= i < |p|
      ensures p[i].week < n * Pitch
    {
      assert p[i] in p;
    }
  }

  /** The cells of the first `n` characters come in chronological order. */
  lemma {:induction false} PrefixCoordsOrdered(font: Font, upper: string, n: nat)
    requires n <= |upper|
    ensures StrictlyOrdered(PrefixCoords(font, upper, n))
  {
    if n > 0 {
      PrefixCoordsOrdered(font, upper, n - 1);
      PrefixWeeksBelow(font, upper, n - 1);
      var ch := upper[n - 1];
      GlyphWeeksFrom(Lookup(font, ch), ch, n - 1, CharWidth);
      GlyphCoordsOrdered(Lookup(font, ch), ch, n - 1, CharWidth);
      var prev := PrefixCoords(font, upper, n - 1);
      var glyph := GlyphCoords(Lookup(font, ch), ch, n - 1, CharWidth);
      assert forall i, j | 0 <= i < |prev| && 0 <= j < |glyph| :: Precedes(prev[i], glyph[j]);
      OrderedConcat(prev, glyph);
    }
  }

  /** The first `n` characters yield as many cells as their glyphs have lit cells. */
  lemma {:induction false} PrefixCoordsCount(font: Font, upper: string, n: nat)
    requires n <= |upper|
    ensures |PrefixCoords(font, upper, n)| == TextOnes(font, upper, n)
  {
    if n > 0 {
      PrefixCoordsCount(font, upper, n - 1);
      var ch := upper[n - 1];
      GlyphCoordsCount(Lookup(font, ch), ch, n - 1, CharWidth);
      CountOrderIrrelevant(Lookup(font, ch), CharHeight, CharWidth);
    }
  }

  /** Every cell of `TextToPattern(font, text)` is a lit cell of the glyph of
      the upper-cased character it names, placed in that character's columns,
      and every such lit cell is in the list. */
  lemma PatternCells(font: Font, text: string)
    ensures forall c :: c in TextToPattern(font, text) <==> DrawnCell(font, UpperText(text), |text|, c)
  {
    if |text| > 0 {
      PrefixCoordsMembers(font, UpperText(text), |text|);
    }
  }

  /** Bounds of every cell: a weekday, inside its character's glyph columns,
      and before `RequiredWeeks(text)`; its character is the upper-cased one. */
  lemma PatternBounds(font: Font, text: string)
    ensures forall c | c in TextToPattern(font, text) ::
              && c.day < MaxDays
              && c.charIndex < |text|
              && c.charIndex * Pitch <= c.week <= c.charIndex * Pitch + CharWidth - 1
              && c.week < RequiredWeeks(text)
              && c.ch == Upper(text[c.charIndex])
  {
    PatternCells(font, text);
  }

  /** Cells come out in strictly increasing (week, day) order, hence without duplicates. */
  lemma PatternOrdered(font: Font, text: string)
    ensures StrictlyOrdered(TextToPattern(font, text))
    ensures forall i, j | 0 <= i < j < |TextToPattern(font, text)| ::
              (TextToPattern(font, text)[i].week, TextToPattern(font, text)[i].day)
              != (TextToPattern(font, text)[j].week, TextToPattern(font, text)[j].day)
  {
    if |text| > 0 {
      PrefixCoordsOrdered(font, UpperText(text), |text|);
    }
  }

  /** One cell per lit glyph cell: the list is as long as the glyphs of the
      upper-cased characters have lit cells (the fallback glyph's for unknown
      characters). */
  lemma PatternSize(font: Font, text: string)
    ensures |TextToPattern(font, text)| == TextOnes(font, UpperText(text), |text|)
  {
    if |text| > 0 {
      PrefixCoordsCount(font, UpperText(text), |text|);
    }
  }

  /** A single character yields exactly the lit cells of its glyph, within weeks 0..4. */
  lemma SingleCharacterPattern(font: Font, c: char)
    ensures |TextToPattern(font, [c])| == Ones(Lookup(font, Upper(c)))
    ensures forall x | x in TextToPattern(font, [c]) :: x.week < CharWidth && x.day < MaxDays
  {
    PatternSize(font, [c]);
    PatternBounds(font, [c]);
    assert UpperText([c])[0] == Upper(c);
  }

  /** The compiler works on the upper-cased text, so upper-casing first changes nothing. */
  lemma PatternIgnoresCase(font: Font, text: string)
    ensures TextToPattern(font, UpperText(text)) == TextToPattern(font, text)
  {
    UpperTextIdempotent(text);
  }

  /** Weeks needed grow strictly with the length of the text. */
  lemma RequiredWeeksIncreasing(a: string, b: string)
    requires |a| < |b|
    ensures RequiredWeeks(a) < RequiredWeeks(b)
  {
  }

  /** A text fits in the calendar exactly when it has at most `MaxCharacters()` characters. */
  lemma FitsIffShortEnough(text: string)
    ensures RequiredWeeks(text) <= MaxWeeks <==> |text| <= MaxCharacters()
  {
  }

  lemma {:induction false} MarkAllCells(grid: seq<seq<int>>, weeks: nat, coords: seq<Coord>, d: nat, w: nat)
    requires IsGrid(grid, weeks) && d < MaxDays && w < weeks
    ensures MarkAll(grid, weeks, coords)[d][w] ==
              if exists c :: c in coords && c.week == w && c.day == d then 1 else grid[d][w]
    decreases |coords|
  {
    if coords != [] {
      var next := MarkCell(grid, weeks, coords[0]);
      MarkAllCells(next, weeks, coords[1..], d, w);
      if exists c :: c in coords[1..] && c.week == w && c.day == d {
        var c :| c in coords[1..] && c.week == w && c.day == d;
        assert c in coords;
      } else if coords[0].week == w && coords[0].day == d {
        assert coords[0] in coords;
      } else {
        assert coords == [coords[0]] + coords[1..];
      }
    }
  }

  lemma DivModPitch(w: nat, i: nat)
    requires i * Pitch <= w < i * Pitch + Pitch
    ensures w / Pitch == i && w % Pitch == w - i * Pitch
  {
  }

  /** The preview is empty for empty text; otherwise it has `MaxDays` rows of
      `RequiredWeeks(text)` cells. */
  lemma PreviewShape(font: Font, text: string)
    ensures |text| == 0 ==> PreviewPattern(font, text) == []
    ensures |text| > 0 ==> IsGrid(PreviewPattern(font, text), RequiredWeeks(text))
  {
  }

  /** Some pattern cell lies on calendar cell (`w`, `d`) exactly when the
      drawing of the text lights that cell. */
  lemma PatternCoversLit(font: Font, text: string, d: nat, w: nat)
    requires |text| > 0 && d < MaxDays && w < RequiredWeeks(text)
    ensures (exists c :: c in TextToPattern(font, text) && c.week == w && c.day == d) <==> LitAt(font, text, w, d)
  {
    var coords := TextToPattern(font, text);
    var upper := UpperText(text);
    PatternCells(font, text);
    if exists c :: c in coords && c.week == w && c.day == d {
      var c :| c in coords && c.week == w && c.day == d;
      assert DrawnCell(font, upper, |text|, c);
      DivModPitch(w, c.charIndex);
    }
    if LitAt(font, text, w, d) {
      var i := w / Pitch;
      var c := Coord(w, d, upper[i], i);
      assert DrawnCell(font, upper, |text|, c);
      assert c in coords;
    }
  }

  /** A preview cell is 1 exactly when a pattern cell lies there, which is
      exactly when the corresponding glyph cell is lit; every other cell is 0. */
  lemma PreviewCell(font: Font, text: string, d: nat, w: nat)
    requires |text| > 0 && d < MaxDays && w < RequiredWeeks(text)
    ensures PreviewPattern(font, text)[d][w] == 1 <==>
              exists c :: c in TextToPattern(font, text) && c.week == w && c.day == d
    ensures PreviewPattern(font, text)[d][w] == (if LitAt(font, text, w, d) then 1 else 0)
  {
    var weeks := RequiredWeeks(text);
    MarkAllCells(BlankGrid(weeks), weeks, TextToPattern(font, text), d, w);
    PatternCoversLit(font, text, d, w);
  }

  /** The statistics agree with the pattern and the layout. */
  lemma PatternStatsFacts(font: Font, text: string)
    ensures var s := GetPatternStats(font, text);
      && s.characters == |text|
      && s.commits == |TextToPattern(font, text)| == TextOnes(font, UpperText(text), |text|)
      && s.weeks == RequiredWeeks(text)
      && (s.weeks == 0 <==> |text| == 0)
      && (forall c | c in TextToPattern(font, text) :: c.week < s.weeks)
      && s.fitsInGraph == (s.weeks <= s.maxWeeks)
      && (s.fitsInGraph <==> |text| <= MaxCharacters())
      && s.maxCharacters == 9
      && s.maxWeeks == 53
  {
    PatternSize(font, text);
    PatternBounds(font, text);
  }
}
