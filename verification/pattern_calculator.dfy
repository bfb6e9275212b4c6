/**
 The pattern compiler: lays a text out on the 7-row contribution calendar, one
 5-column glyph per character with one blank week between characters, and turns
 it into the ordered list of calendar cells that must receive commits.

 The glyph table itself is not part of this model: a `Font` stands for it, a
 map from (upper-case) characters to 7 x 5 bitmaps together with the fallback
 bitmap used for every character the map lacks.
 */
module PatternCalculator {
  import opened Strings

  const CharWidth := 5     // glyph columns, one per week
  const CharHeight := 7    // glyph rows, one per weekday
  const CharSpacing := 1   // blank weeks between two glyphs
  const MaxWeeks := 53     // width of the contribution calendar
  const MaxDays := 7       // height of the contribution calendar

  /** Weeks taken by one glyph together with the gap after it. */
  const Pitch := CharWidth + CharSpacing

  type Bitmap = seq<seq<int>>

  predicate IsGlyph(b: Bitmap)
  {
    |b| == CharHeight && forall row | 0 <= row < CharHeight :: |b[row]| == CharWidth
  }

  /** A glyph is indexed as `glyph[row][col]`; a cell is lit when it holds 1. */
  type Glyph = b: Bitmap | IsGlyph(b) witness seq(7, _ => seq(5, _ => 0))

  datatype Font = Font(glyphs: map<char, Glyph>, unknown: Glyph)

  /** The glyph drawn for `c`: its own, or the fallback one. */
  function Lookup(font: Font, c: char): Glyph
  {
    if c in font.glyphs then font.glyphs[c] else font.unknown
  }

  predicate Lit(g: Glyph, row: nat, col: nat)
    requires row < CharHeight && col < CharWidth
  {
    g[row][col] == 1
  }

  /** One calendar cell to be filled: week offset, weekday, and the character
      (upper-cased) and position in the text it was drawn for. */
  datatype Coord = Coord(week: nat, day: nat, ch: char, charIndex: nat)

  /** Chronological order of calendar cells: by week, then by weekday. */
  predicate Precedes(a: Coord, b: Coord)
  {
    a.week < b.week || (a.week == b.week && a.day < b.day)
  }

  predicate StrictlyOrdered(s: seq<Coord>)
  {
    forall i, j | 0 <= i < j < |s| :: Precedes(s[i], s[j])
  }

  /** Weeks needed to draw `text`: each character takes a glyph and a gap,
      except that the last gap is not needed. */
  function RequiredWeeks(text: string): nat
  {
    if |text| == 0 then 0 else |text| * Pitch - CharSpacing
  }

  /** The largest number of characters whose drawing fits in the calendar. */
  function MaxCharacters(): (r: nat)
    ensures r * Pitch - CharSpacing <= MaxWeeks < (r + 1) * Pitch - CharSpacing
  {
    (MaxWeeks + CharSpacing) / Pitch
  }

  datatype Verdict =
    | Accepted
    | EmptyText
    | TooLong(required: nat, maxChars: nat, maxWeeks: nat)

  /** Decides whether `text` can be drawn: it must contain something other
      than whitespace and fit in the calendar. */
  function ValidateText(text: string): (r: Verdict)
    ensures r.Accepted? <==> !AllSpace(text) && |text| <= MaxCharacters()
    ensures r.EmptyText? <==> AllSpace(text)
    ensures r.TooLong? ==>
              && r.required == |text| * Pitch - CharSpacing > MaxWeeks
              && r.maxChars == MaxCharacters() && r.maxWeeks == MaxWeeks
  {
    StripEmptyIffAllSpace(text);
    if |text| == 0 || |Strip(text)| == 0 then EmptyText
    else
      var required := RequiredWeeks(text);
      var maxChars := MaxCharacters();
      if required > MaxWeeks then TooLong(required, maxChars, MaxWeeks) else Accepted
  }

  /** Opening words of the message for a text that does not fit. */
  const TooLongOpening := "Text too long! Max "

  /** The message shown to the user for a verdict: "OK" exactly for an
      accepted text, the request for text exactly for an empty one, and for a
      too-long one a message that names the capacity right after its opening
      words, so messages of different kinds never coincide. */
  function VerdictMessage(v: Verdict): (r: string)
    ensures r == "OK" <==> v.Accepted?
    ensures r == "Please enter some text" <==> v.EmptyText?
    ensures v.TooLong? ==>
              && |r| > |TooLongOpening| + |NatToString(v.maxChars)|
              && r[..|TooLongOpening|] == TooLongOpening
              && r[|TooLongOpening|..|TooLongOpening| + |NatToString(v.maxChars)|] == NatToString(v.maxChars)
              && r[|TooLongOpening| + |NatToString(v.maxChars)|] == ' '
  {
    match v
    case Accepted => "OK"
    case EmptyText => "Please enter some text"
    case TooLong(required, maxChars, maxWeeks) =>
      TooLongOpening + NatToString(maxChars) + " chars (needs " + NatToString(required)
      + " weeks, max " + NatToString(maxWeeks) + ")"
  }

  /** The lit cells of rows `0 .. rows-1` of column `col` of glyph `g`, drawn
      for character `ch` at position `index`, top to bottom. */
  function ColumnCoords(g: Glyph, ch: char, index: nat, col: nat, rows: nat): seq<Coord>
    requires col < CharWidth && rows <= CharHeight
  {
    if rows == 0 then []
    else
      ColumnCoords(g, ch, index, col, rows - 1)
      + (if g[rows - 1][col] == 1 then [Coord(index * Pitch + col, rows - 1, ch, index)] else [])
  }

  /** The lit cells of columns `0 .. cols-1` of glyph `g`, column by column. */
  function GlyphCoords(g: Glyph, ch: char, index: nat, cols: nat): seq<Coord>
    requires cols <= CharWidth
  {
    if cols == 0 then []
    else GlyphCoords(g, ch, index, cols - 1) + ColumnCoords(g, ch, index, cols - 1, CharHeight)
  }

  /** The cells drawn for the first `n` characters of the upper-cased text `upper`. */
  function PrefixCoords(font: Font, upper: string, n: nat): seq<Coord>
    requires n <= |upper|
  {
    if n == 0 then []
    else
      var ch := upper[n - 1];
      PrefixCoords(font, upper, n - 1) + GlyphCoords(Lookup(font, ch), ch, n - 1, CharWidth)
  }

  /** All cells to fill for `text`: characters left to right, within a
      character columns left to right, within a column rows top to bottom. */
  function TextToPattern(font: Font, text: string): seq<Coord>
  {
    if |text| == 0 then [] else PrefixCoords(font, UpperText(text), |text|)
  }

  /** The loops that build the cell list, with the running week offset of the
      current character. */
  method TextToPatternLoop(font: Font, text: string) returns (coords: seq<Coord>)
    ensures coords == TextToPattern(font, text)
  {
    if |text| == 0 {
      return [];
    }
    var upper := UpperText(text);
    coords := [];
    var currentWeek := 0;
    var charIndex := 0;
    while charIndex < |upper|
      invariant charIndex <= |upper|
      invariant currentWeek == charIndex * Pitch
      invariant coords == PrefixCoords(font, upper, charIndex)
    {
      var ch := upper[charIndex];
      var g := Lookup(font, ch);
      ghost var done := coords;
      var col := 0;
      while col < CharWidth
        invariant col <= CharWidth
        invariant coords == done + GlyphCoords(g, ch, charIndex, col)
      {
        var row := 0;
        while row < CharHeight
          invariant row <= CharHeight
          invariant coords == done + GlyphCoords(g, ch, charIndex, col) + ColumnCoords(g, ch, charIndex, col, row)
        {
          if g[row][col] == 1 {
            coords := coords + [Coord(currentWeek + col, row, ch, charIndex)];
          }
          row := row + 1;
        }
        col := col + 1;
      }
      currentWeek := currentWeek + CharWidth + CharSpacing;
      charIndex := charIndex + 1;
    }
  }

  /** A preview grid: `MaxDays` rows of `weeks` cells each. */
  predicate IsGrid(grid: seq<seq<int>>, weeks: nat)
  {
    |grid| == MaxDays && forall d | 0 <= d < MaxDays :: |grid[d]| == weeks
  }

  function BlankGrid(weeks: nat): (grid: seq<seq<int>>)
    ensures IsGrid(grid, weeks)
    ensures forall d, w | 0 <= d < MaxDays && 0 <= w < weeks :: grid[d][w] == 0
  {
    seq(MaxDays, _ => seq(weeks, _ => 0))
  }

  /** Sets the cell of `c` to 1 when it lies inside the grid. */
  function MarkCell(grid: seq<seq<int>>, weeks: nat, c: Coord): (r: seq<seq<int>>)
    requires IsGrid(grid, weeks)
    ensures IsGrid(r, weeks)
  {
    if c.week < weeks && c.day < MaxDays then grid[c.day := grid[c.day][c.week := 1]] else grid
  }

  /** Marks the cells of `coords` one after the other. */
  function MarkAll(grid: seq<seq<int>>, weeks: nat, coords: seq<Coord>): (r: seq<seq<int>>)
    requires IsGrid(grid, weeks)
    ensures IsGrid(r, weeks)
    decreases |coords|
  {
    if coords == [] then grid else MarkAll(MarkCell(grid, weeks, coords[0]), weeks, coords[1..])
  }

  /** The 0/1 preview of `text`: empty for empty text, otherwise 7 rows of
      `RequiredWeeks(text)` cells with the pattern's cells set. */
  function PreviewPattern(font: Font, text: string): seq<seq<int>>
  {
    if |text| == 0 then []
    else
      var coords := TextToPattern(font, text);
      var weeks := RequiredWeeks(text);
      MarkAll(BlankGrid(weeks), weeks, coords)
  }

  datatype PatternStats = PatternStats(
    characters: nat,
    maxCharacters: nat,
    commits: nat,
    weeks: nat,
    maxWeeks: nat,
    fitsInGraph: bool)

  /** Summary figures for the user interface. */
  function GetPatternStats(font: Font, text: string): PatternStats
  {
    var coords := TextToPattern(font, text);
    var weeks := RequiredWeeks(text);
    PatternStats(|text|, MaxCharacters(), |coords|, weeks, MaxWeeks, weeks <= MaxWeeks)
  }
}
