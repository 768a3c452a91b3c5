/** Filename grammars and the grid cell each grammar assigns to a file.

    The regular expressions themselves are not modelled: each file carries what
    every grammar captured when matched against it (`None` = no full match).
    Two grammars exist:
    - the A01 grammar, whose first group is a well token such as "B07";
    - the indexed grammar ("W0001_P000_C00"), whose first two groups are a
      fixed-width zero-padded well number and site number. */
module Naming {
  import opened Outcomes
  import opened Geometry

  type Digit = d: int | 0 <= d <= 9

  /** The well token captured by an A01-style grammar: a letter and two digits, e.g. "B07". */
  datatype WellToken = WellToken(letter: char, tens: Digit, ones: Digit)

  /** The well and site groups of the indexed grammar, as the numbers `Integer.parseInt` reads.
      The groups are fixed-width, so two group strings are equal exactly when these numbers are. */
  datatype IndexedGroups = IndexedGroups(well: nat, site: nat)

  /** What each grammar captured when matched against one file's path. */
  datatype Matches = Matches(a01: Option<WellToken>, indexed: Option<IndexedGroups>)

  /** The grammar `getPattern` reports for a file. */
  datatype Pattern = PatternA01 | PatternIndexed | PatternNoMatch

  /** `getPattern`: the A01 grammar is tried first, then the indexed grammar;
      NO_MATCH is reported only when neither matches the whole path. */
  function GetPattern(m: Matches): (r: Pattern)
    ensures r == PatternA01 <==> m.a01.Some?
    ensures r == PatternIndexed <==> m.a01.None? && m.indexed.Some?
    ensures r == PatternNoMatch <==> m.a01.None? && m.indexed.None?
  {
    if m.a01.Some? then PatternA01
    else if m.indexed.Some? then PatternIndexed
    else PatternNoMatch
  }

  /** Whether the regular expression of `pattern` matches the file (NO_MATCH matches nothing). */
  predicate MatchesPattern(m: Matches, pattern: Pattern)
  {
    match pattern
    case PatternA01 => m.a01.Some?
    case PatternIndexed => m.indexed.Some?
    case PatternNoMatch => false
  }

  /** The pattern `getPattern` reports is one that matches, unless it reports NO_MATCH. */
  lemma GetPatternMatches(m: Matches)
    ensures GetPattern(m) != PatternNoMatch <==> MatchesPattern(m, GetPattern(m))
  {
  }

  // ---------------------------------------------------------------------------
  // A01 wells
  // ---------------------------------------------------------------------------

  /** `Utils.CAPITAL_ALPHABET.indexOf(letter)`: 0 for 'A' up to 25 for 'Z', -1 for any other character. */
  function AlphabetIndex(c: char): int
  {
    if 'A' <= c <= 'Z' then c as int - 'A' as int else -1
  }

  predicate IsCapital(c: char)
  {
    'A' <= c <= 'Z'
  }

  /** `Integer.parseInt(well.substring(1, 3))`. */
  function WellNumber(t: WellToken): nat
  {
    10 * t.tens + t.ones
  }

  /** `getWellPositionFromA01`: column = two-digit number - 1, row = the letter's index in the alphabet. */
  function WellPositionFromA01(t: WellToken): (r: Pos)
    ensures IsCapital(t.letter) ==> 0 <= r.y < 26
    ensures -1 <= r.x < 99
  {
    Pos(WellNumber(t) - 1, AlphabetIndex(t.letter))
  }

  /** The well token that names a well position: the inverse of `WellPositionFromA01`. */
  function TokenAtPosition(p: Pos): WellToken
    requires -1 <= p.x < 99 && 0 <= p.y < 26
  {
    WellToken(('A' as int + p.y) as char, (p.x + 1) / 10, (p.x + 1) % 10)
  }

  /** Every well token with a capital letter is recovered from its position, so distinct
      tokens name distinct wells. */
  lemma A01PositionRoundTrip(t: WellToken)
    requires IsCapital(t.letter)
    ensures TokenAtPosition(WellPositionFromA01(t)) == t
  {
    var n := WellNumber(t);
    DivModUnique(t.tens, t.ones, 10);
    assert n / 10 == t.tens && n % 10 == t.ones;
  }

  /** "A01" is the first column of the first row and "B01" the first column of the second row. */
  lemma A01Examples()
    ensures WellPositionFromA01(WellToken('A', 0, 1)) == Pos(0, 0)
    ensures WellPositionFromA01(WellToken('B', 0, 1)) == Pos(0, 1)
    ensures WellPositionFromA01(WellToken('H', 1, 2)) == Pos(11, 7)
  {
  }

  // ---------------------------------------------------------------------------
  // Cell placement
  // ---------------------------------------------------------------------------

  /** Where a file goes: the well's offset in the grid of cells and the site's offset inside the well. */
  datatype Placement = Placement(well: Pos, site: Pos)

  /** `computeCellPosition`: the grid cell is well offset + site offset on each axis. */
  function CellPosition(p: Placement): Pos
  {
    Add(p.well, p.site)
  }

  /** The indexed grammar's decomposition (Java division):
      well offset = ((w % cols) * siteCols, (w / cols) * siteCols),
      site offset = (s % siteCols, s / siteCols). */
  function IndexedPlacement(g: IndexedGroups, numWellColumns: int, numSiteColumns: int): Placement
    requires numWellColumns != 0 && numSiteColumns != 0
  {
    WellSitePlacement(g.well, g.site, numWellColumns, numSiteColumns)
  }

  /** The same decomposition of a well number and a site number of any sign. */
  function WellSitePlacement(wellNum: int, siteNum: int, numWellColumns: int, numSiteColumns: int): Placement
    requires numWellColumns != 0 && numSiteColumns != 0
  {
    Placement(
      Pos(JavaRem(wellNum, numWellColumns) * numSiteColumns, JavaDiv(wellNum, numWellColumns) * numSiteColumns),
      Pos(JavaRem(siteNum, numSiteColumns), JavaDiv(siteNum, numSiteColumns)))
  }

  /** The placement part of `getCell(file, pattern, numWellColumns, numSiteColumns)`:
      null when the pattern does not match, an ArithmeticException when the indexed
      grammar divides by a zero column count; the A01 grammar has site offset (0, 0). */
  function GetPlacement(m: Matches, pattern: Pattern, numWellColumns: int, numSiteColumns: int): (r: Result<Option<Placement>>)
    ensures r == Ok(None) <==> !MatchesPattern(m, pattern)
    ensures r.Err? <==> pattern == PatternIndexed && m.indexed.Some? && (numWellColumns == 0 || numSiteColumns == 0)
    ensures pattern == PatternA01 && m.a01.Some? ==>
      r == Ok(Some(Placement(WellPositionFromA01(m.a01.value), Pos(0, 0))))
    ensures r.Ok? && r.value.Some? && pattern == PatternIndexed ==>
      CellPosition(r.value.value) == IndexedCell(m.indexed.value, numWellColumns, numSiteColumns)
  {
    if !MatchesPattern(m, pattern) then Ok(None)
    else if pattern == PatternA01 then
      Ok(Some(Placement(WellPositionFromA01(m.a01.value), Pos(0, 0))))
    else if numWellColumns == 0 || numSiteColumns == 0 then Err(Arithmetic)
    else Ok(Some(IndexedPlacement(m.indexed.value, numWellColumns, numSiteColumns)))
  }

  /** `getCell` without its tracker updates (`ImagesSource.getCell`): the grid cell of a
      file under `pattern`, null when the pattern does not match. */
  function CellOf(m: Matches, pattern: Pattern, numWellColumns: int, numSiteColumns: int): (r: Result<Option<Pos>>)
    ensures r == Ok(None) <==> !MatchesPattern(m, pattern)
    ensures r.Err? <==> pattern == PatternIndexed && m.indexed.Some? && (numWellColumns == 0 || numSiteColumns == 0)
  {
    var placement :- GetPlacement(m, pattern, numWellColumns, numSiteColumns);
    if placement.Some? then Ok(Some(CellPosition(placement.value))) else Ok(None)
  }

  /** The cell `getCell` returns identifies the file: an A01 cell gives back its well
      token, and an indexed cell gives back its well and site numbers when the column
      counts are positive and the site number is below numSiteColumns². */
  lemma CellIdentifiesFile(m: Matches, pattern: Pattern, numWellColumns: int, numSiteColumns: int)
    ensures pattern == PatternA01 && m.a01.Some? && IsCapital(m.a01.value.letter) ==>
      CellOf(m, pattern, numWellColumns, numSiteColumns).Ok? &&
      CellOf(m, pattern, numWellColumns, numSiteColumns).value.Some? &&
      TokenAtPosition(CellOf(m, pattern, numWellColumns, numSiteColumns).value.value) == m.a01.value
    ensures (pattern == PatternIndexed && m.indexed.Some? && numWellColumns > 0 && numSiteColumns > 0 &&
             m.indexed.value.site < numSiteColumns * numSiteColumns) ==>
      CellOf(m, pattern, numWellColumns, numSiteColumns).Ok? &&
      CellOf(m, pattern, numWellColumns, numSiteColumns).value.Some? &&
      CellOf(m, pattern, numWellColumns, numSiteColumns).value.value.x >= 0 &&
      CellOf(m, pattern, numWellColumns, numSiteColumns).value.value.y >= 0 &&
      DecodeIndexedCell(CellOf(m, pattern, numWellColumns, numSiteColumns).value.value, numWellColumns, numSiteColumns) == m.indexed.value
  {
    if pattern == PatternA01 && m.a01.Some? && IsCapital(m.a01.value.letter) {
      A01PositionRoundTrip(m.a01.value);
    }
    if pattern == PatternIndexed && m.indexed.Some? && numWellColumns > 0 && numSiteColumns > 0 &&
      m.indexed.value.site < numSiteColumns * numSiteColumns {
      IndexedCellRoundTrip(m.indexed.value, numWellColumns, numSiteColumns);
    }
  }

  /** The grid cell of an indexed file. */
  function IndexedCell(g: IndexedGroups, numWellColumns: int, numSiteColumns: int): Pos
    requires numWellColumns != 0 && numSiteColumns != 0
  {
    CellPosition(IndexedPlacement(g, numWellColumns, numSiteColumns))
  }

  /** Reads the well and site numbers back from a cell of the indexed layout. */
  function DecodeIndexedCell(c: Pos, numWellColumns: nat, numSiteColumns: nat): IndexedGroups
    requires numWellColumns > 0 && numSiteColumns > 0
    requires c.x >= 0 && c.y >= 0
  {
    IndexedGroups(
      (c.y / numSiteColumns) * numWellColumns + c.x / numSiteColumns,
      (c.y % numSiteColumns) * numSiteColumns + c.x % numSiteColumns)
  }

  /** For non-negative numbers and positive column counts Java's division is Dafny's. */
  lemma IndexedCellValue(g: IndexedGroups, numWellColumns: nat, numSiteColumns: nat)
    requires numWellColumns > 0 && numSiteColumns > 0
    ensures IndexedCell(g, numWellColumns, numSiteColumns) ==
      Pos((g.well % numWellColumns) * numSiteColumns + g.site % numSiteColumns,
          (g.well / numWellColumns) * numSiteColumns + g.site / numSiteColumns)
  {
    JavaDivision(g.well, numWellColumns);
    JavaDivision(g.site, numSiteColumns);
  }

  lemma DecodeComposedCell(wq: nat, wr: nat, sq: nat, sr: nat, numWellColumns: nat, numSiteColumns: nat)
    requires numWellColumns > 0 && numSiteColumns > 0
    requires wr < numWellColumns && sq < numSiteColumns && sr < numSiteColumns
    ensures wr * numSiteColumns + sr >= 0 && wq * numSiteColumns + sq >= 0
    ensures DecodeIndexedCell(Pos(wr * numSiteColumns + sr, wq * numSiteColumns + sq), numWellColumns, numSiteColumns).well
         == wq * numWellColumns + wr
    ensures DecodeIndexedCell(Pos(wr * numSiteColumns + sr, wq * numSiteColumns + sq), numWellColumns, numSiteColumns).site
         == sq * numSiteColumns + sr
  {
    var k := numSiteColumns;
    var x, y := wr * k + sr, wq * k + sq;
    DivModUnique(wr, sr, k);
    DivModUnique(wq, sq, k);
    assert x / k == wr && x % k == sr;
    assert y / k == wq && y % k == sq;
  }

  /** With positive column counts and a site number below numSiteColumns², the cell of
      an indexed file determines its well and site numbers. */
  lemma IndexedCellRoundTrip(g: IndexedGroups, numWellColumns: nat, numSiteColumns: nat)
    requires numWellColumns > 0 && numSiteColumns > 0
    requires g.site < numSiteColumns * numSiteColumns
    ensures IndexedCell(g, numWellColumns, numSiteColumns).x >= 0
    ensures IndexedCell(g, numWellColumns, numSiteColumns).y >= 0
    ensures DecodeIndexedCell(IndexedCell(g, numWellColumns, numSiteColumns), numWellColumns, numSiteColumns) == g
  {
    var cols, k := numWellColumns, numSiteColumns;
    IndexedCellValue(g, cols, k);
    SiteRowWithinSide(g.site, k);
    DecodeComposedCell(g.well / cols, g.well % cols, g.site / k, g.site % k, cols, k);
    DivModRecompose(g.well, cols);
    DivModRecompose(g.site, k);
  }

  /** A site number below k² has its row s / k inside the k-wide square. */
  lemma SiteRowWithinSide(s: nat, k: nat)
    requires k > 0 && s < k * k
    ensures s / k < k
  {
    if s / k >= k {
      MulMonotone(k, s / k, k);
      assert false;
    }
  }

  /** Distinct (well, site) pairs with site < numSiteColumns² land in distinct cells. */
  lemma IndexedCellsDistinct(g1: IndexedGroups, g2: IndexedGroups, numWellColumns: nat, numSiteColumns: nat)
    requires numWellColumns > 0 && numSiteColumns > 0
    requires g1.site < numSiteColumns * numSiteColumns && g2.site < numSiteColumns * numSiteColumns
    requires g1 != g2
    ensures IndexedCell(g1, numWellColumns, numSiteColumns) != IndexedCell(g2, numWellColumns, numSiteColumns)
  {
    IndexedCellRoundTrip(g1, numWellColumns, numSiteColumns);
    IndexedCellRoundTrip(g2, numWellColumns, numSiteColumns);
  }

  /** ... so their one-tile-wide pixel intervals are disjoint. */
  lemma IndexedIntervalsDisjoint(g1: IndexedGroups, g2: IndexedGroups, numWellColumns: nat, numSiteColumns: nat, tile: Pos)
    requires numWellColumns > 0 && numSiteColumns > 0 && tile.x > 0 && tile.y > 0
    requires g1.site < numSiteColumns * numSiteColumns && g2.site < numSiteColumns * numSiteColumns
    requires g1 != g2
    ensures !Intersecting(TileInterval(IndexedCell(g1, numWellColumns, numSiteColumns), tile),
                          TileInterval(IndexedCell(g2, numWellColumns, numSiteColumns), tile))
  {
    IndexedCellsDistinct(g1, g2, numWellColumns, numSiteColumns);
    TileIntervalsDisjoint(IndexedCell(g1, numWellColumns, numSiteColumns), IndexedCell(g2, numWellColumns, numSiteColumns), tile);
  }

  /** Distinct A01 wells (capital letters) get disjoint intervals. */
  lemma A01IntervalsDisjoint(t1: WellToken, t2: WellToken, tile: Pos)
    requires IsCapital(t1.letter) && IsCapital(t2.letter) && t1 != t2
    requires tile.x > 0 && tile.y > 0
    ensures !Intersecting(TileInterval(WellPositionFromA01(t1), tile), TileInterval(WellPositionFromA01(t2), tile))
  {
    A01PositionRoundTrip(t1);
    A01PositionRoundTrip(t2);
    TileIntervalsDisjoint(WellPositionFromA01(t1), WellPositionFromA01(t2), tile);
  }
}
