/** Plate layout: the well-grid table of standard plate formats, the square site grid,
    counting wells and sites over a file listing, the maximal A01 well position, and
    the spreading of the files of one cell over per-channel maps. */
module Layout {
  import opened Outcomes
  import opened Geometry
  import opened Naming

  // ---------------------------------------------------------------------------
  // Well grid
  // ---------------------------------------------------------------------------

  /** The standard plate formats in ascending capacity: 24 wells as 6 x 4, 96 as 12 x 8, 384 as 24 x 16. */
  const PlateFormats: seq<Pos> := [Pos(6, 4), Pos(12, 8), Pos(24, 16)]

  function Capacity(f: Pos): int
  {
    f.x * f.y
  }

  /** The index of the first format of `formats` that holds `numWells` wells, or the
      number of formats when none does. */
  function FirstFitIndex(formats: seq<Pos>, numWells: int): (i: nat)
    ensures i <= |formats|
    ensures i < |formats| ==> numWells <= Capacity(formats[i])
    ensures forall j :: 0 <= j < i ==> Capacity(formats[j]) < numWells
    decreases |formats|
  {
    if formats == [] then 0
    else if numWells <= Capacity(formats[0]) then 0
    else 1 + FirstFitIndex(formats[1..], numWells)
  }

  /** `configWells`: the first standard format that holds `numWells` wells, or (0, 0) —
      the untouched `new int[2]` — when none does. */
  function WellGrid(numWells: int): Pos
  {
    var i := FirstFitIndex(PlateFormats, numWells);
    if i < |PlateFormats| then PlateFormats[i] else Pos(0, 0)
  }

  /** `configWells`' table: up to 24 wells give 6 x 4, up to 96 give 12 x 8, up to 384
      give 24 x 16, the first fitting format winning; more than 384 leave (0, 0). The
      chosen grid always holds the wells when any format does. */
  lemma WellGridTable(numWells: int)
    ensures numWells <= 24 ==> WellGrid(numWells) == Pos(6, 4)
    ensures 24 < numWells <= 96 ==> WellGrid(numWells) == Pos(12, 8)
    ensures 96 < numWells <= 384 ==> WellGrid(numWells) == Pos(24, 16)
    ensures 384 < numWells ==> WellGrid(numWells) == Pos(0, 0)
    ensures numWells <= 384 ==> numWells <= Capacity(WellGrid(numWells))
  {
    var i := FirstFitIndex(PlateFormats, numWells);
    assert Capacity(PlateFormats[0]) == 24 && Capacity(PlateFormats[1]) == 96 && Capacity(PlateFormats[2]) == 384;
    if numWells <= 24 {
      assert i == 0;
    } else if numWells <= 96 {
      assert i == 1;
    } else if numWells <= 384 {
      assert i == 2;
    }
  }

  // ---------------------------------------------------------------------------
  // Site grid
  // ---------------------------------------------------------------------------

  /** `(int) Math.ceil(Math.sqrt(n))` on integers: the least k with n <= k². */
  function CeilSqrt(n: nat): (r: nat)
    ensures n <= r * r
    ensures r == 0 || (r - 1) * (r - 1) < n
  {
    CeilSqrtFrom(n, 0)
  }

  /** Searches upward from `k`, every smaller candidate being too small. */
  function CeilSqrtFrom(n: nat, k: nat): (r: nat)
    requires k == 0 || (k - 1) * (k - 1) < n
    ensures n <= r * r
    ensures r == 0 || (r - 1) * (r - 1) < n
    decreases n - k
  {
    if n <= k * k then k
    else
      assert k <= k * k by {
        if k > 0 { MulMonotone(1, k, k); }
      }
      CeilSqrtFrom(n, k + 1)
  }

  /** `configSites`: a square grid of side max(1, ceil(sqrt(numSites))). */
  function SiteGrid(numSites: nat): (r: Pos)
    ensures r.x == r.y >= 1
    ensures numSites <= r.x * r.y
    ensures r.x > 1 ==> (r.x - 1) * (r.x - 1) < numSites
  {
    var side := Max(1, CeilSqrt(numSites));
    Pos(side, side)
  }

  /** 1 site gives 1 x 1, 4 sites give 2 x 2, 5 sites give 3 x 3, 9 sites give 3 x 3. */
  lemma SiteGridExamples()
    ensures SiteGrid(1) == Pos(1, 1)
    ensures SiteGrid(4) == Pos(2, 2)
    ensures SiteGrid(5) == Pos(3, 3)
    ensures SiteGrid(9) == Pos(3, 3)
  {
    SideOfSquare(1, 1);
    SideOfSquare(4, 2);
    SideOfSquare(5, 3);
    SideOfSquare(9, 3);
  }

  /** The ceiling square root is pinned down by its two bounds. */
  lemma SideOfSquare(n: nat, k: nat)
    requires n <= k * k && (k == 0 || (k - 1) * (k - 1) < n)
    ensures CeilSqrt(n) == k
  {
    var r := CeilSqrt(n);
    if r < k {
      MulMonotone(r, k - 1, r);
      MulMonotone(r, k - 1, k - 1);
    } else if r > k {
      MulMonotone(k, r - 1, k);
      MulMonotone(k, r - 1, r - 1);
    }
  }

  // ---------------------------------------------------------------------------
  // Counting sites and wells
  // ---------------------------------------------------------------------------

  /** The site tokens collected from the files whose pattern is the indexed grammar. */
  function SiteTokens(files: seq<Matches>): set<nat>
    decreases |files|
  {
    if files == [] then {}
    else
      var last := files[|files| - 1];
      SiteTokens(files[..|files| - 1]) + (if GetPattern(last) == PatternIndexed then {last.indexed.value.site} else {})
  }

  /** A site token is collected exactly when some indexed-grammar file carries it. */
  lemma {:induction false} SiteTokensMembership(files: seq<Matches>, s: nat)
    ensures s in SiteTokens(files) <==>
      exists i :: 0 <= i < |files| && GetPattern(files[i]) == PatternIndexed && files[i].indexed.value.site == s
    decreases |files|
  {
    if files != [] {
      var front := files[..|files| - 1];
      SiteTokensMembership(front, s);
      if exists i :: 0 <= i < |front| && GetPattern(front[i]) == PatternIndexed && front[i].indexed.value.site == s {
        var i :| 0 <= i < |front| && GetPattern(front[i]) == PatternIndexed && front[i].indexed.value.site == s;
        assert files[i] == front[i];
      }
      if exists i :: 0 <= i < |files| && GetPattern(files[i]) == PatternIndexed && files[i].indexed.value.site == s {
        var i :| 0 <= i < |files| && GetPattern(files[i]) == PatternIndexed && files[i].indexed.value.site == s;
        if i < |front| {
          assert front[i] == files[i];
        }
      }
    }
  }

  /** The number of distinct sites, 1 when no file carries a site token. */
  function NumSitesOf(files: seq<Matches>): nat
  {
    if |SiteTokens(files)| == 0 then 1 else |SiteTokens(files)|
  }

  /** `getNumSites`: counts the distinct site tokens of the indexed-grammar files, 1 when there are none. */
  method GetNumSites(files: seq<Matches>) returns (n: int)
    ensures n == NumSitesOf(files)
    ensures n >= 1
    ensures (forall i :: 0 <= i < |files| ==> GetPattern(files[i]) != PatternIndexed) ==> n == 1
  {
    var sites: set<nat> := {};
    for i := 0 to |files|
      invariant sites == SiteTokens(files[..i])
    {
      assert files[..i + 1][..i] == files[..i];
      var f := files[i];
      if GetPattern(f) == PatternIndexed {
        sites := sites + {f.indexed.value.site};
      }
    }
    assert files[..|files|] == files;
    if |sites| == 0 {
      n := 1;
    } else {
      n := |sites|;
    }
    if forall i :: 0 <= i < |files| ==> GetPattern(files[i]) != PatternIndexed {
      if sites != {} {
        var s :| s in sites;
        SiteTokensMembership(files, s);
      }
    }
  }

  /** The first group of a matched file: an A01 well token or an indexed well number.
      Tokens of the two grammars never coincide (one starts with a letter, the other with a digit). */
  datatype WellKey = A01Key(token: WellToken) | NumberKey(number: nat)

  function WellKeyOf(m: Matches): Option<WellKey>
  {
    match GetPattern(m)
    case PatternA01 => Some(A01Key(m.a01.value))
    case PatternIndexed => Some(NumberKey(m.indexed.value.well))
    case PatternNoMatch => None
  }

  /** The distinct well tokens of the matched files. */
  function WellKeys(files: seq<Matches>): set<WellKey>
    decreases |files|
  {
    if files == [] then {}
    else
      var last := files[|files| - 1];
      WellKeys(files[..|files| - 1]) + (if WellKeyOf(last).Some? then {WellKeyOf(last).value} else {})
  }

  /** The largest well number among the indexed-grammar files, 0 when there is none. */
  function MaxWellNumber(files: seq<Matches>): nat
    decreases |files|
  {
    if files == [] then 0
    else
      var last := files[|files| - 1];
      var m := MaxWellNumber(files[..|files| - 1]);
      if GetPattern(last) == PatternIndexed && last.indexed.value.well > m then last.indexed.value.well else m
  }

  /** The largest indexed well number is at least every indexed file's well number, and is
      0 or one of them. */
  lemma {:induction false} MaxWellNumberBounds(files: seq<Matches>)
    ensures forall i :: 0 <= i < |files| && GetPattern(files[i]) == PatternIndexed ==> files[i].indexed.value.well <= MaxWellNumber(files)
    ensures MaxWellNumber(files) == 0 ||
      exists i :: 0 <= i < |files| && GetPattern(files[i]) == PatternIndexed && files[i].indexed.value.well == MaxWellNumber(files)
    decreases |files|
  {
    if files != [] {
      var front := files[..|files| - 1];
      MaxWellNumberBounds(front);
      forall i | 0 <= i < |files| && GetPattern(files[i]) == PatternIndexed
        ensures files[i].indexed.value.well <= MaxWellNumber(files)
      {
        if i < |front| {
          assert files[i] == front[i];
        }
      }
      if MaxWellNumber(files) != MaxWellNumber(front) {
        assert files[|files| - 1].indexed.value.well == MaxWellNumber(files);
      } else if MaxWellNumber(front) != 0 {
        var i :| 0 <= i < |front| && GetPattern(front[i]) == PatternIndexed && front[i].indexed.value.well == MaxWellNumber(front);
        assert files[i] == front[i];
      }
    }
  }

  /** A well key is collected exactly when some matched file carries it. */
  lemma {:induction false} WellKeysMembership(files: seq<Matches>, k: WellKey)
    ensures k in WellKeys(files) <==> exists i :: 0 <= i < |files| && WellKeyOf(files[i]) == Some(k)
    decreases |files|
  {
    if files != [] {
      var front := files[..|files| - 1];
      WellKeysMembership(front, k);
      if exists i :: 0 <= i < |front| && WellKeyOf(front[i]) == Some(k) {
        var i :| 0 <= i < |front| && WellKeyOf(front[i]) == Some(k);
        assert files[i] == front[i];
      }
      if exists i :: 0 <= i < |files| && WellKeyOf(files[i]) == Some(k) {
        var i :| 0 <= i < |files| && WellKeyOf(files[i]) == Some(k);
        if i < |front| {
          assert front[i] == files[i];
        }
      }
    }
  }

  /** `getNumWells`: the larger of the number of distinct well tokens and the largest
      indexed well number, so never below the distinct count and never below any
      indexed well number. */
  method GetNumWells(files: seq<Matches>) returns (n: int)
    ensures n == Max(MaxWellNumber(files), |WellKeys(files)|)
    ensures n >= |WellKeys(files)|
    ensures forall i :: 0 <= i < |files| && GetPattern(files[i]) == PatternIndexed ==> files[i].indexed.value.well <= n
  {
    var wells: set<WellKey> := {};
    var maxWellNum := 0;
    for i := 0 to |files|
      invariant wells == WellKeys(files[..i])
      invariant maxWellNum == MaxWellNumber(files[..i])
    {
      assert files[..i + 1][..i] == files[..i];
      var f := files[i];
      var pattern := GetPattern(f);
      if pattern != PatternNoMatch {
        wells := wells + {WellKeyOf(f).value};
        if pattern == PatternIndexed {
          var wellNum := f.indexed.value.well;
          if wellNum > maxWellNum {
            maxWellNum := wellNum;
          }
        }
      }
    }
    assert files[..|files|] == files;
    if maxWellNum > |wells| {
      n := maxWellNum;
    } else {
      n := |wells|;
    }
    MaxWellNumberBounds(files);
  }

  // ---------------------------------------------------------------------------
  // Maximal A01 well position
  // ---------------------------------------------------------------------------

  /** The A01 well positions of the files, in order (all files matched). */
  function WellPositions(tokens: seq<Option<WellToken>>): seq<Pos>
    requires forall i :: 0 <= i < |tokens| ==> tokens[i].Some?
  {
    seq(|tokens|, i requires 0 <= i < |tokens| => WellPositionFromA01(tokens[i].value))
  }

  /** `getMaximalWellPositionsInData`: the per-axis maximum of (number - 1, letter index)
      over all files, starting from (0, 0); reading the group of a file the A01 grammar
      does not match throws IllegalStateException. */
  method GetMaximalWellPositionsInData(tokens: seq<Option<WellToken>>) returns (r: Result<Pos>)
    ensures r.Err? <==> exists i :: 0 <= i < |tokens| && tokens[i].None?
    ensures r.Err? ==> r.failure == IllegalState
    ensures r.Ok? ==> r.value == Track(Pos(0, 0), WellPositions(tokens))
  {
    var maximal := new int[2];
    maximal[0], maximal[1] := 0, 0;
    for i := 0 to |tokens|
      invariant forall j :: 0 <= j < i ==> tokens[j].Some?
      invariant TrackerValue(maximal) == Track(Pos(0, 0), WellPositions(tokens[..i]))
    {
      if tokens[i].None? {
        return Err(IllegalState);
      }
      var wellPosition := WellPositionFromA01(tokens[i].value);
      ghost var before := TrackerValue(maximal);
      for d := 0 to 2
        invariant maximal[0] == if d >= 1 then Max(before.x, wellPosition.x) else before.x
        invariant maximal[1] == if d >= 2 then Max(before.y, wellPosition.y) else before.y
      {
        var v := if d == 0 then wellPosition.x else wellPosition.y;
        if v > maximal[d] {
          maximal[d] := v;
        }
      }
      assert WellPositions(tokens[..i + 1]) == WellPositions(tokens[..i]) + [wellPosition];
      TrackSnoc(Pos(0, 0), WellPositions(tokens[..i]), wellPosition);
    }
    assert tokens[..|tokens|] == tokens;
    r := Ok(TrackerValue(maximal));
  }

  /** The maximal position bounds every file's well position and starts from (0, 0). */
  lemma MaximalWellPositionBounds(tokens: seq<Option<WellToken>>, i: int)
    requires forall j :: 0 <= j < |tokens| ==> tokens[j].Some?
    requires 0 <= i < |tokens|
    ensures WellPositionFromA01(tokens[i].value).x <= Track(Pos(0, 0), WellPositions(tokens)).x
    ensures WellPositionFromA01(tokens[i].value).y <= Track(Pos(0, 0), WellPositions(tokens)).y
    ensures Track(Pos(0, 0), WellPositions(tokens)).x >= 0 && Track(Pos(0, 0), WellPositions(tokens)).y >= 0
  {
    TrackBounds(Pos(0, 0), WellPositions(tokens));
    assert WellPositions(tokens)[i] == WellPositionFromA01(tokens[i].value);
  }

  // ---------------------------------------------------------------------------
  // Channel maps
  // ---------------------------------------------------------------------------

  /** The list of cell-to-file maps `putCellToMaps` fills: one map per channel, each
      holding at most one file per cell. */
  class CellFileMaps {
    var maps: seq<map<string, string>>

    constructor ()
      ensures maps == []
    {
      maps := [];
    }
  }

  /** The index of the first map lacking `cell`, or the number of maps when all hold it. */
  function FirstFree(maps: seq<map<string, string>>, cell: string): (i: nat)
    ensures i <= |maps|
    ensures i < |maps| ==> cell !in maps[i]
    ensures forall j :: 0 <= j < i ==> cell in maps[j]
    decreases |maps|
  {
    if maps == [] then 0
    else if cell !in maps[0] then 0
    else 1 + FirstFree(maps[1..], cell)
  }

  /** The maps after `putCellToMaps(maps, cell, file)`: the file goes into the first map
      lacking the cell; when every map has it, one new map holding only it is appended.
      No existing entry is overwritten and no other map changes. */
  function PutCell(maps: seq<map<string, string>>, cell: string, file: string): (r: seq<map<string, string>>)
    ensures |r| == if FirstFree(maps, cell) < |maps| then |maps| else |maps| + 1
    ensures r[FirstFree(maps, cell)] == (if FirstFree(maps, cell) < |maps| then maps[FirstFree(maps, cell)] else map[])[cell := file]
    ensures forall j :: 0 <= j < |maps| && j != FirstFree(maps, cell) ==> r[j] == maps[j]
    ensures forall j, k :: 0 <= j < |maps| && k in maps[j] ==> k in r[j] && r[j][k] == maps[j][k]
  {
    var i := FirstFree(maps, cell);
    if i < |maps| then maps[i := maps[i][cell := file]] else maps + [map[cell := file]]
  }

  /** How many maps hold a file for `cell`. */
  function CountHolding(maps: seq<map<string, string>>, cell: string): nat
    decreases |maps|
  {
    if maps == [] then 0 else (if cell in maps[0] then 1 else 0) + CountHolding(maps[1..], cell)
  }

  /** Each call adds exactly one more file for the cell, and leaves every other cell's
      files where they were. */
  lemma {:induction false} PutCellCounts(maps: seq<map<string, string>>, cell: string, file: string, other: string)
    requires other != cell
    ensures CountHolding(PutCell(maps, cell, file), cell) == CountHolding(maps, cell) + 1
    ensures CountHolding(PutCell(maps, cell, file), other) == CountHolding(maps, other)
    decreases |maps|
  {
    if maps == [] {
      assert PutCell(maps, cell, file)[1..] == [];
    } else if cell !in maps[0] {
      assert PutCell(maps, cell, file)[1..] == maps[1..];
    } else {
      PutCellCounts(maps[1..], cell, file, other);
      assert PutCell(maps, cell, file) == [maps[0]] + PutCell(maps[1..], cell, file);
      assert PutCell(maps, cell, file)[1..] == PutCell(maps[1..], cell, file);
    }
  }

  /** `putCellToMaps`: updates the caller's list of maps in place. */
  method PutCellToMaps(cellFileMaps: CellFileMaps, cell: string, file: string)
    modifies cellFileMaps
    ensures cellFileMaps.maps == PutCell(old(cellFileMaps.maps), cell, file)
  {
    var placed := false;
    var iMap := 0;
    while iMap < |cellFileMaps.maps|
      invariant 0 <= iMap <= |cellFileMaps.maps| == |old(cellFileMaps.maps)|
      invariant forall j :: 0 <= j < iMap ==> cell in cellFileMaps.maps[j]
      invariant cellFileMaps.maps == old(cellFileMaps.maps)
      invariant iMap <= FirstFree(cellFileMaps.maps, cell)
    {
      if cell !in cellFileMaps.maps[iMap] {
        cellFileMaps.maps := cellFileMaps.maps[iMap := cellFileMaps.maps[iMap][cell := file]];
        placed := true;
        break;
      }
      iMap := iMap + 1;
    }
    if !placed {
      cellFileMaps.maps := cellFileMaps.maps + [map[]];
      cellFileMaps.maps := cellFileMaps.maps[|cellFileMaps.maps| - 1 := cellFileMaps.maps[|cellFileMaps.maps| - 1][cell := file]];
    }
  }
}
