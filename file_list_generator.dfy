/** `ImageFileListGeneratorMDSingleSite`: builds one `ImageFile` (file and pixel interval)
    per input file, after choosing the well grid from the plate-format table and the
    site grid from the site count, and keeps per-axis maxima of the well and site
    offsets it has placed. */
module FileListGenerator {
  import opened Outcomes
  import opened Geometry
  import opened Naming
  import opened Layout

  /** One input file as the generator sees it: its path; the A01 well token the class's
      MD A01-channel scheme captures from its name (None when the name does not match);
      groups 1 and 2 of that scheme read as integers from its path (None when the path
      does not match); and the matches of the per-file grammars. */
  datatype ListedFile = ListedFile(path: string, nameToken: Option<WellToken>, pathNumbers: Option<IndexedGroups>, matches: Matches)

  /** An `ImageFile`: the file and its pixel interval, None for null. */
  datatype ImageFile = ImageFile(file: string, interval: Option<Box>)

  /** The class's fixed scheme is the MD A01-channel grammar, not the indexed screening grammar. */
  const NamingSchemeIsIndexed: bool := false

  function NameTokens(files: seq<ListedFile>): (r: seq<Option<WellToken>>)
    ensures |r| == |files| && forall i :: 0 <= i < |files| ==> r[i] == files[i].nameToken
  {
    seq(|files|, i requires 0 <= i < |files| => files[i].nameToken)
  }

  function FileMatches(files: seq<ListedFile>): (r: seq<Matches>)
    ensures |r| == |files| && forall i :: 0 <= i < |files| ==> r[i] == files[i].matches
  {
    seq(|files|, i requires 0 <= i < |files| => files[i].matches)
  }

  /** The generator's `getNumSites`: a site token is collected only when the class's
      fixed scheme is the indexed grammar, so with the A01 scheme the count is 1. The
      `schemeIsIndexed` branch is never taken (the scheme is the constant above); there the
      source would add group 2 of whichever grammar the name matched, which this branch
      simplifies to the indexed grammar's site token. */
  method GetNumSitesUnder(schemeIsIndexed: bool, files: seq<Matches>) returns (n: int)
    ensures n == if schemeIsIndexed then NumSitesOf(files) else 1
    ensures n >= 1
  {
    var sites: set<nat> := {};
    for i := 0 to |files|
      invariant sites == if schemeIsIndexed then SiteTokens(files[..i]) else {}
    {
      assert files[..i + 1][..i] == files[..i];
      var f := files[i];
      if GetPattern(f) == PatternIndexed && schemeIsIndexed {
        sites := sites + {f.indexed.value.site};
      }
    }
    assert files[..|files|] == files;
    if |sites| == 0 {
      n := 1;
    } else {
      n := |sites|;
    }
  }

  /** The placement `getInterval` computes from groups 1 and 2: the well number is group 1
      minus one, the site number group 2. */
  function ListPlacement(g: IndexedGroups, numWellColumns: int, numSiteColumns: int): Placement
    requires numWellColumns != 0 && numSiteColumns != 0
  {
    WellSitePlacement(g.well - 1, g.site, numWellColumns, numSiteColumns)
  }

  /** The entry `createList` appends for one file. The interval is the tile of the file's
      cell; a file whose path does not match the scheme gets none. (With a zero column
      count a matching file never gets here: `getInterval` throws first.) */
  function Entry(f: ListedFile, numWellColumns: int, numSiteColumns: int, imageDimensions: Pos): ImageFile
  {
    ImageFile(f.path,
      if f.pathNumbers.Some? && numWellColumns != 0 && numSiteColumns != 0
      then Some(TileInterval(CellPosition(ListPlacement(f.pathNumbers.value, numWellColumns, numSiteColumns)), imageDimensions))
      else None)
  }

  /** The list `createList` builds: one entry per input file, in input order, each naming
      its file, with an interval exactly when the file's path matches. */
  function Entries(files: seq<ListedFile>, numWellColumns: int, numSiteColumns: int, imageDimensions: Pos): (r: seq<ImageFile>)
    ensures |r| == |files|
    ensures forall i :: 0 <= i < |files| ==> r[i].file == files[i].path
    ensures numWellColumns != 0 && numSiteColumns != 0 ==>
      forall i :: 0 <= i < |files| ==> (r[i].interval.Some? <==> files[i].pathNumbers.Some?)
  {
    seq(|files|, i requires 0 <= i < |files| => Entry(files[i], numWellColumns, numSiteColumns, imageDimensions))
  }

  /** The placements of the files whose path matches, in input order. */
  function MatchedPlacements(files: seq<ListedFile>, numWellColumns: int, numSiteColumns: int): seq<Placement>
    decreases |files|
  {
    if files == [] then []
    else
      var last := files[|files| - 1];
      MatchedPlacements(files[..|files| - 1], numWellColumns, numSiteColumns) +
      (if last.pathNumbers.Some? && numWellColumns != 0 && numSiteColumns != 0
       then [ListPlacement(last.pathNumbers.value, numWellColumns, numSiteColumns)] else [])
  }

  function WellOffsets(ps: seq<Placement>): (r: seq<Pos>)
    ensures |r| == |ps| && forall i :: 0 <= i < |ps| ==> r[i] == ps[i].well
  {
    seq(|ps|, i requires 0 <= i < |ps| => ps[i].well)
  }

  function SiteOffsets(ps: seq<Placement>): (r: seq<Pos>)
    ensures |r| == |ps| && forall i :: 0 <= i < |ps| ==> r[i] == ps[i].site
  {
    seq(|ps|, i requires 0 <= i < |ps| => ps[i].site)
  }

  /** With positive column counts, two matching files with distinct well numbers (from 1)
      or distinct site numbers (below numSiteColumns²) get disjoint pixel intervals. */
  lemma ListIntervalsDisjoint(g1: IndexedGroups, g2: IndexedGroups, numWellColumns: nat, numSiteColumns: nat, tile: Pos)
    requires numWellColumns > 0 && numSiteColumns > 0 && tile.x > 0 && tile.y > 0
    requires g1.well >= 1 && g2.well >= 1
    requires g1.site < numSiteColumns * numSiteColumns && g2.site < numSiteColumns * numSiteColumns
    requires g1 != g2
    ensures !Intersecting(TileInterval(CellPosition(ListPlacement(g1, numWellColumns, numSiteColumns)), tile),
                          TileInterval(CellPosition(ListPlacement(g2, numWellColumns, numSiteColumns)), tile))
  {
    var h1, h2 := IndexedGroups(g1.well - 1, g1.site), IndexedGroups(g2.well - 1, g2.site);
    assert ListPlacement(g1, numWellColumns, numSiteColumns) == IndexedPlacement(h1, numWellColumns, numSiteColumns);
    assert ListPlacement(g2, numWellColumns, numSiteColumns) == IndexedPlacement(h2, numWellColumns, numSiteColumns);
    IndexedIntervalsDisjoint(h1, h2, numWellColumns, numSiteColumns, tile);
  }

  /** After `createList` the trackers bound every placed offset. */
  lemma TrackersBoundPlacements(start: Pos, ps: seq<Placement>, i: int)
    requires 0 <= i < |ps|
    ensures ps[i].well.x <= Track(start, WellOffsets(ps)).x && ps[i].well.y <= Track(start, WellOffsets(ps)).y
    ensures ps[i].site.x <= Track(start, SiteOffsets(ps)).x && ps[i].site.y <= Track(start, SiteOffsets(ps)).y
  {
    TrackBounds(start, WellOffsets(ps));
    TrackBounds(start, SiteOffsets(ps));
  }

  class ImageFileListGenerator {
    const files: seq<ListedFile>
    const imageDimensions: Pos
    var numSites: int
    var numWells: int
    var siteDimensions: Pos
    var wellDimensions: Pos
    const maxWellDimensionsInData: array<int>
    const maxSiteDimensionsInData: array<int>
    var list: seq<ImageFile>
    /** What the constructor's `createList` throws, None when it completes; a Java
        constructor that throws leaves no object, so only a None here describes a
        generator the caller gets. */
    var creationFailure: Option<Failure>

    predicate Valid()
      reads this
    {
      maxWellDimensionsInData.Length == 2 && maxSiteDimensionsInData.Length == 2 &&
      maxWellDimensionsInData != maxSiteDimensionsInData
    }

    /** The constructor: an empty list, zeroed trackers and the counts at Java's default
        0, then `createList`. */
    constructor (files: seq<ListedFile>, imageDimensions: Pos)
      ensures Valid()
      ensures this.files == files && this.imageDimensions == imageDimensions
      ensures fresh(maxWellDimensionsInData) && fresh(maxSiteDimensionsInData)
      ensures numWells == 0
      ensures (exists i :: 0 <= i < |files| && files[i].nameToken.None?) ==>
        creationFailure == Some(IllegalState) && list == [] && numSites == 0 &&
        TrackerValue(maxWellDimensionsInData) == Pos(0, 0) && TrackerValue(maxSiteDimensionsInData) == Pos(0, 0)
      ensures (forall i :: 0 <= i < |files| ==> files[i].nameToken.Some?) ==>
        wellDimensions == WellGrid(0) && numSites == 1 && siteDimensions == Pos(1, 1) &&
        (creationFailure.None? <==> wellDimensions.x != 0 || forall i :: 0 <= i < |files| ==> files[i].pathNumbers.None?)
      ensures creationFailure.None? ==>
        list == Entries(files, wellDimensions.x, siteDimensions.x, imageDimensions) &&
        TrackerValue(maxWellDimensionsInData) ==
          Track(Pos(0, 0), WellOffsets(MatchedPlacements(files, wellDimensions.x, siteDimensions.x))) &&
        TrackerValue(maxSiteDimensionsInData) ==
          Track(Pos(0, 0), SiteOffsets(MatchedPlacements(files, wellDimensions.x, siteDimensions.x)))
    {
      this.files := files;
      this.imageDimensions := imageDimensions;
      list := [];
      numSites, numWells := 0, 0;
      siteDimensions, wellDimensions := Pos(0, 0), Pos(0, 0);
      var well := new int[2];
      well[0], well[1] := 0, 0;
      var site := new int[2];
      site[0], site[1] := 0, 0;
      maxWellDimensionsInData := well;
      maxSiteDimensionsInData := site;
      creationFailure := None;
      new;
      creationFailure := CreateList();
    }

    /** `configWells`: the maximal well positions are computed (and throw for a file whose
        name does not match), then the well grid comes from the plate-format table for
        the `numWells` field. */
    method ConfigWells() returns (failure: Option<Failure>)
      modifies this
      ensures failure.Some? <==> exists i :: 0 <= i < |files| && files[i].nameToken.None?
      ensures failure.Some? ==> failure.value == IllegalState && wellDimensions == old(wellDimensions)
      ensures failure.None? ==> wellDimensions == WellGrid(numWells)
      ensures numWells == old(numWells) && numSites == old(numSites) && siteDimensions == old(siteDimensions) && list == old(list)
    {
      var maximalWellPositionsInData := GetMaximalWellPositionsInData(NameTokens(files));
      if maximalWellPositionsInData.Err? {
        return Some(maximalWellPositionsInData.failure);
      }
      wellDimensions := WellGrid(numWells);
      return None;
    }

    /** `configSites`: the site count, then a square grid of side max(1, ceil(sqrt(count))). */
    method ConfigSites()
      modifies this
      ensures numSites == (if NamingSchemeIsIndexed then NumSitesOf(FileMatches(files)) else 1)
      ensures siteDimensions == SiteGrid(numSites)
      ensures numSites == 1 && siteDimensions == Pos(1, 1)
      ensures numWells == old(numWells) && wellDimensions == old(wellDimensions) && list == old(list)
    {
      numSites := GetNumSitesUnder(NamingSchemeIsIndexed, FileMatches(files));
      siteDimensions := SiteGrid(numSites);
      SiteGridExamples();
    }

    /** `updateMaxWellDimensionInData`. */
    method UpdateMaxWellDimensionInData(wellPosition: Pos)
      requires Valid()
      modifies maxWellDimensionsInData
      ensures TrackerValue(maxWellDimensionsInData) == MaxPos(old(TrackerValue(maxWellDimensionsInData)), wellPosition)
    {
      RaiseMax(maxWellDimensionsInData, wellPosition);
    }

    /** `updateMaxSiteDimensionInData`. */
    method UpdateMaxSiteDimensionInData(sitePosition: Pos)
      requires Valid()
      modifies maxSiteDimensionsInData
      ensures TrackerValue(maxSiteDimensionsInData) == MaxPos(old(TrackerValue(maxSiteDimensionsInData)), sitePosition)
    {
      RaiseMax(maxSiteDimensionsInData, sitePosition);
    }

    /** `getInterval`: null for a path the scheme does not match; an ArithmeticException
        for a zero column count; otherwise the tile of the file's cell, after raising the
        trackers to its well and site offsets. */
    method GetInterval(f: ListedFile, numWellColumns: int, numSiteColumns: int) returns (r: Result<Option<Box>>)
      requires Valid()
      modifies maxWellDimensionsInData, maxSiteDimensionsInData
      ensures f.pathNumbers.None? ==> r == Ok(None)
      ensures r.Err? <==> f.pathNumbers.Some? && (numWellColumns == 0 || numSiteColumns == 0)
      ensures r.Err? ==> r.failure == Arithmetic
      ensures r.Ok? ==> r.value == Entry(f, numWellColumns, numSiteColumns, imageDimensions).interval
      ensures f.pathNumbers.Some? && numWellColumns != 0 && numSiteColumns != 0 ==>
        TrackerValue(maxWellDimensionsInData) ==
          MaxPos(old(TrackerValue(maxWellDimensionsInData)), ListPlacement(f.pathNumbers.value, numWellColumns, numSiteColumns).well) &&
        TrackerValue(maxSiteDimensionsInData) ==
          MaxPos(old(TrackerValue(maxSiteDimensionsInData)), ListPlacement(f.pathNumbers.value, numWellColumns, numSiteColumns).site)
      ensures !(f.pathNumbers.Some? && numWellColumns != 0 && numSiteColumns != 0) ==>
        unchanged(maxWellDimensionsInData) && unchanged(maxSiteDimensionsInData)
    {
      if f.pathNumbers.None? {
        return Ok(None);
      }
      if numWellColumns == 0 || numSiteColumns == 0 {
        return Err(Arithmetic);
      }
      var placement := ListPlacement(f.pathNumbers.value, numWellColumns, numSiteColumns);
      UpdateMaxWellDimensionInData(placement.well);
      UpdateMaxSiteDimensionInData(placement.site);
      return Ok(Some(TileInterval(CellPosition(placement), imageDimensions)));
    }

    /** `createList`: configures wells and sites, then appends one entry per file in order.
        A file whose name does not match stops it in `configWells`; a matching path under
        a zero well-column count (more than 384 wells) stops it in `getInterval`. */
    method CreateList() returns (failure: Option<Failure>)
      requires Valid()
      modifies this, maxWellDimensionsInData, maxSiteDimensionsInData
      ensures (exists i :: 0 <= i < |files| && files[i].nameToken.None?) ==>
        failure == Some(IllegalState) && list == old(list) && numSites == old(numSites) &&
        unchanged(maxWellDimensionsInData) && unchanged(maxSiteDimensionsInData)
      ensures (forall i :: 0 <= i < |files| ==> files[i].nameToken.Some?) ==>
        wellDimensions == WellGrid(numWells) && numSites == 1 && siteDimensions == Pos(1, 1) &&
        (failure.None? <==> wellDimensions.x != 0 || forall i :: 0 <= i < |files| ==> files[i].pathNumbers.None?)
      ensures failure.None? ==>
        list == old(list) + Entries(files, wellDimensions.x, siteDimensions.x, imageDimensions) &&
        TrackerValue(maxWellDimensionsInData) ==
          Track(old(TrackerValue(maxWellDimensionsInData)), WellOffsets(MatchedPlacements(files, wellDimensions.x, siteDimensions.x))) &&
        TrackerValue(maxSiteDimensionsInData) ==
          Track(old(TrackerValue(maxSiteDimensionsInData)), SiteOffsets(MatchedPlacements(files, wellDimensions.x, siteDimensions.x)))
      ensures numWells == old(numWells)
    {
      failure := ConfigWells();
      if failure.Some? {
        return;
      }
      ConfigSites();
      failure := AppendEntries(wellDimensions.x, siteDimensions.x);
    }

    /** The loop of `createList`: one `getInterval` per file, in order, each result
        appended; an ArithmeticException stops it. */
    method AppendEntries(numWellColumns: int, numSiteColumns: int) returns (failure: Option<Failure>)
      requires Valid()
      modifies this`list, maxWellDimensionsInData, maxSiteDimensionsInData
      ensures failure.None? <==>
        (numWellColumns != 0 && numSiteColumns != 0) || forall i :: 0 <= i < |files| ==> files[i].pathNumbers.None?
      ensures failure.Some? ==> failure.value == Arithmetic
      ensures failure.None? ==>
        list == old(list) + Entries(files, numWellColumns, numSiteColumns, imageDimensions) &&
        TrackerValue(maxWellDimensionsInData) ==
          Track(old(TrackerValue(maxWellDimensionsInData)), WellOffsets(MatchedPlacements(files, numWellColumns, numSiteColumns))) &&
        TrackerValue(maxSiteDimensionsInData) ==
          Track(old(TrackerValue(maxSiteDimensionsInData)), SiteOffsets(MatchedPlacements(files, numWellColumns, numSiteColumns)))
    {
      ghost var wellStart, siteStart := TrackerValue(maxWellDimensionsInData), TrackerValue(maxSiteDimensionsInData);
      for i := 0 to |files|
        invariant list == old(list) + Entries(files[..i], numWellColumns, numSiteColumns, imageDimensions)
        invariant TrackerValue(maxWellDimensionsInData) ==
          Track(wellStart, WellOffsets(MatchedPlacements(files[..i], numWellColumns, numSiteColumns)))
        invariant TrackerValue(maxSiteDimensionsInData) ==
          Track(siteStart, SiteOffsets(MatchedPlacements(files[..i], numWellColumns, numSiteColumns)))
        invariant !(numWellColumns != 0 && numSiteColumns != 0) ==> forall j :: 0 <= j < i ==> files[j].pathNumbers.None?
      {
        var f := files[i];
        EntriesSnoc(files, i, numWellColumns, numSiteColumns, imageDimensions);
        TrackMatchedSnoc(files, i, numWellColumns, numSiteColumns, wellStart, siteStart);
        var interval := GetInterval(f, numWellColumns, numSiteColumns);
        if interval.Err? {
          assert files[i].pathNumbers.Some? && !(numWellColumns != 0 && numSiteColumns != 0);
          assert !forall j :: 0 <= j < |files| ==> files[j].pathNumbers.None?;
          return Some(interval.failure);
        }
        list := list + [ImageFile(f.path, interval.value)];
      }
      assert files[..|files|] == files;
      failure := None;
    }
  }

  lemma EntriesSnoc(files: seq<ListedFile>, i: int, numWellColumns: int, numSiteColumns: int, imageDimensions: Pos)
    requires 0 <= i < |files|
    ensures Entries(files[..i + 1], numWellColumns, numSiteColumns, imageDimensions) ==
      Entries(files[..i], numWellColumns, numSiteColumns, imageDimensions) + [Entry(files[i], numWellColumns, numSiteColumns, imageDimensions)]
  {
    assert files[..i + 1][..i] == files[..i];
  }

  /** One more file raises the trackers by its offsets when it is placed, and leaves
      them when it is not. */
  lemma TrackMatchedSnoc(files: seq<ListedFile>, i: int, numWellColumns: int, numSiteColumns: int, wellStart: Pos, siteStart: Pos)
    requires 0 <= i < |files|
    ensures files[i].pathNumbers.Some? && numWellColumns != 0 && numSiteColumns != 0 ==>
      Track(wellStart, WellOffsets(MatchedPlacements(files[..i + 1], numWellColumns, numSiteColumns))) ==
        MaxPos(Track(wellStart, WellOffsets(MatchedPlacements(files[..i], numWellColumns, numSiteColumns))),
               ListPlacement(files[i].pathNumbers.value, numWellColumns, numSiteColumns).well) &&
      Track(siteStart, SiteOffsets(MatchedPlacements(files[..i + 1], numWellColumns, numSiteColumns))) ==
        MaxPos(Track(siteStart, SiteOffsets(MatchedPlacements(files[..i], numWellColumns, numSiteColumns))),
               ListPlacement(files[i].pathNumbers.value, numWellColumns, numSiteColumns).site)
    ensures !(files[i].pathNumbers.Some? && numWellColumns != 0 && numSiteColumns != 0) ==>
      MatchedPlacements(files[..i + 1], numWellColumns, numSiteColumns) == MatchedPlacements(files[..i], numWellColumns, numSiteColumns)
  {
    assert files[..i + 1][..i] == files[..i];
    var before := MatchedPlacements(files[..i], numWellColumns, numSiteColumns);
    if files[i].pathNumbers.Some? && numWellColumns != 0 && numSiteColumns != 0 {
      var p := ListPlacement(files[i].pathNumbers.value, numWellColumns, numSiteColumns);
      assert MatchedPlacements(files[..i + 1], numWellColumns, numSiteColumns) == before + [p];
      assert WellOffsets(before + [p]) == WellOffsets(before) + [p.well];
      assert SiteOffsets(before + [p]) == SiteOffsets(before) + [p.site];
      TrackSnoc(wellStart, WellOffsets(before), p.well);
      TrackSnoc(siteStart, SiteOffsets(before), p.site);
    }
  }
}
