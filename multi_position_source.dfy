/** `MultiPositionImagesSource`: places each file's image at its grid cell, keeping
    per-axis maxima of the well and site offsets it has placed, on a canvas sized
    image × wells × sites per axis. */
module MultiPositionSource {
  import opened Outcomes
  import opened Geometry
  import opened Naming
  import opened Images

  /** The canvas of `setImageDimensions`: per axis, image size × well count × site count. */
  function Canvas(imageDimensions: Pos, wellDimensions: Pos, siteDimensions: Pos): Pos
  {
    Pos(imageDimensions.x * wellDimensions.x * siteDimensions.x,
        imageDimensions.y * wellDimensions.y * siteDimensions.y)
  }

  /** q * k + r stays below n * k when q < n and r < k. */
  lemma DigitsBelow(q: int, r: int, k: int, n: int)
    requires 0 <= q < n && 0 <= r < k
    ensures 0 <= q * k + r < n * k
  {
    MulMonotone(q + 1, n, k);
    MulMonotone(0, q, k);
  }

  /** The tile of a cell c < n, t pixels wide, ends before n * t. */
  lemma TileBelow(c: int, n: int, t: int)
    requires 0 <= c < n && t > 0
    ensures 0 <= c * t && c * t + t - 1 < n * t
  {
    MulMonotone(c + 1, n, t);
    MulMonotone(0, c, t);
  }

  /** A well number below cols × rows has its row w / cols below rows. */
  lemma RowBelow(w: int, cols: int, rows: int)
    requires cols > 0 && 0 <= w < cols * rows
    ensures 0 <= w / cols < rows
  {
    if w / cols >= rows {
      MulMonotone(rows, w / cols, cols);
      assert false;
    }
  }

  /** On one axis, the tile of cell q * k + r (q < n, r < k) lies inside t * n * k pixels. */
  lemma AxisInside(q: int, r: int, k: int, n: int, t: int)
    requires 0 <= q < n && 0 <= r < k && t > 0
    ensures 0 <= (q * k + r) * t && (q * k + r) * t + t - 1 < t * n * k
  {
    DigitsBelow(q, r, k, n);
    TileBelow(q * k + r, n * k, t);
    assert (n * k) * t == t * n * k;
  }

  /** Every indexed file whose well number is below the plate's well count and whose
      site number is below the square site count gets a tile inside the canvas. */
  lemma CanvasCoversIndexedTiles(g: IndexedGroups, wellDimensions: Pos, siteSide: int, tile: Pos)
    requires wellDimensions.x > 0 && wellDimensions.y > 0 && siteSide > 0 && tile.x > 0 && tile.y > 0
    requires g.well < wellDimensions.x * wellDimensions.y && g.site < siteSide * siteSide
    ensures 0 <= TileInterval(IndexedCell(g, wellDimensions.x, siteSide), tile).lo.x
    ensures 0 <= TileInterval(IndexedCell(g, wellDimensions.x, siteSide), tile).lo.y
    ensures TileInterval(IndexedCell(g, wellDimensions.x, siteSide), tile).hi.x < Canvas(tile, wellDimensions, Pos(siteSide, siteSide)).x
    ensures TileInterval(IndexedCell(g, wellDimensions.x, siteSide), tile).hi.y < Canvas(tile, wellDimensions, Pos(siteSide, siteSide)).y
  {
    var cols, rows, k := wellDimensions.x, wellDimensions.y, siteSide;
    IndexedCellValue(g, cols, k);
    RowBelow(g.well, cols, rows);
    SiteRowWithinSide(g.site, k);
    AxisInside(g.well % cols, g.site % k, k, cols, tile.x);
    AxisInside(g.well / cols, g.site / k, k, rows, tile.y);
  }

  /** Every A01 well inside the plate's well grid gets a tile inside the canvas, whatever
      the site grid (of at least one site per axis). */
  lemma CanvasCoversA01Tiles(t: WellToken, wellDimensions: Pos, siteDimensions: Pos, tile: Pos)
    requires IsCapital(t.letter) && 1 <= WellNumber(t) <= wellDimensions.x && AlphabetIndex(t.letter) < wellDimensions.y
    requires siteDimensions.x >= 1 && siteDimensions.y >= 1 && tile.x > 0 && tile.y > 0
    ensures 0 <= TileInterval(WellPositionFromA01(t), tile).lo.x
    ensures 0 <= TileInterval(WellPositionFromA01(t), tile).lo.y
    ensures TileInterval(WellPositionFromA01(t), tile).hi.x < Canvas(tile, wellDimensions, siteDimensions).x
    ensures TileInterval(WellPositionFromA01(t), tile).hi.y < Canvas(tile, wellDimensions, siteDimensions).y
  {
    var p := WellPositionFromA01(t);
    TileBelow(p.x, wellDimensions.x, tile.x);
    TileBelow(p.y, wellDimensions.y, tile.y);
    assert tile.x * wellDimensions.x == wellDimensions.x * tile.x;
    assert tile.y * wellDimensions.y == wellDimensions.y * tile.y;
    MulMonotone(1, siteDimensions.x, tile.x * wellDimensions.x);
    MulMonotone(1, siteDimensions.y, tile.y * wellDimensions.y);
  }

  class MultiPositionImagesSource {
    var numSites: int
    var numWells: int
    const siteDimensions: Pos
    const wellDimensions: Pos
    const maxWellDimensionsInData: array<int>
    const maxSiteDimensionsInData: array<int>
    var dimensions: Pos
    var imageDimensions: Pos
    var bitDepth: int
    const files: seq<string>
    const fileNamePattern: string

    predicate Valid()
      reads this
    {
      maxWellDimensionsInData.Length == 2 && maxSiteDimensionsInData.Length == 2 &&
      maxWellDimensionsInData != maxSiteDimensionsInData
    }

    /** Reads bit depth and size from the first image, sizes the canvas, and starts both
        trackers at (0, 0). */
    constructor (files: seq<string>, fileNamePattern: string, wellDimensions: Pos, siteDimensions: Pos, firstImage: ImageInfo)
      ensures Valid()
      ensures this.files == files && this.fileNamePattern == fileNamePattern
      ensures this.wellDimensions == wellDimensions && this.siteDimensions == siteDimensions
      ensures bitDepth == firstImage.bitDepth
      ensures imageDimensions == Pos(firstImage.width, firstImage.height)
      ensures dimensions == Canvas(imageDimensions, wellDimensions, siteDimensions)
      ensures TrackerValue(maxWellDimensionsInData) == Pos(0, 0) && TrackerValue(maxSiteDimensionsInData) == Pos(0, 0)
      ensures fresh(maxWellDimensionsInData) && fresh(maxSiteDimensionsInData)
    {
      this.files := files;
      this.fileNamePattern := fileNamePattern;
      this.wellDimensions := wellDimensions;
      this.siteDimensions := siteDimensions;
      numSites, numWells := 0, 0;
      bitDepth := firstImage.bitDepth;
      imageDimensions := Pos(firstImage.width, firstImage.height);
      dimensions := Canvas(Pos(firstImage.width, firstImage.height), wellDimensions, siteDimensions);
      var well := new int[2];
      well[0], well[1] := 0, 0;
      var site := new int[2];
      site[0], site[1] := 0, 0;
      maxWellDimensionsInData := well;
      maxSiteDimensionsInData := site;
    }

    /** `setImageDimensions`: the tile size is the image's width and height, and the canvas
        is tile × wells × sites per axis. */
    method SetImageDimensions(image: ImageInfo)
      modifies this`imageDimensions, this`dimensions
      ensures imageDimensions == Pos(image.width, image.height)
      ensures dimensions == Canvas(imageDimensions, wellDimensions, siteDimensions)
    {
      imageDimensions := Pos(image.width, image.height);
      var d := 0;
      var x, y := 0, 0;
      while d < 2
        invariant 0 <= d <= 2
        invariant d >= 1 ==> x == imageDimensions.x * wellDimensions.x * siteDimensions.x
        invariant d >= 2 ==> y == imageDimensions.y * wellDimensions.y * siteDimensions.y
      {
        if d == 0 {
          x := imageDimensions.x * wellDimensions.x * siteDimensions.x;
        } else {
          y := imageDimensions.y * wellDimensions.y * siteDimensions.y;
        }
        d := d + 1;
      }
      dimensions := Pos(x, y);
    }

    /** `updateMaxWellDimensionInData`. */
    method UpdateMaxWellDimensionInData(wellPosition: Pos)
      requires Valid()
      modifies maxWellDimensionsInData
      ensures TrackerValue(maxWellDimensionsInData) == MaxPos(old(TrackerValue(maxWellDimensionsInData)), wellPosition)
    {
      RaiseMax(maxWellDimensionsInData, wellPosition);
    }

    /** `updateMaxSiteDimensionInData`. */
    method UpdateMaxSiteDimensionInData(sitePosition: Pos)
      requires Valid()
      modifies maxSiteDimensionsInData
      ensures TrackerValue(maxSiteDimensionsInData) == MaxPos(old(TrackerValue(maxSiteDimensionsInData)), sitePosition)
    {
      RaiseMax(maxSiteDimensionsInData, sitePosition);
    }

    /** `getCell`: the file's grid cell under `pattern` (null when it does not match, an
        ArithmeticException for a zero column count in the indexed grammar), raising the
        trackers to the well and site offsets of every file it places. */
    method GetCell(m: Matches, pattern: Pattern, numWellColumns: int, numSiteColumns: int) returns (r: Result<Option<Pos>>)
      requires Valid()
      modifies maxWellDimensionsInData, maxSiteDimensionsInData
      ensures r == CellOf(m, pattern, numWellColumns, numSiteColumns)
      ensures r.Ok? && r.value.Some? ==>
        var p := GetPlacement(m, pattern, numWellColumns, numSiteColumns).value.value;
        TrackerValue(maxWellDimensionsInData) == MaxPos(old(TrackerValue(maxWellDimensionsInData)), p.well) &&
        TrackerValue(maxSiteDimensionsInData) == MaxPos(old(TrackerValue(maxSiteDimensionsInData)), p.site)
      ensures !(r.Ok? && r.value.Some?) ==> unchanged(maxWellDimensionsInData) && unchanged(maxSiteDimensionsInData)
    {
      var placement := GetPlacement(m, pattern, numWellColumns, numSiteColumns);
      if placement.Err? {
        return Err(placement.failure);
      }
      if placement.value.None? {
        return Ok(None);
      }
      var p := placement.value.value;
      UpdateMaxWellDimensionInData(p.well);
      UpdateMaxSiteDimensionInData(p.site);
      return Ok(Some(CellPosition(p)));
    }
  }
}
