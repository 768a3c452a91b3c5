# Plate viewer core, modelled in Dafny

This project models the core of the Fiji plate viewer (`fiji-plugin-plateViewer`). The
plugin shows every image of a multi-well microscopy plate as one large canvas. The model
covers the following parts of the plugin:

- **File names to grid cells.** Image file names follow one of two grammars:
  - an "A01" well token such as `B07`;
  - a pair of well and site numbers.

  Each file gets a well position and a site position. These combine into a grid cell, and
  the cell into a pixel interval of the canvas. The two generators and the two image
  sources do this. The model states:
  - how a name is decoded;
  - that distinct wells land in disjoint tiles;
  - that the tiles lie inside the canvas;
  - how the well grid and the site grid are chosen (modules `Naming`, `Layout`,
    `FileListGenerator`, `SourcesGenerator`, `MultiPositionSource`, `ImagesSourceModel`).
- **Site lookup.** `MultiSiteLoader` finds a site's file by name, by index, by an
  interval it intersects or by a point it contains (module `SiteLoader`).
- **Channel display.** A channel takes its display properties from its first image:
  - the LUT colour comes from the image title, with a fallback to the image's own LUT;
  - the pixel type comes from the bit depth;
  - the tile size comes from the image size.

  See module `ChannelImage`.
- **Tables.** The site tables are `LinkedHashMap`s from column name to column.
  - They are read from CSV or HDF5.
  - The HDF5 reader reshapes a flat row-major cell array into columns.
  - A site-name column is found or created.
  - One row object is built per site. Its cells read and write the shared table, or
    defer to the assay-metadata repository.

  See modules `ColumnTables`, `Tables` and `TableRow`.
- **Cell features.** The batch-lib HDF5 feature provider lists the leaf table groups of
  a site file. It finds a site's file by name, caches the tables it reads, and looks up a
  cell's feature by its label id (module `FeatureProvider`).

Shared modules:

- `Outcomes`: `Option`, `Result`, and a `Failure` per Java exception the core throws.
- `Geometry`: positions, inclusive boxes, Java's truncating `/` and `%`, and per-axis
  maximum trackers held in two-element arrays.
- `Text`: lower-casing, substrings, suffixes and character replacement.
- `Images`: pixel types.

Modelling choices:

- Objects whose fields the source updates are classes with `modifies` clauses. The pure
  computations they rely on are functions with lemmas.
- A Java exception is an `Err` result, or a `Some(failure)` returned by a method.
- Code duplicated in the source is modelled once, and its row names both places. For
  example, `getNumSites`, `getNumWells`, `putCellToMaps`, `getPattern` and `getCell`
  appear in both `ImagesSource` and `MultiPositionImagesSource`.

## Model

| member | source | states |
|---|---|---|
| Naming.GetPattern | src/main/java/de/embl/cba/multipositionviewer/MultiPositionImagesSource.java:265-273 | the A01 grammar wins when it matches, the indexed grammar only when A01 does not, NO_MATCH exactly when neither matches; `ImagesSource.getPattern` (ImagesSource.java:281-289) has the same shape but tries PATTERN_MD_A01_CHANNEL where this one tries PATTERN_A01, and the model's A01 capture stands for whichever A01 grammar the class uses |
| Naming.GetPatternMatches | src/main/java/de/embl/cba/multipositionviewer/MultiPositionImagesSource.java:265-273 | the reported grammar matches the file exactly when it is not NO_MATCH |
| Naming.WellPositionFromA01 | src/main/java/de/embl/cba/multipositionviewer/ImageSourcesGeneratorMDSingleSite.java:133-139 | a capital letter gives a row in 0..25; the column is the two-digit number minus one, in -1..98 |
| Naming.A01PositionRoundTrip | src/main/java/de/embl/cba/multipositionviewer/ImageSourcesGeneratorMDSingleSite.java:133-139 | every well token with a capital letter is recovered from its position, so distinct wells get distinct positions |
| Naming.A01Examples | src/main/java/de/embl/cba/multipositionviewer/ImageSourcesGeneratorMDSingleSite.java:133-139 | A01 is (0,0), B01 is (0,1), H12 is (11,7) |
| Naming.GetPlacement | src/main/java/de/embl/cba/multipositionviewer/MultiPositionImagesSource.java:276-322 | no placement exactly when the file does not match the grammar; an ArithmeticException exactly for an indexed file under a zero column count; an A01 file is placed at its well position with site (0,0); an indexed file's cell is the indexed decomposition: well offsets (well % cols, well / cols) scaled by the site columns plus site offsets (site % siteCols, site / siteCols), in Java division |
| Naming.CellOf | src/main/java/de/embl/cba/multipositionviewer/ImagesSource.java:292-349 | `getCell` with `computeCellPosition`: the same error and no-match cases, and the cell is well offset plus site offset |
| Naming.CellIdentifiesFile | src/main/java/de/embl/cba/multipositionviewer/MultiPositionImagesSource.java:276-333 | the returned cell gives back the A01 well token, or the indexed well and site numbers when the site is below the square of the site side |
| Naming.IndexedCellValue | src/main/java/de/embl/cba/multipositionviewer/MultiPositionImagesSource.java:297-305 | for non-negative numbers and positive column counts, Java's division in the decomposition agrees with Euclidean division |
| Naming.DecodeComposedCell | src/main/java/de/embl/cba/multipositionviewer/MultiPositionImagesSource.java:324-333 | a cell composed of well and site digits decodes back to those digits |
| Naming.IndexedCellRoundTrip | src/main/java/de/embl/cba/multipositionviewer/MultiPositionImagesSource.java:276-333 | an indexed file's cell is non-negative and decodes back to its well and site numbers |
| Naming.SiteRowWithinSide | src/main/java/de/embl/cba/multipositionviewer/MultiPositionImagesSource.java:304-305 | a site number below k squared has its row below k |
| Naming.IndexedCellsDistinct | src/main/java/de/embl/cba/multipositionviewer/MultiPositionImagesSource.java:276-333 | distinct (well, site) pairs land in distinct cells |
| Naming.IndexedIntervalsDisjoint | src/main/java/de/embl/cba/multipositionviewer/ImageFileListGeneratorMDSingleSite.java:168-219 | distinct indexed files get disjoint pixel intervals |
| Naming.A01IntervalsDisjoint | src/main/java/de/embl/cba/multipositionviewer/ImageSourcesGeneratorMDSingleSite.java:109-139 | distinct A01 wells get disjoint pixel intervals |
| Layout.FirstFitIndex | src/main/java/de/embl/cba/multipositionviewer/ImageFileListGeneratorMDSingleSite.java:61-90 | the first plate format whose capacity holds the wells; every earlier one is too small |
| Layout.WellGridTable | src/main/java/de/embl/cba/multipositionviewer/ImageFileListGeneratorMDSingleSite.java:61-90 | up to 24 wells give 6x4, up to 96 give 12x8, up to 384 give 24x16, more give 0x0; the grid holds every well count up to 384 |
| Layout.CeilSqrt | src/main/java/de/embl/cba/multipositionviewer/ImageFileListGeneratorMDSingleSite.java:92-106 | the least k with n <= k*k, the integer value of `ceil(sqrt(n))` |
| Layout.SiteGrid | src/main/java/de/embl/cba/multipositionviewer/ImageFileListGeneratorMDSingleSite.java:92-106 | a square grid of side at least 1 that holds every site and has no spare row |
| Layout.SiteGridExamples | src/main/java/de/embl/cba/multipositionviewer/ImageFileListGeneratorMDSingleSite.java:92-106 | 1 site gives 1x1, 4 give 2x2, 5 and 9 give 3x3 |
| Layout.SideOfSquare | src/main/java/de/embl/cba/multipositionviewer/ImageFileListGeneratorMDSingleSite.java:92-106 | the ceiling square root is the only k between its two bounds |
| Layout.SiteTokensMembership | src/main/java/de/embl/cba/multipositionviewer/MultiPositionImagesSource.java:172-200 | a site token is collected exactly when some indexed-grammar file carries it |
| Layout.GetNumSites | src/main/java/de/embl/cba/multipositionviewer/MultiPositionImagesSource.java:172-200 | the number of distinct site tokens of the indexed files, at least 1, and 1 when no file is indexed (the same loop at ImagesSource.java:188-216, over that class's own `getPattern`) |
| Layout.MaxWellNumberBounds | src/main/java/de/embl/cba/multipositionviewer/MultiPositionImagesSource.java:202-239 | the largest indexed well number bounds every indexed file's well number and is one of them, or 0 |
| Layout.WellKeysMembership | src/main/java/de/embl/cba/multipositionviewer/MultiPositionImagesSource.java:202-239 | a well key is collected exactly when some matched file carries it |
| Layout.GetNumWells | src/main/java/de/embl/cba/multipositionviewer/MultiPositionImagesSource.java:202-239 | the larger of the distinct well count and the largest indexed well number, so at least each (the same loop at ImagesSource.java:218-255, over that class's own `getPattern`) |
| Layout.GetMaximalWellPositionsInData | src/main/java/de/embl/cba/multipositionviewer/ImageFileListGeneratorMDSingleSite.java:138-165 | IllegalStateException exactly when some name does not match; otherwise the per-axis maximum of the well positions from (0,0) (same code at ImageSourcesGeneratorMDSingleSite.java:83-106) |
| Layout.MaximalWellPositionBounds | src/main/java/de/embl/cba/multipositionviewer/ImageFileListGeneratorMDSingleSite.java:138-165 | the maximal position bounds every file's well position and is non-negative |
| Layout.CellFileMaps.constructor | src/main/java/de/embl/cba/multipositionviewer/MultiPositionImagesSource.java:241-263 | the list of cell-to-file maps starts empty |
| Layout.FirstFree | src/main/java/de/embl/cba/multipositionviewer/MultiPositionImagesSource.java:241-263 | the first map lacking the cell; all earlier maps hold it |
| Layout.PutCell | src/main/java/de/embl/cba/multipositionviewer/MultiPositionImagesSource.java:241-263 | the file goes into the first map without the cell, or into a new map appended last; every other map and every earlier entry is kept |
| Layout.PutCellCounts | src/main/java/de/embl/cba/multipositionviewer/MultiPositionImagesSource.java:241-263 | each put adds exactly one holder for the cell and leaves every other cell's count unchanged |
| Layout.PutCellToMaps | src/main/java/de/embl/cba/multipositionviewer/MultiPositionImagesSource.java:241-263 | the caller's list of maps is updated in place to `PutCell` of the old list (same code at ImagesSource.java:257-279) |
| Geometry.Union | src/main/java/de/embl/cba/multipositionviewer/ImagesSource.java:65-84 | the union box contains both boxes and its upper corner is the per-axis maximum |
| Geometry.JavaDivision | src/main/java/de/embl/cba/multipositionviewer/MultiPositionImagesSource.java:300-305 | Java's truncating quotient and remainder recompose the dividend, the remainder is smaller than the divisor and takes the dividend's sign, and for non-negative operands they are Dafny's |
| Geometry.TileInterval | src/main/java/de/embl/cba/multipositionviewer/ImageFileListGeneratorMDSingleSite.java:168-219 | the interval starts at cell times tile size and is exactly one tile wide on each axis |
| Geometry.TileIntervalMembership | src/main/java/de/embl/cba/multipositionviewer/ImageFileListGeneratorMDSingleSite.java:208-219 | a pixel lies in a cell's tile exactly when the pixel divided by the tile size is that cell |
| Geometry.TileIntervalsDisjoint | src/main/java/de/embl/cba/multipositionviewer/ImageFileListGeneratorMDSingleSite.java:208-219 | distinct cells have disjoint tiles |
| Geometry.TrackBounds | src/main/java/de/embl/cba/multipositionviewer/ImageFileListGeneratorMDSingleSite.java:221-241 | the tracked maximum bounds the start and every position, and is attained on each axis |
| Geometry.TrackSnoc | src/main/java/de/embl/cba/multipositionviewer/ImageFileListGeneratorMDSingleSite.java:221-241 | tracking one more position raises the maximum to include it |
| Geometry.RaiseMaxLaws | src/main/java/de/embl/cba/multipositionviewer/MultiPositionImagesSource.java:335-355 | raising the maximum twice with the same position is raising it once, and never lowers it |
| Geometry.RaiseMax | src/main/java/de/embl/cba/multipositionviewer/MultiPositionImagesSource.java:335-355 | the two-element tracker array becomes the per-axis maximum of its old value and the position |
| Images.CachedCellImgType | src/main/java/de/embl/cba/multipositionviewer/MultiPositionImagesSource.java:132-170 | 8 bits give unsigned bytes, 16 and 32 bits unsigned shorts (the 32-bit case builds an unsigned short image), anything else no image; never float |
| FileListGenerator.NameTokens | src/main/java/de/embl/cba/multipositionviewer/ImageFileListGeneratorMDSingleSite.java:138-165 | the well token of each file name, file by file |
| FileListGenerator.FileMatches | src/main/java/de/embl/cba/multipositionviewer/ImageFileListGeneratorMDSingleSite.java:108-136 | the grammar matches of each file, file by file |
| FileListGenerator.GetNumSitesUnder | src/main/java/de/embl/cba/multipositionviewer/ImageFileListGeneratorMDSingleSite.java:108-136 | under the indexed scheme the number of distinct sites, otherwise 1; always at least 1 |
| FileListGenerator.Entries | src/main/java/de/embl/cba/multipositionviewer/ImageFileListGeneratorMDSingleSite.java:43-59 | one entry per file in order, carrying the file's path and, for a matched path, the tile of its cell |
| FileListGenerator.WellOffsets | src/main/java/de/embl/cba/multipositionviewer/ImageFileListGeneratorMDSingleSite.java:168-206 | the well offsets of the placements, in order |
| FileListGenerator.SiteOffsets | src/main/java/de/embl/cba/multipositionviewer/ImageFileListGeneratorMDSingleSite.java:168-206 | the site offsets of the placements, in order |
| FileListGenerator.ListIntervalsDisjoint | src/main/java/de/embl/cba/multipositionviewer/ImageFileListGeneratorMDSingleSite.java:168-219 | two listed files with distinct (well, site) numbers get disjoint intervals |
| FileListGenerator.TrackersBoundPlacements | src/main/java/de/embl/cba/multipositionviewer/ImageFileListGeneratorMDSingleSite.java:221-241 | the trackers bound every placement's well and site offsets |
| FileListGenerator.EntriesSnoc | src/main/java/de/embl/cba/multipositionviewer/ImageFileListGeneratorMDSingleSite.java:43-59 | the entries of one more file are the old entries plus that file's entry |
| FileListGenerator.TrackMatchedSnoc | src/main/java/de/embl/cba/multipositionviewer/ImageFileListGeneratorMDSingleSite.java:168-206 | one more matched file raises the trackers by its offsets; an unmatched one leaves them |
| FileListGenerator.ImageFileListGenerator.constructor | src/main/java/de/embl/cba/multipositionviewer/ImageFileListGeneratorMDSingleSite.java:25-36 | stores files and tile size over fresh trackers, then runs `createList`: a file whose name does not match leaves the list empty and records IllegalStateException; otherwise the grids are configured, and on completion the list is one entry per file and the trackers hold the maxima of the placed offsets |
| FileListGenerator.ImageFileListGenerator.ConfigWells | src/main/java/de/embl/cba/multipositionviewer/ImageFileListGeneratorMDSingleSite.java:61-90 | IllegalStateException exactly when a name does not match; otherwise the well grid of the `numWells` field; nothing else changes |
| FileListGenerator.ImageFileListGenerator.ConfigSites | src/main/java/de/embl/cba/multipositionviewer/ImageFileListGeneratorMDSingleSite.java:92-106 | the site count and square site grid of the naming scheme, which for the A01 scheme is 1 site in a 1x1 grid |
| FileListGenerator.ImageFileListGenerator.UpdateMaxWellDimensionInData | src/main/java/de/embl/cba/multipositionviewer/ImageFileListGeneratorMDSingleSite.java:221-230 | the well tracker becomes the per-axis maximum of itself and the position |
| FileListGenerator.ImageFileListGenerator.UpdateMaxSiteDimensionInData | src/main/java/de/embl/cba/multipositionviewer/ImageFileListGeneratorMDSingleSite.java:232-241 | the site tracker becomes the per-axis maximum of itself and the position |
| FileListGenerator.ImageFileListGenerator.GetInterval | src/main/java/de/embl/cba/multipositionviewer/ImageFileListGeneratorMDSingleSite.java:168-219 | no interval for an unmatched path; ArithmeticException exactly under a zero column count; otherwise the tile of the placed cell, with both trackers raised |
| FileListGenerator.ImageFileListGenerator.CreateList | src/main/java/de/embl/cba/multipositionviewer/ImageFileListGeneratorMDSingleSite.java:43-59 | an unmatched name fails before anything is listed; otherwise wells and sites are configured and, unless the grid is 0 wide, every file's entry is appended in order with the trackers at the maximal offsets |
| FileListGenerator.ImageFileListGenerator.AppendEntries | src/main/java/de/embl/cba/multipositionviewer/ImageFileListGeneratorMDSingleSite.java:49-58 | the loop appends exactly `Entries` and raises the trackers to the maximal offsets, or fails with ArithmeticException |
| MultiPositionSource.CanvasCoversIndexedTiles | src/main/java/de/embl/cba/multipositionviewer/MultiPositionImagesSource.java:118-130 | every indexed file whose numbers fit the grids has its tile inside the canvas |
| MultiPositionSource.CanvasCoversA01Tiles | src/main/java/de/embl/cba/multipositionviewer/MultiPositionImagesSource.java:118-130 | every A01 well inside the well grid has its tile inside the canvas |
| MultiPositionSource.MultiPositionImagesSource.constructor | src/main/java/de/embl/cba/multipositionviewer/MultiPositionImagesSource.java:37-49 | bit depth and tile size come from the first image, the canvas is tile times wells times sites, and the trackers start at zero |
| MultiPositionSource.MultiPositionImagesSource.SetImageDimensions | src/main/java/de/embl/cba/multipositionviewer/MultiPositionImagesSource.java:118-130 | the tile is the image size and the canvas is recomputed from it |
| MultiPositionSource.MultiPositionImagesSource.UpdateMaxWellDimensionInData | src/main/java/de/embl/cba/multipositionviewer/MultiPositionImagesSource.java:335-344 | the well tracker becomes the per-axis maximum of itself and the position |
| MultiPositionSource.MultiPositionImagesSource.UpdateMaxSiteDimensionInData | src/main/java/de/embl/cba/multipositionviewer/MultiPositionImagesSource.java:346-355 | the site tracker becomes the per-axis maximum of itself and the position |
| MultiPositionSource.MultiPositionImagesSource.GetCell | src/main/java/de/embl/cba/multipositionviewer/MultiPositionImagesSource.java:276-333 | returns `CellOf`; a placed file raises both trackers to include its offsets, any other result leaves them |
| ImagesSourceModel.UnionOfBounds | src/main/java/de/embl/cba/multipositionviewer/ImagesSource.java:65-84 | the folded union contains every interval and its upper corner is attained by the start or some interval |
| ImagesSourceModel.Present | src/main/java/de/embl/cba/multipositionviewer/ImagesSource.java:65-84 | the intervals of the list, all present, in order |
| ImagesSourceModel.CanvasIsLargestMaximum | src/main/java/de/embl/cba/multipositionviewer/ImagesSource.java:65-84 | the canvas size is the largest upper corner among the intervals, on each axis |
| ImagesSourceModel.ImagesSource.constructor | src/main/java/de/embl/cba/multipositionviewer/ImagesSource.java:39-53 | stores files and pattern, names the source after the pattern, and takes bit depth and tile size from the first image |
| ImagesSourceModel.ImagesSource.SetName | src/main/java/de/embl/cba/multipositionviewer/ImagesSource.java:55-63 | `getName` returns what `setName` stored |
| ImagesSourceModel.ImagesSource.SetCachedCellImgDimensions | src/main/java/de/embl/cba/multipositionviewer/ImagesSource.java:65-84 | an empty list throws IndexOutOfBounds and an unplaced file NullPointer, leaving the size; otherwise the canvas is the upper corner of the union of all intervals |
| ImagesSourceModel.ImagesSource.CreateCachedCellImg | src/main/java/de/embl/cba/multipositionviewer/ImagesSource.java:147-184 | the cached image's pixel type is the one chosen by bit depth |
| SourcesGenerator.IntervalFor | src/main/java/de/embl/cba/multipositionviewer/ImageSourcesGeneratorMDSingleSite.java:109-131 | no interval exactly for a path without a well token; otherwise the well position with site (1,1) and the configured sizes |
| SourcesGenerator.IntervalIdentifiesWell | src/main/java/de/embl/cba/multipositionviewer/ImageSourcesGeneratorMDSingleSite.java:109-139 | the requested well position gives back the path's well token |
| SourcesGenerator.Sources | src/main/java/de/embl/cba/multipositionviewer/ImageSourcesGeneratorMDSingleSite.java:43-59 | one source per file in order, with the file, its name, and an interval exactly when the path has a well token |
| SourcesGenerator.SourceNameTokens | src/main/java/de/embl/cba/multipositionviewer/ImageSourcesGeneratorMDSingleSite.java:83-106 | the well token of each file name, in order |
| SourcesGenerator.ImageSourcesGenerator.constructor | src/main/java/de/embl/cba/multipositionviewer/ImageSourcesGeneratorMDSingleSite.java:25-36 | stores files and tile size over zero trackers, then runs `createImageFileList`: IllegalStateException exactly when some name does not match, leaving nothing configured; otherwise one site on a 1x1 grid, the guessed well grid and one source per file |
| SourcesGenerator.ImageSourcesGenerator.ConfigWells | src/main/java/de/embl/cba/multipositionviewer/ImageSourcesGeneratorMDSingleSite.java:61-70 | IllegalStateException exactly when a name does not match; otherwise the grid guessed from the maximal well position |
| SourcesGenerator.ImageSourcesGenerator.ConfigSites | src/main/java/de/embl/cba/multipositionviewer/ImageSourcesGeneratorMDSingleSite.java:72-81 | one site in a 1x1 grid |
| SourcesGenerator.ImageSourcesGenerator.CreateImageFileList | src/main/java/de/embl/cba/multipositionviewer/ImageSourcesGeneratorMDSingleSite.java:43-59 | an unmatched name fails with the list unchanged; otherwise wells and sites are configured and `Sources` is appended |
| SourcesGenerator.ImageSourcesGenerator.UpdateMaxWellDimensionInData | src/main/java/de/embl/cba/multipositionviewer/ImageSourcesGeneratorMDSingleSite.java:141-150 | the well tracker becomes the per-axis maximum of itself and the position |
| SourcesGenerator.ImageSourcesGenerator.UpdateMaxSiteDimensionInData | src/main/java/de/embl/cba/multipositionviewer/ImageSourcesGeneratorMDSingleSite.java:152-161 | the site tracker becomes the per-axis maximum of itself and the position |
| SiteLoader.ByName | src/main/java/de/embl/cba/plateviewer/image/cellloader/MultiSiteLoader.java:21-28 | found exactly when some file has the name, and then the first such file; otherwise UnsupportedOperationException "Could not find image " + name |
| SiteLoader.ByIndex | src/main/java/de/embl/cba/plateviewer/image/cellloader/MultiSiteLoader.java:30-33 | the file at the index exactly when it is in range, otherwise IndexOutOfBounds |
| SiteLoader.ByInterval | src/main/java/de/embl/cba/plateviewer/image/cellloader/MultiSiteLoader.java:41-54 | null exactly when no file's interval intersects the cell, otherwise the first that does |
| SiteLoader.ByPoint | src/main/java/de/embl/cba/plateviewer/image/cellloader/MultiSiteLoader.java:56-80 | null exactly when no file's interval contains the point, otherwise the first that does |
| SiteLoader.ByPointFindsOwner | src/main/java/de/embl/cba/plateviewer/image/cellloader/MultiSiteLoader.java:56-80 | with disjoint intervals, a point is answered by the one file that contains it |
| SiteLoader.ByIntervalFindsOwnTile | src/main/java/de/embl/cba/plateviewer/image/cellloader/MultiSiteLoader.java:41-54 | with disjoint intervals, a file's own non-empty interval is answered by that file |
| ChannelImage.RuleColorsAreOpaqueBytes | src/main/java/de/embl/cba/plateviewer/image/channel/MultiWellImagePlusImg.java:66-89 | every title rule's colour is opaque with byte channels |
| ChannelImage.FirstRule | src/main/java/de/embl/cba/plateviewer/image/channel/MultiWellImagePlusImg.java:66-89 | the first rule whose key the title contains; no earlier key is contained |
| ChannelImage.FallbackColorAsWritten | src/main/java/de/embl/cba/plateviewer/image/channel/MultiWellImagePlusImg.java:96-104 | as written: all three channels are the LUT's top red value, opaque |
| ChannelImage.FallbackColor | src/main/java/de/embl/cba/plateviewer/image/channel/MultiWellImagePlusImg.java:96-104 | as intended: opaque, and a byte colour for a byte-valued LUT entry |
| ChannelImage.FallbackAsWrittenLosesHue | src/main/java/de/embl/cba/plateviewer/image/channel/MultiWellImagePlusImg.java:99-101 | a pure green LUT displays black as written and green as intended |
| ChannelImage.FallbackKeepsLutColor | src/main/java/de/embl/cba/plateviewer/image/channel/MultiWellImagePlusImg.java:96-104 | the intended fallback reproduces the LUT's top colour; the as-written one agrees with it exactly for a grey |
| ChannelImage.LutColor | src/main/java/de/embl/cba/plateviewer/image/channel/MultiWellImagePlusImg.java:62-111 | as written: always opaque, and a byte colour unless the first LUT holds out-of-range values |
| ChannelImage.LutColorFollowsRules | src/main/java/de/embl/cba/plateviewer/image/channel/MultiWellImagePlusImg.java:62-111 | the source's colour is the colour of the first rule the lower-cased title matches; without a matching rule it is the grey of the first LUT's top red value, or white without LUTs |
| ChannelImage.IntendedLutColor | src/main/java/de/embl/cba/plateviewer/image/channel/MultiWellImagePlusImg.java:62-111 | as intended: the same rule colours, and an unmatched title takes the red, green and blue of the first LUT's top entry |
| ChannelImage.LutColorAsIntendedUnlessHued | src/main/java/de/embl/cba/plateviewer/image/channel/MultiWellImagePlusImg.java:90-104 | the source's colour equals the intended one exactly when a rule decides, there is no LUT, or the LUT's top colour is a grey |
| ChannelImage.UnmatchedTitleFallsBack | src/main/java/de/embl/cba/plateviewer/image/channel/MultiWellImagePlusImg.java:90-110 | a title matching no rule takes, as written, a grey of the first LUT's top red value, or white without LUTs |
| ChannelImage.LutColorIgnoresCase | src/main/java/de/embl/cba/plateviewer/image/channel/MultiWellImagePlusImg.java:64 | the colour does not depend on the title's letter case |
| ChannelImage.GfpIsGreen | src/main/java/de/embl/cba/plateviewer/image/channel/MultiWellImagePlusImg.java:66-67 | a title containing "gfp" is green, whatever else it contains |
| ChannelImage.Alexa488ContainsA488 | src/main/java/de/embl/cba/plateviewer/image/channel/MultiWellImagePlusImg.java:80-83 | every title containing "alexa488" contains "a488" |
| ChannelImage.Alexa488RuleNeverDecides | src/main/java/de/embl/cba/plateviewer/image/channel/MultiWellImagePlusImg.java:80-83 | the "alexa488" rule is never the deciding one, because "a488" is tested first |
| ChannelImage.NativeTypeFor | src/main/java/de/embl/cba/plateviewer/image/channel/MultiWellImagePlusImg.java:120-141 | unsigned byte exactly for 8 bits, unsigned short exactly for 16 and 24, float exactly for 32 |
| ChannelImage.PixelTypesAgreeOnlyOnIntegerDepths | src/main/java/de/embl/cba/plateviewer/image/channel/MultiWellImagePlusImg.java:120-141 | the channel and the multi-position image agree on 8 and 16 bits and disagree on 24 and 32 |
| ChannelImage.MultiWellImagePlusImg.constructor | src/main/java/de/embl/cba/plateviewer/image/channel/MultiWellImagePlusImg.java:23-51 | colour, pixel type and tile size come from the first image, and the channel is initially visible |
| ChannelImage.MultiWellImagePlusImg.SetLutColor | src/main/java/de/embl/cba/plateviewer/image/channel/MultiWellImagePlusImg.java:62-111 | the colour becomes `LutColor` of the image, the source's colour as written |
| ChannelImage.MultiWellImagePlusImg.SetLut | src/main/java/de/embl/cba/plateviewer/image/channel/MultiWellImagePlusImg.java:53-60 | the colour is set and the channel becomes initially visible |
| ChannelImage.MultiWellImagePlusImg.SetImageDataType | src/main/java/de/embl/cba/plateviewer/image/channel/MultiWellImagePlusImg.java:120-141 | the pixel type becomes the one chosen by the bit depth |
| ChannelImage.MultiWellImagePlusImg.SetImageDimensions | src/main/java/de/embl/cba/plateviewer/image/channel/MultiWellImagePlusImg.java:143-148 | the tile is the image's width by its height |
| Text.LowerCase | src/main/java/de/embl/cba/plateviewer/image/channel/MultiWellImagePlusImg.java:64 | each character lower-cased, same length |
| Text.LowerCaseIdempotent | src/main/java/de/embl/cba/plateviewer/image/channel/MultiWellImagePlusImg.java:64 | lower-casing twice is lower-casing once |
| Text.ReplaceChar | src/main/java/de/embl/cba/plateviewer/table/BatchLibHdf5CellFeatureProvider.java:81-92 | every occurrence of the character replaced, every other character kept |
| Text.ReplaceCharIdempotent | src/main/java/de/embl/cba/plateviewer/table/BatchLibHdf5CellFeatureProvider.java:81-92 | after replacement the character is gone, so replacing again changes nothing |
| ColumnTables.PutColumn | src/main/java/de/embl/cba/plateviewer/table/Tables.java:82-109 | `LinkedHashMap.put`: the column is stored under the name, other columns are kept, old names keep their order and a new name goes last |
| ColumnTables.FirstColumnSize | src/main/java/de/embl/cba/plateviewer/table/Tables.java:15-44 | the size of the first column in order; none exactly for an empty table |
| ColumnTables.ColumnTable.constructor | src/main/java/de/embl/cba/plateviewer/table/Tables.java:46-80 | the shared table starts with the given columns |
| ColumnTables.ColumnTable.Put | src/main/java/de/embl/cba/plateviewer/table/Tables.java:82-109 | the shared table becomes `PutColumn` of its old value |
| Tables.IntervalOf | src/main/java/de/embl/cba/plateviewer/table/Tables.java:15-44 | an interval exactly when the map is given and has the site, and then its entry |
| Tables.CreateSiteNameTableRowsFromColumns | src/main/java/de/embl/cba/plateviewer/table/Tables.java:15-44 | NoSuchElementException for an empty table, NullPointer for a missing site-name column, IndexOutOfBounds for a short one; success exactly when the table has a column and either no rows or a site-name column at least as long as the first column; then one row per entry of the first column, with that row's site name, interval, outlier column and index; the result is `SiteNameRows` |
| Tables.SiteNameRows | src/main/java/de/embl/cba/plateviewer/table/Tables.java:15-44 | the rows or the exception: success exactly under the condition above, then row i named by entry i of the site-name column and placed by its interval; every failure is one of NoSuchElement, NullPointer, IndexOutOfBounds |
| Tables.SiteNameColumn | src/main/java/de/embl/cba/plateviewer/table/Tables.java:94-104 | one site name per row, made from the row's image name plus ".h5" |
| Tables.EnsureSiteNameColumn | src/main/java/de/embl/cba/plateviewer/table/Tables.java:82-109 | "site_name" is used when present, then "site-name"; otherwise a "site_name" column built from the image column is added; a table without columns or image column fails and is unchanged; the outcome is `WithSiteNameColumn` of the table |
| Tables.WithSiteNameColumn | src/main/java/de/embl/cba/plateviewer/table/Tables.java:82-109 | the column settled on is in the resulting table, every earlier column is kept as it was and the first column stays first; a derived column has one site name per row, built from the image column; failure exactly when neither name is present and the table is empty or its image column is missing or short for a non-empty first column |
| Tables.Dedup | src/main/java/de/embl/cba/plateviewer/table/Tables.java:111-147 | the distinct column names, each once |
| Tables.GatherWithinRow | src/main/java/de/embl/cba/plateviewer/table/Tables.java:136-141 | inside one row, a column gathers exactly its own cell |
| Tables.GatherNext | src/main/java/de/embl/cba/plateviewer/table/Tables.java:136-141 | cell c of a row goes to the column named by header c and to no other |
| Tables.ReshapeLength | src/main/java/de/embl/cba/plateviewer/table/Tables.java:131-142 | with distinct names, each column of the complete rows holds one cell per row |
| Tables.ReshapeCell | src/main/java/de/embl/cba/plateviewer/table/Tables.java:131-142 | with distinct names, row r of column c is the flat cell r*n+c |
| Tables.ReshapePlacesCells | src/main/java/de/embl/cba/plateviewer/table/Tables.java:111-147 | with distinct names, column c holds one cell per row, and row r's cell is the flat cell r*n+c |
| Tables.StringColumnsFromHdf5 | src/main/java/de/embl/cba/plateviewer/table/Tables.java:111-147 | ArithmeticException exactly for a table without columns; otherwise the distinct names in order, each column holding its cells of the complete rows; the result is `ColumnsOf` of the datasets |
| Tables.ColumnsOf | src/main/java/de/embl/cba/plateviewer/table/Tables.java:111-147 | the table read from the two datasets: ArithmeticException exactly without column names, otherwise a well-formed table whose names are the distinct header names in order |
| Tables.PutHeaders | src/main/java/de/embl/cba/plateviewer/table/Tables.java:123-129 | every column name gets an empty column, in first-occurrence order |
| Tables.AppendRows | src/main/java/de/embl/cba/plateviewer/table/Tables.java:131-142 | after the given number of rows, every column holds the cells gathered from them |
| Tables.AppendRow | src/main/java/de/embl/cba/plateviewer/table/Tables.java:136-141 | one more row appends each column's cell of that row |
| Tables.TableFormatOf | src/main/java/de/embl/cba/plateviewer/table/Tables.java:46-80 | CSV exactly for ".csv", HDF5 exactly for ".hdf5" or ".h5" otherwise, else UnsupportedOperationException naming the path |
| Tables.CreateSiteTableRowsFromFile | src/main/java/de/embl/cba/plateviewer/table/Tables.java:46-80 | an unsupported extension fails first, then an HDF5 table without columns, then a naming scheme other than Nikon Ti2; past those, a failure of `ensureSiteNameColumn` is the result and otherwise the result is `SiteNameRows` over the table with the ensured column; success means one row per entry of the read table's first column, row i named by entry i of the ensured site-name column |
| Tables.ReadColumns | src/main/java/de/embl/cba/plateviewer/table/Tables.java:51-60 | the CSV reader's columns for CSV; for HDF5 the datasets as columns, failing exactly without column names; a result is well formed |
| FeatureProvider.Key | src/main/java/de/embl/cba/plateviewer/table/BatchLibHdf5CellFeatureProvider.java:122-125 | the cache key is the site name followed by the table group |
| FeatureProvider.KeysDistinguishPairs | src/main/java/de/embl/cba/plateviewer/table/BatchLibHdf5CellFeatureProvider.java:122-125 | for site names without '/' and groups starting with '/', distinct pairs give distinct keys |
| FeatureProvider.KeysCanCollide | src/main/java/de/embl/cba/plateviewer/table/BatchLibHdf5CellFeatureProvider.java:122-125 | without that restriction two pairs share a key: ("a/b", "/t") and ("a", "/b/t") |
| FeatureProvider.LeafGroupsUnderParent | src/main/java/de/embl/cba/plateviewer/table/BatchLibHdf5CellFeatureProvider.java:56-79 | the leaf groups found below a group are at least one, and each path starts with the group's path |
| FeatureProvider.ChildLeavesUnderParent | src/main/java/de/embl/cba/plateviewer/table/BatchLibHdf5CellFeatureProvider.java:56-79 | the leaves found under child groups lie strictly below the parent, and there is one when a child group exists |
| FeatureProvider.SiteFileFor | src/main/java/de/embl/cba/plateviewer/table/BatchLibHdf5CellFeatureProvider.java:81-92 | no file list throws NullPointer; otherwise found exactly when some file name contains the site name with '-' replaced by '_', and then the first such file; else UnsupportedOperationException naming the site |
| FeatureProvider.DashesAndUnderscoresFindSameFile | src/main/java/de/embl/cba/plateviewer/table/BatchLibHdf5CellFeatureProvider.java:81-92 | a site name and its underscore form find the same file |
| FeatureProvider.ScanLabels | src/main/java/de/embl/cba/plateviewer/table/BatchLibHdf5CellFeatureProvider.java:35-45 | the first row whose label is the id, every earlier label being a different number; not found exactly when every label is a different number; a parse failure only when some label is not a number |
| FeatureProvider.FeatureAt | src/main/java/de/embl/cba/plateviewer/table/BatchLibHdf5CellFeatureProvider.java:34-47 | a missing label column throws NullPointer and an unparsable label before the match NumberFormatException; success exactly when the scan finds the label and the feature column reaches that row; the value is the feature at the FIRST row labelled with the id, every earlier label being a different number; no such row gives UnsupportedOperationException naming the feature and the label |
| FeatureProvider.TableFor | src/main/java/de/embl/cba/plateviewer/table/BatchLibHdf5CellFeatureProvider.java:106-120 | the cached table of the pair; otherwise the failure to find the site file, or the table read from that file's absolute path under the group |
| FeatureProvider.CachedTableIsStable | src/main/java/de/embl/cba/plateviewer/table/BatchLibHdf5CellFeatureProvider.java:110-119 | once a pair's table is cached, looking it up again returns the same table whatever the files now hold |
| FeatureProvider.FeatureOfUniqueLabel | src/main/java/de/embl/cba/plateviewer/table/BatchLibHdf5CellFeatureProvider.java:26-48 | when exactly one row carries the id and every label parses, the feature is that row's entry |
| FeatureProvider.BatchLibHdf5CellFeatureProvider.constructor | src/main/java/de/embl/cba/plateviewer/table/BatchLibHdf5CellFeatureProvider.java:17-24 | stores directory and files, starts with an empty cache, and lists the leaf groups below "/tables" of the first site file |
| FeatureProvider.BatchLibHdf5CellFeatureProvider.SetLeafGroups | src/main/java/de/embl/cba/plateviewer/table/BatchLibHdf5CellFeatureProvider.java:56-79 | appends exactly the leaf groups below the group, in order |
| FeatureProvider.BatchLibHdf5CellFeatureProvider.GetColumns | src/main/java/de/embl/cba/plateviewer/table/BatchLibHdf5CellFeatureProvider.java:106-120 | a cached key returns the cached columns; otherwise the table read from the found site file's path (`ColumnsOf`), which is then cached; the result is `TableFor` of the old cache; the cache only grows, and only by this key |
| FeatureProvider.BatchLibHdf5CellFeatureProvider.FetchFeature | src/main/java/de/embl/cba/plateviewer/table/BatchLibHdf5CellFeatureProvider.java:26-48 | without site files it throws UnsupportedOperationException; otherwise a failure to get the table is the result, and else the result is `FeatureAt` of that table (the cached one for a cached pair); the cache only grows |
| FeatureProvider.BatchLibHdf5CellFeatureProvider.GetFeatureNames | src/main/java/de/embl/cba/plateviewer/table/BatchLibHdf5CellFeatureProvider.java:99-104 | the key set of `TableFor` of the old cache, or its failure; for a cached pair the cached table's names |
| TableRow.AddAll | src/main/java/de/embl/cba/plateviewer/table/RepositoryAnnotatedIntervalTableRow.java:66-78 | `LinkedHashSet` insertion: the old names first and unchanged, every name of either list present, distinct names stay distinct |
| TableRow.SetColumnCell | src/main/java/de/embl/cba/plateviewer/table/RepositoryAnnotatedIntervalTableRow.java:52-63 | the column names and their order are unchanged and the table stays well formed |
| TableRow.SetCellReadsBack | src/main/java/de/embl/cba/plateviewer/table/RepositoryAnnotatedIntervalTableRow.java:52-63 | the written cell reads back, every other cell and every column length is unchanged |
| TableRow.RepositoryAnnotatedIntervalTableRow.constructor | src/main/java/de/embl/cba/plateviewer/table/RepositoryAnnotatedIntervalTableRow.java:20-32 | the getters return the name, interval and row index given, over the shared table, with no column names computed yet |
| TableRow.RepositoryAnnotatedIntervalTableRow.GetCell | src/main/java/de/embl/cba/plateviewer/table/RepositoryAnnotatedIntervalTableRow.java:35-49 | an attribute is asked of the repository; a table column gives its entry at this row or IndexOutOfBounds; any other name throws UnsupportedOperationException "Column not present: " + name |
| TableRow.RepositoryAnnotatedIntervalTableRow.SetCell | src/main/java/de/embl/cba/plateviewer/table/RepositoryAnnotatedIntervalTableRow.java:52-63 | writing an attribute changes nothing; a missing column is NullPointer and a short one IndexOutOfBounds, both leaving the table; with the column present and long enough the write succeeds and sets exactly this row's cell of the column |
| TableRow.RepositoryAnnotatedIntervalTableRow.GetColumnNames | src/main/java/de/embl/cba/plateviewer/table/RepositoryAnnotatedIntervalTableRow.java:66-78 | the first call computes the table's names followed by the new attributes and keeps them; later calls return the kept list |
| TableRow.ColumnNamesListEachOnce | src/main/java/de/embl/cba/plateviewer/table/RepositoryAnnotatedIntervalTableRow.java:66-78 | the column names list every table column and every attribute exactly once, table columns first in table order |

## Left out

- Regular-expression matching is not modelled. Each file carries what each grammar
  captured from its name and from its path, as given values.
- The helpers `Utils.createInterval` and `Utils.guessWellDimensions` are not part of this
  model.
  - An interval is the tile of its cell.
  - The sources generator records the guessed grid as a request built from the maximal
    well position.
- `Utils.areIntersecting` is not part of this model. It is taken as inclusive overlap on
  both axes. This is an assumption behind SiteLoader.ByInterval.
- Constants defined outside the core are parameters:
  - the Nikon Ti2 naming scheme;
  - the outlier column name;
  - the repository's attribute names;
  - `Utils.createSiteName`.
- File and image I/O is abstracted:
  - `IJ.openImage` gives the first image's title, LUTs, bit depth and size;
  - the CSV reader gives its columns;
  - the HDF5 reader gives the table's names and cells, or a site file's group tree;
  - `Double.parseDouble` followed by an `int` cast is a label-parsing parameter.
- The assay-metadata repository is not modelled. This covers `isOutlier` and
  `setOutlier`. An attribute cell is returned as the query that would be asked.
- Cell-change listeners, the viewer, user-interface panels, threads and the cached image
  loaders are not modelled. Neither are `getImageFile`, `getImageCenterCoordinates` and
  `SimpleSegmentation`. These are display and I/O.
- Floating-point LUT limits (`lutMinMax`) are not modelled.
- `getDimensions(plateType)` in both image sources is not modelled. Nothing calls it, and
  it returns 12x8 for every plate type.
- MultiPositionSource.MultiPositionImagesSource.constructor: the source never assigns
  the well and site grids it multiplies by, so the model takes them as constructor
  arguments.
- MultiPositionSource.MultiPositionImagesSource.SetImageDimensions: the canvas is the
  product of unbounded integers. The 32-bit `int` product that Java widens to `long` only
  after multiplying is not modelled.
- FileListGenerator.ImageFileListGenerator.GetInterval: the source calls it with three
  arguments where it declares four. The model takes the declared form. It reads the two
  numeric groups of the indexed grammar, because `Integer.parseInt` of an A01 group
  would throw.
- FileListGenerator.ImageFileListGenerator.ConfigWells: the `numWells` field is never
  assigned in the source. The model reads the field as the source does, so without
  another assignment the grid is 6x4.
- ImagesSourceModel.ImagesSource.constructor: it covers only the field set-up. The call
  that builds the cached image is the separate method CreateCachedCellImg.
- FeatureProvider.BatchLibHdf5CellFeatureProvider.constructor: the model does not
  capture the failure when the site file list is null or empty. `siteFiles.get(0)` would
  throw there, but the model takes the first site file's group tree as a parameter.
- Text.LowerCase: only ASCII letters are lower-cased. Java's locale-aware
  `toLowerCase` on other letters is not modelled.
- Layout.GetNumSites: the source picks the grammar by matching the file's absolute path
  and then reads the groups by matching that grammar against the file name alone. The
  model keeps one match per file, so it assumes the name matches exactly when the path
  does and captures the same groups. A file whose path and name disagree is not captured.
- Layout.GetNumWells: the same path-then-name matching, collapsed in the same way.
- ChannelImage.MultiWellImagePlusImg.SetLutColor: the class keeps the colour as written
  (`LutColor`), not the corrected `IntendedLutColor` of the finding below. The same holds
  for ChannelImage.MultiWellImagePlusImg.SetLut and the constructor.
- FileListGenerator.ImageFileListGenerator.constructor: an exception from `createList`
  is recorded in the `creationFailure` field. A Java constructor that throws returns no
  object.
- SourcesGenerator.ImageSourcesGenerator.constructor: an exception from
  `createImageFileList` is recorded in `creationFailure` in the same way.

## Findings

| source | as written | input that shows it | evidently intended | confidence | as-written member | corrected member |
|---|---|---|---|---|---|---|
| src/main/java/de/embl/cba/plateviewer/image/channel/MultiWellImagePlusImg.java:99-101 | the fallback colour reads `getRed` of the LUT's top entry for red, green and blue alike | a title matching no rule, with a first LUT whose top entry is pure green (0, 255, 0): the channel is displayed black (0, 0, 0) | `getGreen` and `getBlue` for the green and blue channels, so the channel shows its LUT's colour | not executed | ChannelImage.FallbackAsWrittenLosesHue | ChannelImage.IntendedLutColor |
