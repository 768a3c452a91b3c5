/** `ImageSourcesGeneratorMDSingleSite`: one `ImageSource` per input file, with a single
    site per well; the well grid is guessed from the maximal A01 well positions and each
    interval is built from the file's A01 well position by a helper outside this model. */
module SourcesGenerator {
  import opened Outcomes
  import opened Geometry
  import opened Naming
  import opened Layout

  /** One input file: its path and name, and the A01 well token the class's MD A01-channel
      scheme captures from its name and from its path (None when that does not match). */
  datatype SourceFile = SourceFile(path: string, name: string, nameToken: Option<WellToken>, pathToken: Option<WellToken>)

  /** The arguments of the `createInterval(wellPosition, sitePosition, siteDimensions,
      imageDimensions)` call that builds a file's interval; the helper is not part of this
      model, so the interval is represented by the call that makes it. */
  datatype IntervalRequest = CreateInterval(wellPosition: Pos, sitePosition: Pos, siteDimensions: Pos, imageDimensions: Pos)

  /** The well grid: not yet configured (null), or the result of
      `guessWellDimensions(maximalWellPositions)`, represented by its argument. */
  datatype WellDimensions = NotConfigured | GuessedFrom(maximalWellPositions: Pos)

  /** An `ImageSource`: the file, its interval (None for null) and its name. */
  datatype ImageSource = ImageSource(file: string, interval: Option<IntervalRequest>, name: string)

  /** Every file's site: (1, 1), whatever the file. */
  const FixedSitePosition: Pos := Pos(1, 1)

  /** `getInterval`: null when the path does not match the scheme; otherwise the interval
      built from the file's A01 well position and the fixed site position (1, 1). */
  function IntervalFor(f: SourceFile, siteDimensions: Pos, imageDimensions: Pos): (r: Option<IntervalRequest>)
    ensures r.None? <==> f.pathToken.None?
    ensures r.Some? ==> r.value.sitePosition == Pos(1, 1) && r.value.siteDimensions == siteDimensions && r.value.imageDimensions == imageDimensions
  {
    match f.pathToken
    case None => None
    case Some(token) => Some(CreateInterval(WellPositionFromA01(token), FixedSitePosition, siteDimensions, imageDimensions))
  }

  /** The well position an interval is built from identifies the file's well: reading it
      back as a token gives the token the path carries. */
  lemma IntervalIdentifiesWell(f: SourceFile, siteDimensions: Pos, imageDimensions: Pos)
    requires f.pathToken.Some? && IsCapital(f.pathToken.value.letter)
    ensures TokenAtPosition(IntervalFor(f, siteDimensions, imageDimensions).value.wellPosition) == f.pathToken.value
  {
    A01PositionRoundTrip(f.pathToken.value);
  }

  /** The list `createImageFileList` builds: one source per input file, in input order,
      for that file and named by the file's name. */
  function Sources(files: seq<SourceFile>, siteDimensions: Pos, imageDimensions: Pos): (r: seq<ImageSource>)
    ensures |r| == |files|
    ensures forall i :: 0 <= i < |files| ==> r[i].file == files[i].path && r[i].name == files[i].name
    ensures forall i :: 0 <= i < |files| ==> (r[i].interval.None? <==> files[i].pathToken.None?)
  {
    seq(|files|, i requires 0 <= i < |files| =>
      ImageSource(files[i].path, IntervalFor(files[i], siteDimensions, imageDimensions), files[i].name))
  }

  function SourceNameTokens(files: seq<SourceFile>): (r: seq<Option<WellToken>>)
    ensures |r| == |files| && forall i :: 0 <= i < |files| ==> r[i] == files[i].nameToken
  {
    seq(|files|, i requires 0 <= i < |files| => files[i].nameToken)
  }

  class ImageSourcesGenerator {
    const files: seq<SourceFile>
    const imageDimensions: Pos
    var numSites: int
    var numWells: int
    var siteDimensions: Option<Pos>
    var wellDimensions: WellDimensions
    const maxWellDimensionsInData: array<int>
    const maxSiteDimensionsInData: array<int>
    var list: seq<ImageSource>
    /** What the constructor's `createImageFileList` throws, None when it completes; a
        Java constructor that throws leaves no object, so only a None here describes a
        generator the caller gets. */
    var creationFailure: Option<Failure>

    predicate Valid()
      reads this
    {
      maxWellDimensionsInData.Length == 2 && maxSiteDimensionsInData.Length == 2 &&
      maxWellDimensionsInData != maxSiteDimensionsInData
    }

    /** The constructor: an empty list, zeroed trackers and unset grids, then
        `createImageFileList`. */
    constructor (files: seq<SourceFile>, imageDimensions: Pos)
      ensures Valid()
      ensures this.files == files && this.imageDimensions == imageDimensions
      ensures TrackerValue(maxWellDimensionsInData) == Pos(0, 0) && TrackerValue(maxSiteDimensionsInData) == Pos(0, 0)
      ensures fresh(maxWellDimensionsInData) && fresh(maxSiteDimensionsInData)
      ensures creationFailure.Some? <==> exists i :: 0 <= i < |files| && files[i].nameToken.None?
      ensures creationFailure.Some? ==>
        creationFailure.value == IllegalState && list == [] && siteDimensions == None && wellDimensions == NotConfigured
      ensures creationFailure.None? ==>
        numSites == 1 && siteDimensions == Some(Pos(1, 1)) &&
        wellDimensions == GuessedFrom(Track(Pos(0, 0), WellPositions(SourceNameTokens(files)))) &&
        list == Sources(files, Pos(1, 1), imageDimensions)
    {
      this.files := files;
      this.imageDimensions := imageDimensions;
      list := [];
      numSites, numWells := 0, 0;
      siteDimensions := None;
      wellDimensions := NotConfigured;
      var well := new int[2];
      well[0], well[1] := 0, 0;
      var site := new int[2];
      site[0], site[1] := 0, 0;
      maxWellDimensionsInData := well;
      maxSiteDimensionsInData := site;
      creationFailure := None;
      new;
      creationFailure := CreateImageFileList();
    }

    /** `configWells`: the well grid is guessed from the per-axis maximal A01 well
        position; a file whose name does not match throws IllegalStateException. */
    method ConfigWells() returns (failure: Option<Failure>)
      modifies this`wellDimensions
      ensures failure.Some? <==> exists i :: 0 <= i < |files| && files[i].nameToken.None?
      ensures failure.Some? ==> failure.value == IllegalState && wellDimensions == old(wellDimensions)
      ensures failure.None? ==> wellDimensions == GuessedFrom(Track(Pos(0, 0), WellPositions(SourceNameTokens(files))))
    {
      var maximal := GetMaximalWellPositionsInData(SourceNameTokens(files));
      if maximal.Err? {
        return Some(maximal.failure);
      }
      wellDimensions := GuessedFrom(maximal.value);
      return None;
    }

    /** `configSites`: one site, on a 1 x 1 site grid. */
    method ConfigSites()
      modifies this`numSites, this`siteDimensions
      ensures numSites == 1 && siteDimensions == Some(Pos(1, 1))
    {
      numSites := 1;
      siteDimensions := Some(Pos(1, 1));
    }

    /** `createImageFileList`: configures wells and sites, then appends one source per
        file in order; a file whose name does not match stops it before anything is
        appended. */
    method CreateImageFileList() returns (failure: Option<Failure>)
      modifies this`wellDimensions, this`numSites, this`siteDimensions, this`list
      ensures failure.Some? <==> exists i :: 0 <= i < |files| && files[i].nameToken.None?
      ensures failure.Some? ==> failure.value == IllegalState && list == old(list)
      ensures failure.Some? ==>
        wellDimensions == old(wellDimensions) && numSites == old(numSites) && siteDimensions == old(siteDimensions)
      ensures failure.None? ==>
        numSites == 1 && siteDimensions == Some(Pos(1, 1)) &&
        wellDimensions == GuessedFrom(Track(Pos(0, 0), WellPositions(SourceNameTokens(files)))) &&
        list == old(list) + Sources(files, Pos(1, 1), imageDimensions)
    {
      failure := ConfigWells();
      if failure.Some? {
        return;
      }
      ConfigSites();
      for i := 0 to |files|
        invariant numSites == 1 && siteDimensions == Some(Pos(1, 1))
        invariant wellDimensions == GuessedFrom(Track(Pos(0, 0), WellPositions(SourceNameTokens(files))))
        invariant list == old(list) + Sources(files[..i], Pos(1, 1), imageDimensions)
      {
        assert files[..i + 1][..i] == files[..i];
        assert Sources(files[..i + 1], Pos(1, 1), imageDimensions) ==
          Sources(files[..i], Pos(1, 1), imageDimensions) +
          [ImageSource(files[i].path, IntervalFor(files[i], Pos(1, 1), imageDimensions), files[i].name)];
        var f := files[i];
        list := list + [ImageSource(f.path, IntervalFor(f, siteDimensions.value, imageDimensions), f.name)];
      }
      assert files[..|files|] == files;
    }

    /** `updateMaxWellDimensionInData`. */
    method UpdateMaxWellDimensionInData(wellPosition: Pos)
      requires Valid()
      modifies maxWellDimensionsInData
      ensures TrackerValue(maxWellDimensionsInData) == MaxPos(old(TrackerValue(maxWellDimensionsInData)), wellPosition)
    {
      RaiseMax(maxWellDimensionsInData, wellPosition);
    }

    /** `updateMaxSiteDimensionInData`. */
    method UpdateMaxSiteDimensionInData(sitePosition: Pos)
      requires Valid()
      modifies maxSiteDimensionsInData
      ensures TrackerValue(maxSiteDimensionsInData) == MaxPos(old(TrackerValue(maxSiteDimensionsInData)), sitePosition)
    {
      RaiseMax(maxSiteDimensionsInData, sitePosition);
    }
  }
}
