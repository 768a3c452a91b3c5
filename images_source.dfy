/** `ImagesSource`: one image source over a file list, named after its filename pattern
    until renamed, whose canvas reaches the largest interval maximum of its files. */
module ImagesSourceModel {
  import opened Outcomes
  import opened Geometry
  import opened Images

  /** The union of `acc` with every interval of `boxes`, folded in list order as
      `union = Intervals.union(box, union)`. */
  function UnionOf(acc: Box, boxes: seq<Box>): Box
    decreases |boxes|
  {
    if boxes == [] then acc
    else Union(boxes[|boxes| - 1], UnionOf(acc, boxes[..|boxes| - 1]))
  }

  /** The folded union holds the start and every interval, and on each axis its maximum
      is the largest maximum among them. */
  lemma {:induction false} UnionOfBounds(acc: Box, boxes: seq<Box>)
    ensures forall p :: Contains(acc, p) ==> Contains(UnionOf(acc, boxes), p)
    ensures forall i, p :: 0 <= i < |boxes| && Contains(boxes[i], p) ==> Contains(UnionOf(acc, boxes), p)
    ensures acc.hi.x <= UnionOf(acc, boxes).hi.x && acc.hi.y <= UnionOf(acc, boxes).hi.y
    ensures forall i :: 0 <= i < |boxes| ==> boxes[i].hi.x <= UnionOf(acc, boxes).hi.x && boxes[i].hi.y <= UnionOf(acc, boxes).hi.y
    ensures UnionOf(acc, boxes).hi.x == acc.hi.x || exists i :: 0 <= i < |boxes| && UnionOf(acc, boxes).hi.x == boxes[i].hi.x
    ensures UnionOf(acc, boxes).hi.y == acc.hi.y || exists i :: 0 <= i < |boxes| && UnionOf(acc, boxes).hi.y == boxes[i].hi.y
    decreases |boxes|
  {
    if boxes != [] {
      var front, last := boxes[..|boxes| - 1], boxes[|boxes| - 1];
      UnionOfBounds(acc, front);
      var u := UnionOf(acc, front);
      var r := UnionOf(acc, boxes);
      assert r == Union(last, u);
      forall i, p | 0 <= i < |boxes| && Contains(boxes[i], p)
        ensures Contains(r, p)
      {
        if i < |front| {
          assert boxes[i] == front[i];
        }
      }
      forall i | 0 <= i < |boxes|
        ensures boxes[i].hi.x <= r.hi.x && boxes[i].hi.y <= r.hi.y
      {
        if i < |front| {
          assert boxes[i] == front[i];
        }
      }
      if r.hi.x != last.hi.x && r.hi.x != acc.hi.x {
        var i :| 0 <= i < |front| && u.hi.x == front[i].hi.x;
        assert boxes[i] == front[i];
      }
      if r.hi.y != last.hi.y && r.hi.y != acc.hi.y {
        var i :| 0 <= i < |front| && u.hi.y == front[i].hi.y;
        assert boxes[i] == front[i];
      }
    }
  }

  /** The intervals of a list in which none is null. */
  function Present(intervals: seq<Option<Box>>): (r: seq<Box>)
    requires forall i :: 0 <= i < |intervals| ==> intervals[i].Some?
    ensures |r| == |intervals| && forall i :: 0 <= i < |intervals| ==> r[i] == intervals[i].value
  {
    seq(|intervals|, i requires 0 <= i < |intervals| => intervals[i].value)
  }

  class ImagesSource {
    var dimensions: Pos
    var imageDimensions: Pos
    var bitDepth: int
    const files: seq<string>
    const filenamePattern: string
    var name: string
    var cachedCellImg: Option<PixelType>

    /** The field set-up of the constructor: the name starts as the filename pattern, and
        bit depth and tile size come from the first image. */
    constructor (files: seq<string>, filenamePattern: string, firstImage: ImageInfo)
      ensures this.files == files && this.filenamePattern == filenamePattern
      ensures name == filenamePattern
      ensures bitDepth == firstImage.bitDepth
      ensures imageDimensions == Pos(firstImage.width, firstImage.height)
    {
      this.files := files;
      this.filenamePattern := filenamePattern;
      name := filenamePattern;
      bitDepth := firstImage.bitDepth;
      imageDimensions := Pos(firstImage.width, firstImage.height);
      dimensions := Pos(0, 0);
      cachedCellImg := None;
    }

    function GetName(): string
      reads this
    {
      name
    }

    /** `setName` replaces the name and nothing else. */
    method SetName(name: string)
      modifies this`name
      ensures GetName() == name
    {
      this.name := name;
    }

    /** `setCachedCellImgDimensions`: the canvas dimension on each axis is the maximum of
        the union of all file intervals (the largest interval maximum, not maximum + 1).
        An empty list throws IndexOutOfBoundsException and a null interval
        NullPointerException, leaving the dimensions as they were. */
    method SetCachedCellImgDimensions(intervals: seq<Option<Box>>) returns (failure: Option<Failure>)
      modifies this`dimensions
      ensures |intervals| == 0 ==> failure == Some(IndexOutOfBounds)
      ensures |intervals| > 0 && (exists i :: 0 <= i < |intervals| && intervals[i].None?) ==> failure == Some(NullPointer)
      ensures failure.Some? ==> dimensions == old(dimensions)
      ensures failure.None? <==> |intervals| > 0 && forall i :: 0 <= i < |intervals| ==> intervals[i].Some?
      ensures failure.None? ==> dimensions == UnionOf(intervals[0].value, Present(intervals)).hi
    {
      if |intervals| == 0 {
        return Some(IndexOutOfBounds);
      }
      if intervals[0].None? {
        return Some(NullPointer);
      }
      var union := intervals[0].value;
      for i := 0 to |intervals|
        invariant forall j :: 0 <= j < i ==> intervals[j].Some?
        invariant union == UnionOf(intervals[0].value, Present(intervals[..i]))
      {
        if intervals[i].None? {
          return Some(NullPointer);
        }
        assert Present(intervals[..i + 1]) == Present(intervals[..i]) + [intervals[i].value];
        assert Present(intervals[..i + 1])[..i] == Present(intervals[..i]);
        union := Union(intervals[i].value, union);
      }
      assert intervals[..|intervals|] == intervals;
      dimensions := union.hi;
      return None;
    }

    /** `createCachedCellImg`: the pixel type chosen by bit depth, None for null. */
    method CreateCachedCellImg()
      modifies this`cachedCellImg
      ensures cachedCellImg == CachedCellImgType(bitDepth)
    {
      cachedCellImg := CachedCellImgType(bitDepth);
    }
  }

  /** The canvas reaches every file's interval maximum, and on each axis meets one of them. */
  lemma CanvasIsLargestMaximum(intervals: seq<Box>)
    requires |intervals| > 0
    ensures forall i :: 0 <= i < |intervals| ==>
      intervals[i].hi.x <= UnionOf(intervals[0], intervals).hi.x && intervals[i].hi.y <= UnionOf(intervals[0], intervals).hi.y
    ensures exists i :: 0 <= i < |intervals| && UnionOf(intervals[0], intervals).hi.x == intervals[i].hi.x
    ensures exists i :: 0 <= i < |intervals| && UnionOf(intervals[0], intervals).hi.y == intervals[i].hi.y
  {
    UnionOfBounds(intervals[0], intervals);
  }
}
