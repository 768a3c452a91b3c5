/** `MultiWellImagePlusImg`: the display properties a channel takes from its first image —
    the LUT colour chosen from the image title, the pixel type chosen from the bit depth,
    and the tile size. */
module ChannelImage {
  import opened Outcomes
  import opened Geometry
  import opened Images
  import opened Text

  /** An `ARGBType.rgba(r, g, b, a)` colour. */
  datatype Rgba = Rgba(r: int, g: int, b: int, a: int)

  /** The top (last) entry of a LUT's colour map. */
  datatype LutEntry = LutEntry(red: int, green: int, blue: int)

  /** What the channel reads from its first `ImagePlus`: the title, the top entry of each
      of its LUTs, the bit depth and the size. */
  datatype ImagePlusInfo = ImagePlusInfo(title: string, luts: seq<LutEntry>, bitDepth: int, width: int, height: int)

  const White: Rgba := Rgba(255, 255, 255, 255)

  predicate InByteRange(v: int) { 0 <= v <= 255 }

  predicate IsByteColor(c: Rgba)
  {
    InByteRange(c.r) && InByteRange(c.g) && InByteRange(c.b) && InByteRange(c.a)
  }

  predicate IsByteEntry(e: LutEntry)
  {
    InByteRange(e.red) && InByteRange(e.green) && InByteRange(e.blue)
  }

  /** The title rules of `setLutColor`, in the order they are tried: the first key the
      lower-cased title contains decides the colour. */
  const ColorRules: seq<(string, Rgba)> := [
    ("gfp", Rgba(0, 255, 0, 255)),
    ("mcherry", Rgba(255, 0, 0, 255)),
    ("dapi", Rgba(0, 0, 255, 255)),
    ("hoechst", Rgba(0, 0, 255, 255)),
    ("yfp", Rgba(255, 255, 0, 255)),
    ("cfp", Rgba(0, 255, 255, 255)),
    ("rfp", Rgba(255, 0, 0, 255)),
    ("a488", Rgba(0, 255, 0, 255)),
    ("alexa488", Rgba(0, 255, 0, 255)),
    ("c00.ome.tif", Rgba(0, 0, 255, 255)),
    ("c01.ome.tif", Rgba(0, 255, 0, 255)),
    ("c02.ome.tif", Rgba(255, 0, 255, 255))
  ]

  /** Every rule colour is an opaque colour with byte channels. */
  lemma RuleColorsAreOpaqueBytes()
    ensures forall i :: 0 <= i < |ColorRules| ==> ColorRules[i].1.a == 255 && IsByteColor(ColorRules[i].1)
  {
  }

  /** The index of the first rule whose key `title` contains, or |rules|. */
  function FirstRule(rules: seq<(string, Rgba)>, title: string): (i: nat)
    ensures i <= |rules|
    ensures i < |rules| ==> IsSubstring(rules[i].0, title)
    ensures forall j :: 0 <= j < i ==> !IsSubstring(rules[j].0, title)
    decreases |rules|
  {
    if rules == [] then 0
    else if IsSubstring(rules[0].0, title) then 0
    else 1 + FirstRule(rules[1..], title)
  }

  /** The colour of an unrecognised title as the source computes it: the red value of the
      LUT's top entry, read three times. */
  function FallbackColorAsWritten(top: LutEntry): (c: Rgba)
    ensures c.r == c.g == c.b == top.red && c.a == 255
  {
    Rgba(top.red, top.red, top.red, 255)
  }

  /** The colour of an unrecognised title as intended: the LUT's top colour, opaque. */
  function FallbackColor(top: LutEntry): (c: Rgba)
    ensures c.a == 255
    ensures IsByteEntry(top) ==> IsByteColor(c)
  {
    Rgba(top.red, top.green, top.blue, 255)
  }

  /** The as-written fallback turns every LUT grey: a pure green LUT displays black. */
  lemma FallbackAsWrittenLosesHue()
    ensures FallbackColorAsWritten(LutEntry(0, 255, 0)) == Rgba(0, 0, 0, 255)
    ensures FallbackColor(LutEntry(0, 255, 0)) == Rgba(0, 255, 0, 255)
  {
  }

  /** The intended fallback reproduces the LUT's top colour, which the as-written one does
      exactly when that colour is a grey. */
  lemma FallbackKeepsLutColor(top: LutEntry)
    ensures FallbackColor(top).r == top.red && FallbackColor(top).g == top.green && FallbackColor(top).b == top.blue
    ensures FallbackColorAsWritten(top) == FallbackColor(top) <==> top.green == top.red && top.blue == top.red
  {
  }

  /** `setLutColor` as written: the colour of the first title rule the lower-cased title
      matches; otherwise the as-written fallback of the first LUT's top entry, or white
      when there is no LUT. */
  function LutColor(title: string, luts: seq<LutEntry>): (c: Rgba)
    ensures c.a == 255
    ensures (|luts| == 0 || IsByteEntry(luts[0])) ==> IsByteColor(c)
  {
    RuleColorsAreOpaqueBytes();
    var i := FirstRule(ColorRules, LowerCase(title));
    if i < |ColorRules| then ColorRules[i].1
    else if |luts| > 0 then FallbackColorAsWritten(luts[0])
    else White
  }

  /** The source's colour is the first matching rule's colour, and only without a matching
      rule the as-written fallback or white. */
  lemma LutColorFollowsRules(title: string, luts: seq<LutEntry>)
    ensures FirstRule(ColorRules, LowerCase(title)) < |ColorRules| ==>
      LutColor(title, luts) == ColorRules[FirstRule(ColorRules, LowerCase(title))].1
    ensures FirstRule(ColorRules, LowerCase(title)) == |ColorRules| ==>
      LutColor(title, luts) == if |luts| > 0 then FallbackColorAsWritten(luts[0]) else White
  {
  }

  /** `setLutColor` as evidently intended: the same rules, but an unrecognised title takes
      the first LUT's top colour. */
  function IntendedLutColor(title: string, luts: seq<LutEntry>): (c: Rgba)
    ensures c.a == 255
    ensures (|luts| == 0 || IsByteEntry(luts[0])) ==> IsByteColor(c)
    ensures FirstRule(ColorRules, LowerCase(title)) < |ColorRules| ==>
      c == ColorRules[FirstRule(ColorRules, LowerCase(title))].1
    ensures FirstRule(ColorRules, LowerCase(title)) == |ColorRules| && |luts| > 0 ==>
      c.r == luts[0].red && c.g == luts[0].green && c.b == luts[0].blue
  {
    RuleColorsAreOpaqueBytes();
    var i := FirstRule(ColorRules, LowerCase(title));
    if i < |ColorRules| then ColorRules[i].1
    else if |luts| > 0 then FallbackColor(luts[0])
    else White
  }

  /** The source's colour is the intended one exactly when a title rule decides, there is
      no LUT, or the first LUT's top colour is a grey. */
  lemma LutColorAsIntendedUnlessHued(title: string, luts: seq<LutEntry>)
    ensures LutColor(title, luts) == IntendedLutColor(title, luts) <==>
      (FirstRule(ColorRules, LowerCase(title)) < |ColorRules| || |luts| == 0 ||
       (luts[0].green == luts[0].red && luts[0].blue == luts[0].red))
  {
    if FirstRule(ColorRules, LowerCase(title)) == |ColorRules| && |luts| > 0 {
      FallbackKeepsLutColor(luts[0]);
    }
  }

  /** A title that matches no rule takes the (grey) as-written fallback of the first LUT,
      or white without LUTs. */
  lemma UnmatchedTitleFallsBack(title: string, luts: seq<LutEntry>)
    requires forall j :: 0 <= j < |ColorRules| ==> !IsSubstring(ColorRules[j].0, LowerCase(title))
    ensures LutColor(title, luts) == if |luts| > 0 then FallbackColorAsWritten(luts[0]) else White
    ensures |luts| > 0 ==> LutColor(title, luts).r == LutColor(title, luts).g == LutColor(title, luts).b == luts[0].red
  {
    var i := FirstRule(ColorRules, LowerCase(title));
    if i < |ColorRules| {
      assert false;
    }
  }

  /** The colour does not depend on the title's case. */
  lemma LutColorIgnoresCase(title: string, luts: seq<LutEntry>)
    ensures LutColor(LowerCase(title), luts) == LutColor(title, luts)
  {
    LowerCaseIdempotent(title);
  }

  /** A title containing "gfp" is green whatever else it contains. */
  lemma GfpIsGreen(title: string, luts: seq<LutEntry>)
    requires IsSubstring("gfp", LowerCase(title))
    ensures LutColor(title, luts) == Rgba(0, 255, 0, 255)
  {
    assert ColorRules[0].0 == "gfp";
  }

  /** Every title containing "alexa488" also contains "a488", its last four letters. */
  lemma Alexa488ContainsA488(title: string)
    requires IsSubstring("alexa488", title)
    ensures IsSubstring("a488", title)
  {
    var long, short := "alexa488", "a488";
    assert long[4..] == short;
    var i :| 0 <= i <= |title| - |long| && OccursAt(long, title, i);
    assert title[i + 4..i + 8] == title[i..i + 8][4..];
    assert OccursAt(short, title, i + 4);
  }

  /** The "alexa488" rule is never the one that decides: "a488" is tried before it and
      matches every title it matches. */
  lemma Alexa488RuleNeverDecides(title: string)
    ensures FirstRule(ColorRules, title) != 8
  {
    assert ColorRules[7].0 == "a488" && ColorRules[8].0 == "alexa488";
    if IsSubstring("alexa488", title) {
      Alexa488ContainsA488(title);
    }
  }

  /** `setImageDataType`: 8 bits unsigned byte, 16 and 24 (RGB, summed) unsigned short,
      32 float, anything else null. */
  function NativeTypeFor(bitDepth: int): (r: Option<PixelType>)
    ensures r == Some(UnsignedByte) <==> bitDepth == 8
    ensures r == Some(UnsignedShort) <==> bitDepth == 16 || bitDepth == 24
    ensures r == Some(Float) <==> bitDepth == 32
  {
    match bitDepth
    case 8 => Some(UnsignedByte)
    case 16 => Some(UnsignedShort)
    case 24 => Some(UnsignedShort)
    case 32 => Some(Float)
    case _ => None
  }

  /** The channel's pixel type and the multi-position cached image's agree on 8 and 16
      bits only: 24 bits is unsigned short here and unsupported there, and 32 bits is
      float here and unsigned short there. */
  lemma PixelTypesAgreeOnlyOnIntegerDepths(bitDepth: int)
    ensures bitDepth == 8 || bitDepth == 16 ==> NativeTypeFor(bitDepth) == CachedCellImgType(bitDepth) && NativeTypeFor(bitDepth).Some?
    ensures NativeTypeFor(24) == Some(UnsignedShort) && CachedCellImgType(24) == None
    ensures NativeTypeFor(32) == Some(Float) && CachedCellImgType(32) == Some(UnsignedShort)
  {
  }

  class MultiWellImagePlusImg {
    var argbType: Rgba
    var nativeType: Option<PixelType>
    var imageDimensions: Pos
    var isInitiallyVisible: bool

    /** The constructor's `setImagePlusProperties(files.get(0))`: colour, pixel type and
        tile size come from the first image. */
    constructor (firstImage: ImagePlusInfo)
      ensures argbType == LutColor(firstImage.title, firstImage.luts) && isInitiallyVisible
      ensures nativeType == NativeTypeFor(firstImage.bitDepth)
      ensures imageDimensions == Pos(firstImage.width, firstImage.height)
    {
      new;
      SetLut(firstImage);
      SetImageDataType(firstImage);
      SetImageDimensions(firstImage);
    }

    /** `setLutColor`, as written. */
    method SetLutColor(image: ImagePlusInfo)
      modifies this`argbType
      ensures argbType == LutColor(image.title, image.luts)
    {
      argbType := LutColor(image.title, image.luts);
    }

    /** `setLut`: the colour is set and the channel becomes initially visible. */
    method SetLut(image: ImagePlusInfo)
      modifies this`argbType, this`isInitiallyVisible
      ensures argbType == LutColor(image.title, image.luts) && isInitiallyVisible
    {
      SetLutColor(image);
      isInitiallyVisible := true;
    }

    /** `setImageDataType`. */
    method SetImageDataType(image: ImagePlusInfo)
      modifies this`nativeType
      ensures nativeType == NativeTypeFor(image.bitDepth)
    {
      nativeType := NativeTypeFor(image.bitDepth);
    }

    /** `setImageDimensions`: the tile is the image's width by its height. */
    method SetImageDimensions(image: ImagePlusInfo)
      modifies this`imageDimensions
      ensures imageDimensions == Pos(image.width, image.height)
    {
      imageDimensions := Pos(image.width, image.height);
    }
  }
}
