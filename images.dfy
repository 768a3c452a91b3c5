/** What the viewers read from an opened image, and the pixel types they choose for it. */
module Images {
  import opened Outcomes

  /** An opened image as the viewers read it: its title, bit depth and size. Decoding the
      file is not part of this model. */
  datatype ImageInfo = ImageInfo(title: string, bitDepth: int, width: int, height: int)

  /** The imglib2 pixel types the viewers create images of. */
  datatype PixelType = UnsignedByte | UnsignedShort | Float

  /** The pixel type of the cached cell image a multi-position source creates for
      `bitDepth`: 8-bit images are unsigned bytes, 16- and 32-bit images unsigned
      shorts (a `new UnsignedShortType()` in the 32-bit branch too), any other depth
      no image (null). */
  function CachedCellImgType(bitDepth: int): (r: Option<PixelType>)
    ensures r == Some(UnsignedByte) <==> bitDepth == 8
    ensures r == Some(UnsignedShort) <==> bitDepth == 16 || bitDepth == 32
    ensures r != Some(Float)
  {
    match bitDepth
    case 8 => Some(UnsignedByte)
    case 16 => Some(UnsignedShort)
    case 32 => Some(UnsignedShort)
    case _ => None
  }
}
