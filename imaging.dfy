/**
 * Frames and crops as the application sees them. The camera, colour
 * conversion and numpy slicing are outside the model: a crop arrives as its
 * HSV pixels together with the channel count of the BGR array it was cut from.
 */
module Imaging {

  /** One pixel after conversion to HSV (OpenCV 8-bit ranges: H 0..179, S and V 0..255). */
  datatype Hsv = Hsv(h: nat, s: nat, v: nat)

  /** A cropped region: its pixels and the number of channels per pixel in the BGR array. */
  datatype Crop = Crop(pixels: seq<Hsv>, channels: nat) {

    /** numpy's `crop.size`: pixels times channels, so a 3-channel crop counts every pixel thrice. */
    function Size(): nat {
      |pixels| * channels
    }
  }

  /** A bounding box in pixel coordinates, as `(x1, y1, x2, y2)`. */
  datatype BBox = BBox(x1: int, y1: int, x2: int, y2: int)
}
