/**
 * The colour heuristic of `Detector.get_ripeness_color`: count the crop's
 * pixels inside fixed HSV boxes and compare the share against a threshold.
 * The share is taken over `crop.size`, which counts every channel, so on a
 * 3-channel crop "more than 5%" means more than 15% of the pixels.
 */
module Ripeness {
  import opened Imaging

  /** An inclusive HSV box, as `cv2.inRange(hsv, lower, upper)` tests it. */
  datatype HsvRange = HsvRange(lo: Hsv, hi: Hsv)

  predicate InRange(p: Hsv, r: HsvRange) {
    && r.lo.h <= p.h <= r.hi.h
    && r.lo.s <= p.s <= r.hi.s
    && r.lo.v <= p.v <= r.hi.v
  }

  const RedRange: HsvRange := HsvRange(Hsv(0, 100, 100), Hsv(10, 255, 255))
  const GreenRange: HsvRange := HsvRange(Hsv(35, 100, 100), Hsv(85, 255, 255))
  const YellowRange: HsvRange := HsvRange(Hsv(20, 100, 100), Hsv(30, 255, 255))
  const OrangeRange: HsvRange := HsvRange(Hsv(10, 100, 100), Hsv(25, 255, 255))

  const SupportedFruits: set<string> := {"apple", "banana", "orange"}

  /** `np.sum(mask > 0)`: how many pixels fall inside the box. */
  function CountInRange(px: seq<Hsv>, r: HsvRange): (n: nat)
    ensures n <= |px|
  {
    if px == [] then 0
    else CountInRange(px[..|px| - 1], r) + (if InRange(px[|px| - 1], r) then 1 else 0)
  }

  /** `count / size > num / den`, decided exactly instead of in floating point. */
  predicate RatioAbove(count: nat, size: nat, num: nat, den: nat) {
    count * den > num * size
  }

  /** On a non-empty crop the integer test is exactly the quotient comparison the source makes. */
  lemma RatioAboveIsDivision(count: nat, size: nat, num: nat, den: nat)
    requires size > 0 && den > 0
    ensures RatioAbove(count, size, num, den) <==> count as real / size as real > num as real / den as real
  {
  }

  /** The labels `get_ripeness_color` can give for a fruit type. */
  function Labels(fruitType: string): set<string> {
    if fruitType == "apple" then {"Ripe (Red)", "Underripe (Green)", "Perfectly Ripe", "Unknown"}
    else if fruitType in SupportedFruits then {"Perfectly Ripe", "Underripe", "Unknown"}
    else {"Unknown"}
  }

  /** `Detector.get_ripeness_color(fruit_crop, fruit_type)`. */
  function GetRipenessColor(crop: Crop, fruitType: string): (r: string)
    ensures crop.Size() == 0 ==> r == "Unknown"
    ensures fruitType !in SupportedFruits ==> r == "Unknown"
    ensures r in Labels(fruitType)
    ensures crop.Size() > 0 && fruitType in SupportedFruits ==> r != "Unknown"
  {
    var size := crop.Size();
    if size == 0 then "Unknown"
    else if fruitType == "apple" then
      if RatioAbove(CountInRange(crop.pixels, RedRange), size, 5, 100) then "Ripe (Red)"
      else if RatioAbove(CountInRange(crop.pixels, GreenRange), size, 5, 100) then "Underripe (Green)"
      else "Perfectly Ripe"
    else if fruitType == "banana" then
      if RatioAbove(CountInRange(crop.pixels, YellowRange), size, 5, 100) then "Perfectly Ripe"
      else "Underripe"
    else if fruitType == "orange" then
      if RatioAbove(CountInRange(crop.pixels, OrangeRange), size, 10, 100) then "Perfectly Ripe"
      else "Underripe"
    else "Unknown"
  }

  /** For an apple the red test wins over the green one, whatever the green share. */
  lemma AppleRedTakesPrecedence(crop: Crop)
    requires crop.Size() > 0
    ensures GetRipenessColor(crop, "apple") == "Ripe (Red)"
        <==> RatioAbove(CountInRange(crop.pixels, RedRange), crop.Size(), 5, 100)
    ensures GetRipenessColor(crop, "apple") == "Underripe (Green)"
        <==> !RatioAbove(CountInRange(crop.pixels, RedRange), crop.Size(), 5, 100)
             && RatioAbove(CountInRange(crop.pixels, GreenRange), crop.Size(), 5, 100)
  {
  }

  /** A banana is ripe above a 5% yellow share, an orange above a 10% orange share. */
  lemma BananaAndOrangeThresholds(crop: Crop)
    requires crop.Size() > 0
    ensures GetRipenessColor(crop, "banana") == "Perfectly Ripe"
        <==> 100 * CountInRange(crop.pixels, YellowRange) > 5 * crop.Size()
    ensures GetRipenessColor(crop, "orange") == "Perfectly Ripe"
        <==> 100 * CountInRange(crop.pixels, OrangeRange) > 10 * crop.Size()
  {
  }

  lemma {:induction false} CountAllInRange(px: seq<Hsv>, r: HsvRange)
    requires forall i :: 0 <= i < |px| ==> InRange(px[i], r)
    ensures CountInRange(px, r) == |px|
  {
    if px != [] {
      CountAllInRange(px[..|px| - 1], r);
    }
  }

  lemma {:induction false} CountNoneInRange(px: seq<Hsv>, r: HsvRange)
    requires forall i :: 0 <= i < |px| ==> !InRange(px[i], r)
    ensures CountInRange(px, r) == 0
  {
    if px != [] {
      CountNoneInRange(px[..|px| - 1], r);
    }
  }

  /** An all-green 3-channel apple crop is "Underripe (Green)": no pixel is red, every pixel green. */
  lemma AllGreenAppleIsUnderripe(px: seq<Hsv>)
    requires px != []
    requires forall i :: 0 <= i < |px| ==> InRange(px[i], GreenRange)
    ensures GetRipenessColor(Crop(px, 3), "apple") == "Underripe (Green)"
  {
    CountAllInRange(px, GreenRange);
    CountNoneInRange(px, RedRange);
  }

  /**
   * Because the share is over channels too, one red pixel in ten (10% of the
   * pixels, 3.3% of `size`) does not make a 3-channel apple "Ripe (Red)".
   */
  lemma ShareCountsChannels()
    ensures var red, grey := Hsv(5, 200, 200), Hsv(0, 0, 0);
            GetRipenessColor(Crop([red] + seq(9, _ => grey), 3), "apple") == "Perfectly Ripe"
  {
    var red, grey := Hsv(5, 200, 200), Hsv(0, 0, 0);
    var px := [red] + seq(9, _ => grey);
    assert px[..1] == [red];
    CountNoneInRange(px[1..], RedRange);
    CountNoneInRange(px, GreenRange);
    assert CountInRange(px, RedRange) == 1 by {
      CountSplit(px, RedRange, 1);
    }
  }

  /** Counting distributes over a split of the pixel sequence. */
  lemma {:induction false} CountSplit(px: seq<Hsv>, r: HsvRange, k: nat)
    requires k <= |px|
    ensures CountInRange(px, r) == CountInRange(px[..k], r) + CountInRange(px[k..], r)
  {
    if |px| > k {
      CountSplit(px[..|px| - 1], r, k);
      assert px[..|px| - 1][..k] == px[..k];
      assert px[k..][..|px[k..]| - 1] == px[..|px| - 1][k..];
    } else {
      assert px[..k] == px;
    }
  }
}
