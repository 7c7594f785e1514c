/** Frame geometry: the scale selector, the truncating downscale applied to
    every recorded frame, and the timer period derived from the frame rate
    (capture_screen_avi.py). Pixels are not modelled: a frame is its size. */
module Media {
  import opened Wrappers

  /** Width and height, in pixels, of a captured or converted frame. */
  datatype Size = Size(width: nat, height: nat)

  /** The exceptions a recorded tick can raise. */
  datatype Fault =
    | UnknownScale  // the scale item is not a key of the factor table (KeyError)
    | EmptyFrame    // the converted frame has a zero dimension (the image library refuses it)
    | CannotOpen    // the video writer did not open

  /** The items of the scale selector, in order: original, 1/2, 1/3, 1/4. */
  const ScaleLabels: seq<string> := ["원본", "1/2", "1/3", "1/4"]

  /** The scale factor of a selector item, as the divisor d of the factor 1/d;
      None for an item outside the table. Item i of the selector divides by i + 1. */
  function ScaleFactor(item: string): (d: Option<nat>)
    ensures d.Some? <==> item in ScaleLabels
    ensures d.Some? ==> 1 <= d.value <= |ScaleLabels|
    ensures forall i :: 0 <= i < |ScaleLabels| && item == ScaleLabels[i] ==> d == Some(i + 1)
  {
    if item == "원본" then Some(1)
    else if item == "1/2" then Some(2)
    else if item == "1/3" then Some(3)
    else if item == "1/4" then Some(4)
    else None
  }

  /** One dimension scaled by 1/d and truncated towards zero. */
  function Shrink(dim: nat, d: nat): (r: nat)
    requires d >= 1
    ensures r * d <= dim < (r + 1) * d
  {
    dim / d
  }

  /** The frame handed to the encoder for a captured frame and the current
      scale item: resized only when the factor is not 1, and refused when a
      dimension comes out as zero. */
  function Convert(frame: Size, item: string): (r: Result<Size, Fault>)
    ensures item !in ScaleLabels ==> r == Failure(UnknownScale)
    ensures forall i :: 0 <= i < |ScaleLabels| && item == ScaleLabels[i] ==>
      && (r.Success? <==> frame.width / (i + 1) > 0 && frame.height / (i + 1) > 0)
      && (r.Success? ==> r.value == Size(frame.width / (i + 1), frame.height / (i + 1)))
    ensures r.Success? ==> 0 < r.value.width <= frame.width && 0 < r.value.height <= frame.height
    ensures r.Failure? ==> r.error == UnknownScale || r.error == EmptyFrame
    ensures r.Failure? ==> (r.error == UnknownScale <==> item !in ScaleLabels)
  {
    match ScaleFactor(item)
    case None => Failure(UnknownScale)
    case Some(d) =>
      var converted := if d != 1 then Size(Shrink(frame.width, d), Shrink(frame.height, d)) else frame;
      if converted.width == 0 || converted.height == 0 then Failure(EmptyFrame)
      else Success(converted)
  }

  /** The timer period in milliseconds for a frame rate, a rate below 1 being
      taken as 1: the largest whole number of milliseconds that fits `rate`
      times into one second. */
  function IntervalMs(fps: int): (ms: nat)
    ensures var rate := if fps < 1 then 1 else fps; ms * rate <= 1000 < (ms + 1) * rate
  {
    1000 / (if fps < 1 then 1 else fps)
  }

  /** Over the selector's range of 1 to 60 frames per second the period lies
      between 16 and 1000 milliseconds. */
  lemma IntervalBounds(fps: int)
    requires 1 <= fps <= 60
    ensures 16 <= IntervalMs(fps) <= 1000
  {
  }
}
