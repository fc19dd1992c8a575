/** How the content script turns an image URL into a pixel buffer the service worker can
    classify: a failed load or a small image gives `null`, anything else a 224 × 224
    RGBA buffer. */
module ImageAcquisition {
  import opened Wrappers
  import opened Messages

  /** The side of the square buffer the classifier expects. */
  const ImageSize: nat := 224
  /** An image must exceed this in height or in width to be classified. */
  const MinImgSize: nat := 128
  /** Channels per pixel: red, green, blue, alpha. */
  const Channels: nat := 4

  /** How the host's image element settles once its `src` is set: through `onerror`, or
      through `onload` with its natural height and width and, for an accepted image, the
      channel values the 224 × 224 canvas holds after the image is drawn on it (flat
      offset to value; the drawing itself belongs to the host). */
  datatype LoadOutcome = LoadError | Loaded(height: nat, width: nat, pixel: nat -> byte)

  /** True when a loaded image of this size is large enough to classify. */
  predicate LargeEnough(height: nat, width: nat) {
    height > MinImgSize || width > MinImgSize
  }

  /** The value `getImageDataFromSrc` resolves with, once the image has settled as `outcome`. */
  function ImageDataFromSrc(outcome: LoadOutcome): (r: Option<PixelBuffer>)
    ensures outcome.LoadError? ==> r == None
    ensures outcome.Loaded? ==> (r.Some? <==> LargeEnough(outcome.height, outcome.width))
    ensures r.Some? ==> r.value.height == ImageSize && r.value.width == ImageSize
    ensures r.Some? ==> |r.value.data| == ImageSize * ImageSize * Channels
    ensures r.Some? ==> forall i :: 0 <= i < |r.value.data| ==> r.value.data[i] == outcome.pixel(i)
  {
    match outcome
    case LoadError => None
    case Loaded(height, width, pixel) =>
      // A zero size is falsy in the source's test, which a zero also fails here.
      if (height != 0 && height > MinImgSize) || (width != 0 && width > MinImgSize) then
        var data := seq(ImageSize * ImageSize * Channels, i requires 0 <= i => pixel(i));
        Some(PixelBuffer(data, ImageSize, ImageSize))
      else
        None
  }

  /** A 128 × 128 image is rejected however it loads; a 129 × 1 one is accepted. */
  lemma SizeBoundary(pixel: nat -> byte)
    ensures ImageDataFromSrc(Loaded(MinImgSize, MinImgSize, pixel)) == None
    ensures ImageDataFromSrc(Loaded(MinImgSize + 1, 1, pixel)).Some?
  {
  }
}
