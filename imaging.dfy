/** The images the view model renders into. The pixel store, its file formats and
    the Magick.NET calls behind it are not part of this model: an image is a value
    holding its size and its 16-bit channel samples. */
module Imaging {

  /** The pixels of an image: its width, its height and its channel samples. */
  datatype Raster = Raster(width: nat, height: nat, samples: seq<nat>)

  /** `ChangeRgb16Pixel` applied to every pixel with the same curve, which is what
      the gamma loops of `ApplyOpcodes` do row by row. */
  function MapSamples(r: Raster, curve: nat -> nat): (m: Raster)
    ensures m.width == r.width && m.height == r.height
    ensures |m.samples| == |r.samples|
    ensures forall k :: 0 <= k < |r.samples| ==> m.samples[k] == curve(r.samples[k])
  {
    Raster(r.width, r.height, seq(|r.samples|, k requires 0 <= k < |r.samples| => curve(r.samples[k])))
  }

  /** Mapping with one curve and then another is mapping with their composition. */
  lemma MapSamplesCompose(r: Raster, f: nat -> nat, g: nat -> nat)
    ensures MapSamples(MapSamples(r, f), g) == MapSamples(r, x => g(f(x)))
  {
    var lhs := MapSamples(MapSamples(r, f), g);
    var rhs := MapSamples(r, x => g(f(x)));
    assert lhs.samples == rhs.samples;
  }

  /** An image object. `ApplyOpcodes` replaces `ImgDst` by a clone of `ImgSrc` and
      then changes the clone in place. */
  class Image {
    var raster: Raster

    constructor (r: Raster)
      ensures raster == r
    {
      raster := r;
    }

    /** A new image object with the same pixels. */
    method Clone() returns (c: Image)
      ensures fresh(c) && c.raster == raster
    {
      c := new Image(raster);
    }

    /** Applies `curve` to every sample of this image. */
    method ChangeSamples(curve: nat -> nat)
      modifies this
      ensures raster == MapSamples(old(raster), curve)
    {
      raster := MapSamples(raster, curve);
    }
  }
}
