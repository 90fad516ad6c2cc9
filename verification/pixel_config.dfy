/** Pixel configurations and the choice of the configuration the blur renders into (get_blur_config). */
module PixelConfigs {

  datatype PixelConfig =
    | Unknown
    | Alpha8
    | Gray8
    | RGB565
    | RGBA4444
    | RGBA8888
    | RGB888
    | BGRA8888
    | SRGBA8888
    | SBGRA8888
    | RGBA1010102
    | RGBAFloat
    | RGBAHalf
    | AlphaHalf

  /** The configurations whose writes are sRGB-encoded. */
  predicate IsSRGB(c: PixelConfig)
  {
    c == SRGBA8888 || c == SBGRA8888
  }

  /** The configurations the blur is written for. */
  predicate IsBlurrable(c: PixelConfig)
  {
    c in {BGRA8888, RGBA8888, RGB888, RGBA4444, RGB565, SRGBA8888, SBGRA8888, RGBAHalf, Alpha8, RGBA1010102}
  }

  /**
   * The configuration of every surface the blur allocates: the source's own, except that an
   * sRGB source without a colour space is blurred into plain RGBA 8888.
   */
  function GetBlurConfig(config: PixelConfig, hasColorSpace: bool): (r: PixelConfig)
    ensures !hasColorSpace ==> !IsSRGB(r)
    ensures r != config ==> IsSRGB(config) && !hasColorSpace && r == RGBA8888
    ensures IsBlurrable(config) ==> IsBlurrable(r)
  {
    if IsSRGB(config) && !hasColorSpace then RGBA8888 else config
  }

  /** Choosing again from a surface of the chosen configuration keeps it. */
  lemma {:induction false} BlurConfigIdempotent(config: PixelConfig, hasColorSpace: bool)
    ensures GetBlurConfig(GetBlurConfig(config, hasColorSpace), hasColorSpace) == GetBlurConfig(config, hasColorSpace)
  {
    var r := GetBlurConfig(config, hasColorSpace);
    assert !hasColorSpace ==> !IsSRGB(r);
  }
}
