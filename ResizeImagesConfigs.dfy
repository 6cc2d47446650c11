/** `Models.Configurations.ResizeImagesConfigs`: the settings of the resize
    tool. Two integer settings keep their value inside a fixed range: every
    assignment goes through `Math.Clamp`. */
module ResizeImagesConfigs {
  import opened Numbers

  /** The members of `SupportedDimensions` that the modelled code names. */
  datatype SupportedDimensions = Resolution512x512 | Resolution1024x1024

  const LanczosRadiusMin: int := 1
  const LanczosRadiusMax: int := 25
  /** `ushort.MaxValue` bounds the sharpening threshold from above. */
  const MinimumResolutionForSharpenMin: int := 256
  const MinimumResolutionForSharpenMax: int := 65535
  const SharpenSigmaMin: real := 0.5
  const SharpenSigmaMax: real := 5.0

  /** `Math.Clamp` on the sigma, read as a real number. */
  function ClampReal(value: real, lo: real, hi: real): (r: real)
    requires lo <= hi
    ensures lo <= r <= hi
    ensures r == value <==> lo <= value <= hi
    ensures value < lo ==> r == lo
    ensures value > hi ==> r == hi
  {
    if value < lo then lo else if value > hi then hi else value
  }

  class ResizeImagesConfigs {
    var inputFolder: string
    var outputFolder: string
    var outputDimensionSize: SupportedDimensions
    var lanczosRadius: int
    var applySharpenSigma: bool
    var sharpenSigma: real
    var minimumResolutionForSharpen: int

    /** Both clamped settings are inside their ranges. */
    ghost predicate Valid()
      reads this
    {
      && LanczosRadiusMin <= lanczosRadius <= LanczosRadiusMax
      && MinimumResolutionForSharpenMin <= minimumResolutionForSharpen <= MinimumResolutionForSharpenMax
      && SharpenSigmaMin <= sharpenSigma <= SharpenSigmaMax
    }

    /** The property initialisers. */
    constructor ()
      ensures inputFolder == "" && outputFolder == ""
      ensures outputDimensionSize == Resolution1024x1024
      ensures lanczosRadius == 3 && applySharpenSigma && sharpenSigma == 0.7 && minimumResolutionForSharpen == 256
      ensures Valid()
    {
      inputFolder := "";
      outputFolder := "";
      outputDimensionSize := Resolution1024x1024;
      lanczosRadius := 3;
      applySharpenSigma := true;
      sharpenSigma := 0.7;
      minimumResolutionForSharpen := 256;
    }

    /** The `LanczosRadius` setter. A value in [1, 25] is stored as it is,
        any other becomes the nearer bound; nothing else changes. */
    method SetLanczosRadius(value: int)
      modifies this
      ensures lanczosRadius == Clamp(value, LanczosRadiusMin, LanczosRadiusMax)
      ensures lanczosRadius == value <==> LanczosRadiusMin <= value <= LanczosRadiusMax
      ensures old(Valid()) ==> Valid()
      ensures inputFolder == old(inputFolder) && outputFolder == old(outputFolder)
      ensures outputDimensionSize == old(outputDimensionSize) && applySharpenSigma == old(applySharpenSigma)
      ensures sharpenSigma == old(sharpenSigma) && minimumResolutionForSharpen == old(minimumResolutionForSharpen)
    {
      ClampKeepsInRange(value, LanczosRadiusMin, LanczosRadiusMax);
      lanczosRadius := Clamp(value, LanczosRadiusMin, LanczosRadiusMax);
    }

    /** The `MinimumResolutionForSharpen` setter, clamping to [256, 65535]. */
    method SetMinimumResolutionForSharpen(value: int)
      modifies this
      ensures minimumResolutionForSharpen == Clamp(value, MinimumResolutionForSharpenMin, MinimumResolutionForSharpenMax)
      ensures minimumResolutionForSharpen == value <==>
        MinimumResolutionForSharpenMin <= value <= MinimumResolutionForSharpenMax
      ensures old(Valid()) ==> Valid()
      ensures inputFolder == old(inputFolder) && outputFolder == old(outputFolder)
      ensures outputDimensionSize == old(outputDimensionSize) && applySharpenSigma == old(applySharpenSigma)
      ensures lanczosRadius == old(lanczosRadius) && sharpenSigma == old(sharpenSigma)
    {
      ClampKeepsInRange(value, MinimumResolutionForSharpenMin, MinimumResolutionForSharpenMax);
      minimumResolutionForSharpen := Clamp(value, MinimumResolutionForSharpenMin, MinimumResolutionForSharpenMax);
    }

    /** The `SharpenSigma` setter, clamping to [0.5, 5.0]. */
    method SetSharpenSigma(value: real)
      modifies this
      ensures sharpenSigma == ClampReal(value, SharpenSigmaMin, SharpenSigmaMax)
      ensures old(Valid()) ==> Valid()
      ensures inputFolder == old(inputFolder) && outputFolder == old(outputFolder)
      ensures outputDimensionSize == old(outputDimensionSize) && applySharpenSigma == old(applySharpenSigma)
      ensures lanczosRadius == old(lanczosRadius) && minimumResolutionForSharpen == old(minimumResolutionForSharpen)
    {
      sharpenSigma := ClampReal(value, SharpenSigmaMin, SharpenSigmaMax);
    }

    /** Assigning a setting its own current value changes nothing. */
    method ReassignCurrent()
      requires Valid()
      modifies this
      ensures lanczosRadius == old(lanczosRadius)
      ensures minimumResolutionForSharpen == old(minimumResolutionForSharpen)
      ensures sharpenSigma == old(sharpenSigma)
      ensures inputFolder == old(inputFolder) && outputFolder == old(outputFolder)
      ensures outputDimensionSize == old(outputDimensionSize) && applySharpenSigma == old(applySharpenSigma)
      ensures Valid()
    {
      SetLanczosRadius(lanczosRadius);
      SetSharpenSigma(sharpenSigma);
      SetMinimumResolutionForSharpen(minimumResolutionForSharpen);
    }
  }
}
