/** Choice of the swapchain's surface format and colour space. */
module SurfaceFormats {
  import opened VkTypes

  /** `VK_FORMAT_B8G8R8A8_UNORM` in `VK_COLOR_SPACE_SRGB_NONLINEAR_KHR`. */
  const PREFERRED_SURFACE_FORMAT: SurfaceFormat := SurfaceFormat(FormatB8G8R8A8Unorm, ColorSpaceSrgbNonlinear)

  /** A lone entry whose format is UNDEFINED means the surface accepts any
      format. */
  predicate AnyFormatAccepted(formats: seq<SurfaceFormat>)
  {
    |formats| == 1 && formats[0].format == FormatUndefined
  }

  /** The preference order: the preferred pair when any format is accepted
      or when the pair is offered anywhere in the list; otherwise the first
      entry. */
  function PreferredSurfaceFormat(formats: seq<SurfaceFormat>): SurfaceFormat
    requires |formats| > 0
  {
    if AnyFormatAccepted(formats) || PREFERRED_SURFACE_FORMAT in formats then PREFERRED_SURFACE_FORMAT
    else formats[0]
  }

  /** The source's scan: the UNDEFINED special case first, otherwise a pass
      over the whole list that records every exact match of the preferred pair,
      and the first entry as fallback when nothing was recorded. The list is
      never empty: device selection rejects devices without formats. */
  method ChooseSurfaceFormat(formats: seq<SurfaceFormat>) returns (chosen: SurfaceFormat)
    requires |formats| > 0
    ensures chosen == PreferredSurfaceFormat(formats)
  {
    // `= {}`: both enum fields zero, i.e. UNDEFINED in SRGB_NONLINEAR
    chosen := SurfaceFormat(FormatUndefined, ColorSpaceSrgbNonlinear);
    var found := false;
    if |formats| == 1 && formats[0].format == FormatUndefined {
      chosen := SurfaceFormat(FormatB8G8R8A8Unorm, ColorSpaceSrgbNonlinear);
      found := true;
    } else {
      for i := 0 to |formats|
        invariant found <==> PREFERRED_SURFACE_FORMAT in formats[..i]
        invariant found ==> chosen == PREFERRED_SURFACE_FORMAT
      {
        var candidate := formats[i];
        if candidate.format == FormatB8G8R8A8Unorm && candidate.colorSpace == ColorSpaceSrgbNonlinear {
          chosen := candidate;
          found := true;
        }
      }
      assert formats[..|formats|] == formats;
    }
    if !found {
      chosen := formats[0];
    }
  }

  /** The chosen format is the preferred pair or one the surface offers, and
      it is the preferred pair exactly when the surface accepts any format or
      offers that pair somewhere, at whatever position. */
  lemma ChosenFormatIsOffered(formats: seq<SurfaceFormat>)
    requires |formats| > 0
    ensures PreferredSurfaceFormat(formats) == PREFERRED_SURFACE_FORMAT || PreferredSurfaceFormat(formats) in formats
    ensures PreferredSurfaceFormat(formats) == PREFERRED_SURFACE_FORMAT
            <==> AnyFormatAccepted(formats) || PREFERRED_SURFACE_FORMAT in formats
    ensures PreferredSurfaceFormat(formats) != PREFERRED_SURFACE_FORMAT ==> PreferredSurfaceFormat(formats) == formats[0]
  {
  }
}
