/** The swapchain's extent. A surface whose current extent has width
    `UINT32_MAX` lets the swapchain decide (section "Surface Queries" of the
    Window System Integration chapter of the Vulkan 1.0 specification); the
    window's size is then fitted into the surface's limits. */
module SwapExtent {
  import opened VkTypes

  /** Fits `v` into [lo, hi]; when the range is empty (hi < lo) the lower
      limit wins. */
  function ClampDimension(lo: u32, hi: u32, v: u32): u32
  {
    if v <= lo || hi <= lo then lo
    else if hi <= v then hi
    else v
  }

  function SwapExtentFor(capabilities: SurfaceCapabilities, window: Extent2D): Extent2D
  {
    if capabilities.currentExtent.width == UINT32_MAX then
      Extent2D(
        ClampDimension(capabilities.minImageExtent.width, capabilities.maxImageExtent.width, window.width),
        ClampDimension(capabilities.minImageExtent.height, capabilities.maxImageExtent.height, window.height))
    else
      capabilities.currentExtent
  }

  /** The source's reassignments: start from the current extent; on the
      sentinel take, per component, the smaller of the maximum and the window
      size, then the larger of that and the minimum. */
  method ChooseSwapExtent(capabilities: SurfaceCapabilities, window: Extent2D) returns (extent: Extent2D)
    ensures extent == SwapExtentFor(capabilities, window)
  {
    extent := capabilities.currentExtent;
    if extent.width == UINT32_MAX {
      var extentMax := capabilities.maxImageExtent;
      var extentMin := capabilities.minImageExtent;
      extent := extent.(width := if extentMax.width < window.width then extentMax.width else window.width);
      extent := extent.(height := if extentMax.height < window.height then extentMax.height else window.height);
      extent := extent.(width := if extentMin.width > extent.width then extentMin.width else extent.width);
      extent := extent.(height := if extentMin.height > extent.height then extentMin.height else extent.height);
    }
  }

  /** On the sentinel every component is at least the minimum, at most the
      maximum whenever minimum <= maximum, the window's own size when that
      already fits, and the nearer limit when it does not. Otherwise the
      surface's current extent is used verbatim. */
  lemma SwapExtentWithinLimits(capabilities: SurfaceCapabilities, window: Extent2D)
    ensures var e := SwapExtentFor(capabilities, window);
            var lo, hi := capabilities.minImageExtent, capabilities.maxImageExtent;
            if capabilities.currentExtent.width == UINT32_MAX then
              && lo.width <= e.width && lo.height <= e.height
              && (lo.width <= hi.width ==> e.width <= hi.width)
              && (lo.height <= hi.height ==> e.height <= hi.height)
              && (lo.width <= window.width <= hi.width ==> e.width == window.width)
              && (lo.height <= window.height <= hi.height ==> e.height == window.height)
              && (lo.width <= hi.width < window.width ==> e.width == hi.width)
              && (lo.height <= hi.height < window.height ==> e.height == hi.height)
              && (window.width < lo.width ==> e.width == lo.width)
              && (window.height < lo.height ==> e.height == lo.height)
            else
              e == capabilities.currentExtent
  {
  }
}
