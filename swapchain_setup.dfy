/** The swapchain create-info's image count and queue-family sharing. */
module SwapchainSetup {
  import opened VkTypes

  /** One image more than the surface's minimum, capped at its maximum when
      that is nonzero (zero means no limit). The `uint32_t` sum wraps to 0
      when the minimum is `UINT32_MAX`. */
  function ImageCountFor(capabilities: SurfaceCapabilities): u32
  {
    var min, max := capabilities.minImageCount, capabilities.maxImageCount;
    if min == UINT32_MAX then 0
    else if 0 < max <= min then max
    else min + 1
  }

  /** The source's reassignment: `minImageCount + 1` in `uint32_t`, then
      lowered to `maxImageCount` when that is nonzero and smaller. */
  method ChooseImageCount(capabilities: SurfaceCapabilities) returns (imageCount: u32)
    ensures imageCount == ImageCountFor(capabilities)
  {
    imageCount := AsU32(capabilities.minImageCount + 1);
    if capabilities.maxImageCount > 0 && imageCount > capabilities.maxImageCount {
      imageCount := capabilities.maxImageCount;
    }
  }

  /** Never above a declared maximum; exactly minimum + 1 when there is no
      maximum or the maximum leaves room for it; the maximum itself when it
      does not. */
  lemma ImageCountWithinLimits(capabilities: SurfaceCapabilities)
    ensures var n, min, max := ImageCountFor(capabilities), capabilities.minImageCount, capabilities.maxImageCount;
            && (max > 0 ==> n <= max)
            && (min < UINT32_MAX && (max == 0 || min < max) ==> n == min + 1)
            && (min < UINT32_MAX && 0 < max <= min ==> n == max)
  {
  }

  /** Exclusive sharing with no family list when the graphics and present
      families coincide; concurrent sharing listing the graphics family and
      then the present family, converted to `uint32_t`, when they differ. */
  function SharingFor(graphicsFamily: int, presentFamily: int): (s: Sharing)
    ensures s.mode == SharingExclusive <==> graphicsFamily == presentFamily
    ensures s.mode == SharingExclusive ==> s.familyIndices == []
    ensures s.mode == SharingConcurrent ==> s.familyIndices == [AsU32(graphicsFamily), AsU32(presentFamily)]
  {
    if graphicsFamily != presentFamily then
      Sharing(SharingConcurrent, [AsU32(graphicsFamily), AsU32(presentFamily)])
    else
      Sharing(SharingExclusive, [])
  }

  /** For indices the searches can return (-1 or a family index below
      `UINT32_MAX`), differing indices give exactly two distinct list entries,
      each the family's own index when one was found. */
  lemma ConcurrentListsTwoDistinctFamilies(graphicsFamily: int, presentFamily: int)
    requires -1 <= graphicsFamily < UINT32_MAX && -1 <= presentFamily < UINT32_MAX
    requires graphicsFamily != presentFamily
    ensures var s := SharingFor(graphicsFamily, presentFamily);
            && s.mode == SharingConcurrent
            && |s.familyIndices| == 2
            && s.familyIndices[0] != s.familyIndices[1]
            && (0 <= graphicsFamily ==> s.familyIndices[0] == graphicsFamily)
            && (0 <= presentFamily ==> s.familyIndices[1] == presentFamily)
  {
  }
}
