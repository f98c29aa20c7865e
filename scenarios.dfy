/** Concrete situations the negotiation must handle, stated over the
    specification functions. */
module Scenarios {
  import opened VkTypes
  import opened FirstMatch
  import Names
  import opened Validation
  import opened DeviceSelection
  import opened SwapExtent

  /** Two layers requested, only one available: validation is impossible,
      and with validation enabled the bootstrap fails before any instance. */
  lemma OneOfTwoLayersMissing(windowExtensions: seq<string>)
    ensures !Names.AllAvailable(["VK_LAYER_A", "VK_LAYER_B"], ["VK_LAYER_A"])
    ensures InstanceSetup(true, false, windowExtensions).Failure?
  {
    var requested, available := ["VK_LAYER_A", "VK_LAYER_B"], ["VK_LAYER_A"];
    assert requested[1] != available[0] by {
      assert requested[1][9] != available[0][9];
    }
    assert requested[1] !in available;
  }

  /** A surface that lets the swapchain decide, limits 64..4096: an
      8000-pixel window is cut to 4096 and a 10-pixel one raised to 64. */
  lemma ExtentClampedToSurfaceLimits(current: Extent2D)
    requires current.width == UINT32_MAX
    ensures var caps := SurfaceCapabilities(2, 8, current, Extent2D(64, 64), Extent2D(4096, 4096));
            && SwapExtentFor(caps, Extent2D(8000, 8000)) == Extent2D(4096, 4096)
            && SwapExtentFor(caps, Extent2D(10, 10)) == Extent2D(64, 64)
  {
  }

  /** A device without `shaderInt16` enumerated before a suitable one: the
      suitable one, at position 1, is selected. */
  lemma SkipsDeviceWithoutShaderInt16(details: SwapchainDetails, families: seq<QueueFamily>)
    requires |details.formats| > 0 && |details.presentModes| > 0
    ensures var good := PhysicalDevice(true, REQUIRED_DEVICE_EXTENSIONS, details, families);
            var bad := PhysicalDevice(false, REQUIRED_DEVICE_EXTENSIONS, details, families);
            FirstWhere([bad, good], Suitable) == 1
  {
  }
}
