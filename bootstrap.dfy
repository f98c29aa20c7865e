/** The negotiation steps of the bootstrap sequence, chained in the order the
    program runs them: validation-layer check and instance lists, device
    selection, then the swapchain configuration of the chosen device. */
module Bootstrap {
  import opened VkTypes
  import opened Outcomes
  import opened FirstMatch
  import Names
  import opened Validation
  import opened DeviceSelection
  import opened SurfaceFormats
  import opened PresentModes
  import opened SwapExtent
  import opened QueueFamilies
  import opened SwapchainSetup

  datatype SwapchainConfig = SwapchainConfig(
    surfaceFormat: SurfaceFormat,
    presentMode: PresentMode,
    extent: Extent2D,
    imageCount: u32,
    graphicsFamily: int,
    presentFamily: int,
    sharing: Sharing)

  datatype Negotiated = Negotiated(instance: InstanceInfo, device: nat, swapchain: SwapchainConfig)

  /** The configuration each step's specification gives for a selected device. */
  function SwapchainConfigFor(device: PhysicalDevice, window: Extent2D): SwapchainConfig
    requires |device.details.formats| > 0
  {
    var graphics := FirstWhere(device.queueFamilies, HasGraphics);
    var present := FirstWhere(device.queueFamilies, CanPresent);
    SwapchainConfig(
      PreferredSurfaceFormat(device.details.formats),
      PreferredPresentMode(device.details.presentModes),
      SwapExtentFor(device.details.capabilities, window),
      ImageCountFor(device.details.capabilities),
      graphics,
      present,
      SharingFor(graphics, present))
  }

  /** Runs the negotiation. Enabled but impossible validation stops before
      instance creation; no device, or no suitable device, stops after it.
      A missing graphics family (-1) does not stop anything. */
  method Negotiate(validationEnabled: bool, availableLayers: seq<string>, windowExtensions: seq<string>,
                   devices: seq<PhysicalDevice>, window: Extent2D)
    returns (r: Result<Negotiated, BootstrapError>)
    ensures r == Failure(ValidationLayersUnavailable)
            <==> validationEnabled && !Names.AllAvailable(REQUESTED_LAYERS, availableLayers)
    ensures r == Failure(NoPhysicalDevices)
            <==> (!validationEnabled || Names.AllAvailable(REQUESTED_LAYERS, availableLayers)) && |devices| == 0
    ensures r.Success?
            <==> (!validationEnabled || Names.AllAvailable(REQUESTED_LAYERS, availableLayers))
                 && FirstWhere(devices, Suitable) != -1
    ensures r.Success? ==>
      && r.value.instance == InstanceSetup(validationEnabled, true, windowExtensions).value
      && r.value.device == FirstWhere(devices, Suitable)
      && r.value.swapchain == SwapchainConfigFor(devices[r.value.device], window)
  {
    var possible := Names.AllRequiredAvailable(REQUESTED_LAYERS, availableLayers);
    var setup := InstanceSetup(validationEnabled, possible, windowExtensions);
    if setup.Failure? {
      return Failure(setup.error);
    }
    var selection := SelectPhysicalDevice(devices);
    if selection.Failure? {
      return Failure(selection.error);
    }
    var selected := selection.value;
    var details := selected.details;
    var surfaceFormat := ChooseSurfaceFormat(details.formats);
    var presentMode := ChoosePresentMode(details.presentModes);
    var extent := ChooseSwapExtent(details.capabilities, window);
    var families := devices[selected.index].queueFamilies;
    var graphics := FindGraphicsFamily(families);
    var present := FindPresentFamily(families);
    var imageCount := ChooseImageCount(details.capabilities);
    var sharing := SharingFor(graphics, present);
    var config := SwapchainConfig(surfaceFormat, presentMode, extent, imageCount, graphics, present, sharing);
    return Success(Negotiated(setup.value, selected.index, config));
  }
}
