/** First-fit physical-device selection. */
module DeviceSelection {
  import opened VkTypes
  import opened Outcomes
  import opened FirstMatch
  import Names

  /** `VK_KHR_SWAPCHAIN_EXTENSION_NAME`, the one device extension required. */
  const REQUIRED_DEVICE_EXTENSIONS: seq<string> := ["VK_KHR_swapchain"]

  /** A device is usable when it supports 16-bit shader integers, offers every
      required extension, and reports at least one surface format and at least
      one present mode for the window's surface. */
  predicate Suitable(d: PhysicalDevice)
  {
    && d.shaderInt16
    && Names.AllAvailable(REQUIRED_DEVICE_EXTENSIONS, d.extensions)
    && |d.details.formats| > 0
    && |d.details.presentModes| > 0
  }

  /** The chosen device (its position in enumeration order) and the swapchain
      details queried for it. */
  datatype SelectedDevice = SelectedDevice(index: nat, details: SwapchainDetails)

  /** Walk the devices in the order the platform enumerates them; skip a
      device lacking `shaderInt16`, then one lacking a required extension, then
      (after querying its surface details) one with no formats or no present
      modes; take the first device that survives. No device at all, or none
      surviving, is fatal. */
  method SelectPhysicalDevice(devices: seq<PhysicalDevice>) returns (r: Result<SelectedDevice, BootstrapError>)
    ensures r.Success? <==> FirstWhere(devices, Suitable) != -1
    ensures r.Failure? ==> r.error == (if |devices| == 0 then NoPhysicalDevices else NoSuitableDevice)
    ensures r.Success? ==>
      && r.value.index == FirstWhere(devices, Suitable)
      && r.value.details == devices[r.value.index].details
  {
    if |devices| == 0 {
      return Failure(NoPhysicalDevices);
    }
    var i := 0;
    while i < |devices|
      invariant 0 <= i <= |devices|
      invariant forall k :: 0 <= k < i ==> !Suitable(devices[k])
    {
      var device := devices[i];
      if !device.shaderInt16 {
        i := i + 1;
        continue;
      }
      var extensionsMet := Names.AllRequiredAvailable(REQUIRED_DEVICE_EXTENSIONS, device.extensions);
      if !extensionsMet {
        i := i + 1;
        continue;
      }
      var details := device.details;
      if |details.formats| == 0 || |details.presentModes| == 0 {
        i := i + 1;
        continue;
      }
      FirstWhereIsUnique(devices, Suitable, i);
      return Success(SelectedDevice(i, details));
    }
    return Failure(NoSuitableDevice);
  }
}
