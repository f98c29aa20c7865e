/** Capability data the platform hands back to the bootstrap code, as values.
    Every enumeration of the graphics API that the negotiation compares against
    is a datatype; an `...Other(code)` constructor stands for every enumerant
    the code never names, and its code type excludes the named ones, so that
    datatype equality is exactly the C enum comparison. */
module VkTypes {

  const UINT32_MAX: int := 0xFFFF_FFFF

  /** A `uint32_t` value. */
  type u32 = x: int | 0 <= x <= UINT32_MAX

  /** Truncating conversion of an integer to `uint32_t` (C assignment semantics). */
  function AsU32(x: int): (r: u32)
    ensures 0 <= x <= UINT32_MAX ==> r == x
    ensures x == -1 ==> r == UINT32_MAX
  {
    x % (UINT32_MAX + 1)
  }

  /** Codes of `VkFormat` other than UNDEFINED (0) and B8G8R8A8_UNORM (44). */
  type OtherFormatCode = c: int | c != 0 && c != 44 witness 1

  datatype Format =
    | FormatUndefined
    | FormatB8G8R8A8Unorm
    | FormatOther(formatCode: OtherFormatCode)

  /** Codes of `VkColorSpaceKHR` other than SRGB_NONLINEAR (0). */
  type OtherColorSpaceCode = c: int | c != 0 witness 1

  datatype ColorSpace =
    | ColorSpaceSrgbNonlinear
    | ColorSpaceOther(colorSpaceCode: OtherColorSpaceCode)

  /** One entry of the surface-format list (`VkSurfaceFormatKHR`). */
  datatype SurfaceFormat = SurfaceFormat(format: Format, colorSpace: ColorSpace)

  /** Codes of `VkPresentModeKHR` other than IMMEDIATE (0), MAILBOX (1) and FIFO (2). */
  type OtherPresentModeCode = c: int | c != 0 && c != 1 && c != 2 witness 3

  datatype PresentMode =
    | PresentModeImmediate
    | PresentModeMailbox
    | PresentModeFifo
    | PresentModeOther(presentModeCode: OtherPresentModeCode)

  datatype Extent2D = Extent2D(width: u32, height: u32)

  /** The fields of `VkSurfaceCapabilitiesKHR` that the negotiation reads. */
  datatype SurfaceCapabilities = SurfaceCapabilities(
    minImageCount: u32,
    maxImageCount: u32,
    currentExtent: Extent2D,
    minImageExtent: Extent2D,
    maxImageExtent: Extent2D)

  /** A `VkResult`: VK_SUCCESS (0) or any other status code. */
  type NonZeroCode = c: int | c != 0 witness -1

  datatype Status = VkSuccess | VkFailed(statusCode: NonZeroCode)

  const QUEUE_GRAPHICS_BIT: bv32 := 1

  /** What `vkGetPhysicalDeviceSurfaceSupportKHR` returned for one queue family
      and the window's surface: its status code and the `presentSupport` flag
      it wrote back. */
  datatype SurfaceSupportQuery = SurfaceSupportQuery(status: Status, presentSupport: bool)

  /** One entry of the queue-family list (only `queueFlags` is read), with the
      answer to the surface-support query for that family's index. */
  datatype QueueFamily = QueueFamily(queueFlags: bv32, surfaceSupport: SurfaceSupportQuery)

  /** The surface queries for one device: capabilities, formats and present modes. */
  datatype SwapchainDetails = SwapchainDetails(
    capabilities: SurfaceCapabilities,
    formats: seq<SurfaceFormat>,
    presentModes: seq<PresentMode>)

  /** Everything the bootstrap code learns about one physical device. */
  datatype PhysicalDevice = PhysicalDevice(
    shaderInt16: bool,
    extensions: seq<string>,
    details: SwapchainDetails,
    queueFamilies: seq<QueueFamily>)

  datatype SharingMode = SharingExclusive | SharingConcurrent

  /** The sharing fields of the swapchain create-info. */
  datatype Sharing = Sharing(mode: SharingMode, familyIndices: seq<u32>)
}

module Outcomes {
  /** The fatal outcomes of the negotiation. */
  datatype BootstrapError =
    | ValidationLayersUnavailable   // validation enabled, a requested layer missing
    | NoPhysicalDevices             // the platform reports zero devices
    | NoSuitableDevice              // no device passes every filter

  datatype Result<+T, +E> = Success(value: T) | Failure(error: E)
}
