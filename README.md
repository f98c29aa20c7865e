# Vulkan bootstrap negotiation

This project models the capability negotiation that the `main` function of
`src/main.c` performs before it creates a Vulkan device and swapchain, and
proves properties of it. There are seven decisions:

1. **Validation layers.** Every requested layer name must equal some layer
   the platform reports. If validation is enabled but not possible, the
   program stops before creating an instance. Otherwise the instance gets the
   windowing system's required extensions, plus `VK_EXT_debug_utils` and the
   requested layers when validation is enabled.
2. **Device selection (first fit).** The chosen device is the first, in
   enumeration order, that has `shaderInt16`, offers `VK_KHR_swapchain`, and
   reports at least one surface format and at least one present mode. Zero
   devices, or no such device, is fatal.
3. **Surface format.** A lone UNDEFINED entry means any format is accepted,
   and B8G8R8A8_UNORM / SRGB_NONLINEAR is used. Otherwise that pair is used if
   it appears anywhere in the list, and the first entry if it does not.
4. **Present mode.** IMMEDIATE if offered, else MAILBOX if offered, else FIFO.
5. **Swap extent.** The surface's current extent is used, unless its width is
   the `UINT32_MAX` sentinel. In that case each component is the window's size
   fitted into the surface's minimum and maximum.
6. **Queue families.** The graphics family is the first whose flags include
   GRAPHICS. As written, the present family is the first whose
   surface-support query succeeds, whatever `presentSupport` it reports
   (`QueueFamilies.FindPresentFamilyAsWritten`). `Bootstrap.Negotiate` uses
   the corrected search instead, `QueueFamilies.FindPresentFamily`: the first
   family whose query succeeds and reports support (see Findings). Either
   index is -1 when none qualifies, and neither rejects the device.
7. **Image count and sharing.** The image count is `minImageCount + 1`
   (`uint32_t`), capped at `maxImageCount` when that is nonzero. Sharing is
   exclusive when the two families are equal. Otherwise it is concurrent and
   lists the graphics family, then the present family.

Each step that the program runs as a loop, or as in-place reassignments, is a
method in that shape. It is proved equal to a specification function, and
lemmas state the properties of that function. `Bootstrap.Negotiate` chains the
steps in program order.

Enumerations are datatypes. An `...Other(code)` constructor stands for every
enumerant the code does not name, and its code type excludes the named
enumerants' values, so datatype equality is the C `==` on the enum. Names are
strings compared with `==`, which is `strcmp(...) == 0`. The window size
(`WINDOW_WIDTH`, `WINDOW_HEIGHT`) comes from `src/main.h`, which is not part of
this model; it is a parameter. The platform's query results are inputs: layer
names, the windowing system's extension list, and per device its features,
extensions, surface details and queue families.

Where the code departs from what it evidently intends, the model follows the
code, except where a bullet says otherwise:
- A device lacking a graphics queue family is not rejected. The index -1 is
  passed on to device creation.
- The present-family search does not read `presentSupport`. Only
  `QueueFamilies.FindPresentFamilyAsWritten` follows the code here;
  `Bootstrap.Negotiate` uses the corrected search (see Findings), so its
  present family, and with it the sharing mode, differ from the program's
  when the first family whose query succeeds reports no support.
- Every failure path other than the `glfwInit` check (lines 63-67, which
  calls `glfwTerminate`) and the window check exits without releasing
  anything. The window check at lines 857-866 destroys only the surface, the
  device and the instance, so the debug messenger, swapchain, image views,
  shader modules and pipeline layout leak.

## Model

| member | source | states |
|---|---|---|
| `Names.AllRequiredAvailable` | src/main.c:117-137 | The flag is true iff every required name equals some available name. It is false when something is required and nothing is available. The device-extension check at lines 319-340 is the same scan. |
| `Validation.InstanceSetup` | src/main.c:165-193 | Fails iff validation is enabled and not possible. Enabled: the extensions are the window list followed by the debug-utils name (count + 1) and the layers are the requested ones. Disabled: exactly the window list and no layers. |
| `DeviceSelection.SelectPhysicalDevice` | src/main.c:264-402 | Succeeds iff some device is suitable, and then returns the first suitable device with its own swapchain details. Fails with "no physical devices" on an empty list, else "no suitable device". |
| `FirstMatch.FirstWhere` | src/main.c:519-529 | The first-match search: -1 iff no element qualifies; otherwise the element at the index qualifies and none before it does. |
| `SurfaceFormats.ChooseSurfaceFormat` | src/main.c:406-438 | The scan with its flag and fallback returns the preferred format: the default pair for a lone UNDEFINED entry or when the pair is listed, else the first entry. |
| `SurfaceFormats.ChosenFormatIsOffered` | src/main.c:406-438 | The chosen format is the default pair or a listed one. It is the default pair iff any format is accepted or the pair is listed, at any position. Otherwise it is the first entry. |
| `PresentModes.ChoosePresentMode` | src/main.c:445-469 | The two overwrite passes return IMMEDIATE if offered, else MAILBOX if offered, else FIFO. |
| `PresentModes.ChosenPresentModeIsOffered` | src/main.c:445-469 | The mode is FIFO or an offered one. Each of IMMEDIATE, MAILBOX and FIFO is chosen exactly under its priority condition. |
| `SwapExtent.ChooseSwapExtent` | src/main.c:480-500 | The min-then-max reassignments give the current extent, or on the sentinel each window component clamped into [min, max] with the minimum winning on an empty range. |
| `SwapExtent.SwapExtentWithinLimits` | src/main.c:480-500 | On the sentinel each component is at least the minimum and at most the maximum when min <= max. It is the window's size when that fits, and the nearer limit when not. Without the sentinel the current extent is used verbatim. |
| `QueueFamilies.FindGraphicsFamily` | src/main.c:519-529 | The first family whose flags include GRAPHICS, else -1. |
| `QueueFamilies.FindPresentFamilyAsWritten` | src/main.c:533-545 | The first family whose surface-support query returns VK_SUCCESS, else -1; `presentSupport` is not consulted. |
| `QueueFamilies.FindPresentFamily` | src/main.c:533-545 | The first family whose query succeeds and reports support, else -1. |
| `QueueFamilies.PresentSupportIgnored` | src/main.c:536-544 | Families [succeeds without support, succeeds with support]: the search as written picks family 0, which cannot present; the intended search picks 1. |
| `QueueFamilies.PresentFamilyRefinesAsWritten` | src/main.c:533-545 | The intended index is -1 iff no family can present, and otherwise names one that reports support. It is never before the as-written index, and equals it when every successful query reports support. |
| `SwapchainSetup.ChooseImageCount` | src/main.c:610-615 | The `uint32_t` sum and cap give `ImageCountFor`: min + 1, lowered to a nonzero max below it, and 0 when min + 1 wraps. |
| `SwapchainSetup.ImageCountWithinLimits` | src/main.c:610-615 | The count never exceeds a nonzero maximum. It is exactly min + 1 when there is no maximum or it leaves room, and the maximum otherwise. |
| `SwapchainSetup.SharingFor` | src/main.c:628-642 | Exclusive iff the indices are equal, with no family list. Concurrent otherwise, listing [graphics, present] converted to `uint32_t`. |
| `SwapchainSetup.ConcurrentListsTwoDistinctFamilies` | src/main.c:628-636 | For differing indices the searches can return, the list has exactly two distinct entries, in (graphics, present) order. |
| `NarrowCounters.CounterExactBelow256` | src/main.c:122 | A `uint8_t` counter incremented fewer than 256 times from 0 holds the number of increments. |
| `NarrowCounters.U8ScanNeverExits` | src/main.c:122 | With 256 or more names the `uint8_t` counter satisfies `j < count` after every iteration, and it returns to 0 after 256: the scan never exits. |
| `NarrowCounters.U8ScanExitsBelow256` | src/main.c:122 | With fewer than 256 names the `uint8_t` scan visits indices 0 .. count-1 and exits after exactly `count` iterations. |
| `Bootstrap.Negotiate` | src/main.c:117-642 | Fails with "validation unavailable" iff validation is enabled and impossible, and with "no physical devices" iff it got past that with zero devices. Succeeds iff past that some device is suitable. On success it holds the instance lists, the first suitable device, and that device's format, present mode, extent, queue families, image count and sharing, each as its step specifies. |
| `Scenarios.OneOfTwoLayersMissing` | src/main.c:117-182 | Two layers requested and one available: validation is impossible, and enabled validation fails before instance creation. |
| `Scenarios.ExtentClampedToSurfaceLimits` | src/main.c:482-500 | With the sentinel and limits 64..4096, a window of 8000 gives 4096 and a window of 10 gives 64. |
| `Scenarios.SkipsDeviceWithoutShaderInt16` | src/main.c:297-306 | A device without `shaderInt16` enumerated first is skipped, and the suitable second device is selected. |

## Left out

- GLFW (initialisation, error callback, window creation, the Vulkan-support check, the event loop, termination): foreign library calls and user interface.
- Every `vkCreate*` and `vkDestroy*` call (instance, debug messenger, surface, device, queues, swapchain, images, image views, shader modules, pipeline layout) and their status codes: opaque foreign calls. The model stops at the swapchain's create-info fields it negotiates.
- Teardown: most failure paths call `exit` without releasing anything, the window check at lines 857-866 releases only the surface, the device and the instance, and the success-path destroy order at lines 885-911 is not the reverse of creation. No resource chain is modelled.
- The fixed pipeline state (viewport, rasteriser, blending and so on), shader file loading and the shader-length check: constant assignments, floating point and file I/O.
- The debug-message callback and every `printf`/`fprintf`: logging only.
- How the debug extension is appended (written past the array the windowing library returned) and the `malloc`s for the detail arrays: only the resulting lists are modelled.
- `currentTransform`, `compositeAlpha`, `clipped` and the image usage: copied or constant, with no decision involved.
- Names.AllRequiredAvailable: counts with unbounded integers, not the source's `uint8_t`, so it terminates on any list length. The source's counter is modelled separately in `NarrowCounters` (see Findings).
- Bootstrap.Negotiate: assumes at most 255 instance layers and at most 255 instance extensions. The listing loops at lines 111 and 217 count with a `uint8_t`, so with 256 or more layers the program hangs at line 111, before the layer check, and with 256 or more instance extensions it hangs at line 217, after instance creation and before device selection; the model returns a result in both cases.
- DeviceSelection.SelectPhysicalDevice: assumes every device with `shaderInt16` enumerated up to the chosen one reports at most 255 extensions. The extension scan at line 324 counts with a `uint8_t`, so such a device with 256 or more extensions hangs the program there, while the model goes on to the next device.
- Bootstrap.Negotiate: uses the intended present-family search `FindPresentFamily`, not the as-written one (see Findings).
- QueueFamilies.FindGraphicsFamily: the index is an unbounded integer. The source's `int32_t` cannot hold an index of 2^31 or more, but the `!=` test and the `uint32_t` conversion behave the same for every index a `uint32_t` count allows.

## Findings

| source | as written | input that shows it | evidently intended | confidence | as-written member | corrected member |
|---|---|---|---|---|---|---|
| src/main.c:533-545 | The present family is the first whose `vkGetPhysicalDeviceSurfaceSupportKHR` call returns VK_SUCCESS. The `presentSupport` flag it writes is never read. | Two queue families; both queries succeed, family 0 reports no support, family 1 reports support. Family 0 is chosen. | The first family whose query succeeds and reports `presentSupport` | not executed; high | `QueueFamilies.PresentSupportIgnored` | `QueueFamilies.FindPresentFamily` |
| src/main.c:122 | The layer scan counts with a `uint8_t` against a `uint32_t` length, as do the layer listing at line 111, the instance-extension listing at line 217 and the device-extension scan at line 324. | 256 or more available layers: the counter wraps from 255 to 0, and the listing loop at line 111 is the first that never exits (the scan at line 122 is never reached). 256 or more instance extensions: line 217 never exits. A device with `shaderInt16` reporting 256 or more extensions: line 324 never exits. | A counter as wide as the count, so the scan ends after `count` iterations | not executed; high | `NarrowCounters.U8ScanNeverExits` | `Names.AllRequiredAvailable` |
