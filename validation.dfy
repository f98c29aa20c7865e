/** Validation layers and the instance's extension and layer lists. */
module Validation {
  import opened Outcomes

  /** The layers requested when validation is enabled. */
  const REQUESTED_LAYERS: seq<string> := ["VK_LAYER_LUNARG_standard_validation"]

  /** `VK_EXT_DEBUG_UTILS_EXTENSION_NAME`, added to the windowing system's list
      when validation is enabled. */
  const DEBUG_UTILS_EXTENSION_NAME: string := "VK_EXT_debug_utils"

  /** The extension and layer lists passed to instance creation. */
  datatype InstanceInfo = InstanceInfo(extensions: seq<string>, layers: seq<string>)

  /** The instance create-info: with validation enabled, the windowing
      system's required extensions followed by the debug-utils extension, and
      the requested layers; with it disabled, exactly the windowing system's
      extensions and no layers. Validation that is enabled but not possible
      is fatal before any instance exists. */
  function InstanceSetup(validationEnabled: bool, validationPossible: bool,
                         windowExtensions: seq<string>): (r: Result<InstanceInfo, BootstrapError>)
    ensures r.Failure? <==> validationEnabled && !validationPossible
    ensures r.Failure? ==> r.error == ValidationLayersUnavailable
    ensures r.Success? ==>
      && |r.value.extensions| == |windowExtensions| + (if validationEnabled then 1 else 0)
      && r.value.extensions[..|windowExtensions|] == windowExtensions
      && (validationEnabled ==> r.value.extensions[|windowExtensions|] == DEBUG_UTILS_EXTENSION_NAME)
      && r.value.layers == (if validationEnabled then REQUESTED_LAYERS else [])
  {
    var extensions :=
      if validationEnabled then windowExtensions + [DEBUG_UTILS_EXTENSION_NAME]
      else windowExtensions;
    if validationEnabled && !validationPossible then
      Failure(ValidationLayersUnavailable)
    else if validationEnabled then
      Success(InstanceInfo(extensions, REQUESTED_LAYERS))
    else
      Success(InstanceInfo(extensions, []))
  }
}
