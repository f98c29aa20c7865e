/** The graphics and present queue-family searches on the selected device.
    An index is -1 when no family qualifies; neither search rejects the device. */
module QueueFamilies {
  import opened VkTypes
  import opened FirstMatch

  predicate HasGraphics(family: QueueFamily)
  {
    family.queueFlags & QUEUE_GRAPHICS_BIT != 0
  }

  /** The test the source applies: the support query returned VK_SUCCESS. */
  predicate QuerySucceeded(family: QueueFamily)
  {
    family.surfaceSupport.status == VkSuccess
  }

  /** The evidently intended test: the query succeeded and reported that the
      family can present to the surface. */
  predicate CanPresent(family: QueueFamily)
  {
    family.surfaceSupport.status == VkSuccess && family.surfaceSupport.presentSupport
  }

  /** First family whose flags include GRAPHICS, else -1. */
  method FindGraphicsFamily(families: seq<QueueFamily>) returns (index: int)
    ensures index == FirstWhere(families, HasGraphics)
  {
    index := -1;
    var i := 0;
    while i < |families|
      invariant 0 <= i <= |families|
      invariant forall k :: 0 <= k < i ==> !HasGraphics(families[k])
    {
      if families[i].queueFlags & QUEUE_GRAPHICS_BIT != 0 {
        FirstWhereIsUnique(families, HasGraphics, i);
        index := i;
        break;
      }
      i := i + 1;
    }
  }

  /** The present search as written: the support query's status is compared
      with VK_SUCCESS and the `presentSupport` it wrote back is never read, so
      the first family whose query succeeds is taken. */
  method FindPresentFamilyAsWritten(families: seq<QueueFamily>) returns (index: int)
    ensures index == FirstWhere(families, QuerySucceeded)
  {
    index := -1;
    var i := 0;
    while i < |families|
      invariant 0 <= i <= |families|
      invariant forall k :: 0 <= k < i ==> !QuerySucceeded(families[k])
    {
      var supportResult := families[i].surfaceSupport;
      if supportResult.status == VkSuccess {
        FirstWhereIsUnique(families, QuerySucceeded, i);
        index := i;
        break;
      }
      i := i + 1;
    }
  }

  /** The present search with `presentSupport` read: the first family whose
      query succeeds and reports support. */
  method FindPresentFamily(families: seq<QueueFamily>) returns (index: int)
    ensures index == FirstWhere(families, CanPresent)
  {
    index := -1;
    var i := 0;
    while i < |families|
      invariant 0 <= i <= |families|
      invariant forall k :: 0 <= k < i ==> !CanPresent(families[k])
    {
      var supportResult := families[i].surfaceSupport;
      if supportResult.status == VkSuccess && supportResult.presentSupport {
        FirstWhereIsUnique(families, CanPresent, i);
        index := i;
        break;
      }
      i := i + 1;
    }
  }

  /** Two families whose queries both succeed, the first reporting no
      support: the search as written picks family 0, which cannot present to
      the surface, while the intended search picks family 1. */
  lemma PresentSupportIgnored()
    ensures var families := [QueueFamily(QUEUE_GRAPHICS_BIT, SurfaceSupportQuery(VkSuccess, false)),
                             QueueFamily(QUEUE_GRAPHICS_BIT, SurfaceSupportQuery(VkSuccess, true))];
            && FirstWhere(families, QuerySucceeded) == 0
            && !CanPresent(families[0])
            && FirstWhere(families, CanPresent) == 1
  {
  }

  /** The intended search finds a family able to present whenever one exists,
      and never a family that cannot; it agrees with the search as written on
      every device whose successful queries all report support, and otherwise
      never stops earlier than it. */
  lemma PresentFamilyRefinesAsWritten(families: seq<QueueFamily>)
    ensures var p := FirstWhere(families, CanPresent);
            (p == -1 <==> forall k :: 0 <= k < |families| ==> !CanPresent(families[k]))
            && (0 <= p ==> families[p].surfaceSupport.presentSupport)
    ensures var w, p := FirstWhere(families, QuerySucceeded), FirstWhere(families, CanPresent);
            0 <= p ==> 0 <= w <= p
    ensures (forall k :: 0 <= k < |families| && QuerySucceeded(families[k]) ==> families[k].surfaceSupport.presentSupport)
            ==> FirstWhere(families, QuerySucceeded) == FirstWhere(families, CanPresent)
  {
  }
}
