/** Matching required names (validation layers, device extensions) against the
    names the platform reports. A name matches only an identical string:
    `strcmp(...) == 0`, exact and case-sensitive. */
module Names {

  /** Every required name occurs among the available names. */
  predicate AllAvailable(required: seq<string>, available: seq<string>)
  {
    forall i :: 0 <= i < |required| ==> required[i] in available
  }

  /** The nested scan that decides `validationPossible` and
      `devicePhysicalExtensionsRequirementsMet`: for each required name, in order,
      look through every available name and set a found flag on a match; on the
      first required name not found, clear the result flag and stop.
      Counters are unbounded here (see NarrowCounters for the source's uint8_t ones). */
  method AllRequiredAvailable(required: seq<string>, available: seq<string>) returns (met: bool)
    ensures met == AllAvailable(required, available)
    ensures available == [] && required != [] ==> !met
  {
    met := true;
    var i := 0;
    while i < |required|
      invariant 0 <= i <= |required|
      invariant met
      invariant forall k :: 0 <= k < i ==> required[k] in available
    {
      var found := false;
      var j := 0;
      while j < |available|
        invariant 0 <= j <= |available|
        invariant found <==> required[i] in available[..j]
      {
        if required[i] == available[j] {
          found := true;
        }
        j := j + 1;
      }
      assert available[..j] == available;
      if !found {
        met := false;
        break;
      }
      i := i + 1;
    }
    assert met && required != [] ==> required[0] in available;
  }
}
