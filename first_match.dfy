/** The "scan in order, take the first hit, then break" search that the device,
    graphics-family and present-family steps all perform. */
module FirstMatch {

  /** Index of the first element of `s` that satisfies `p`, or -1 when none does. */
  function FirstWhere<T>(s: seq<T>, p: T -> bool): (r: int)
    ensures -1 <= r < |s|
    ensures r == -1 <==> forall k :: 0 <= k < |s| ==> !p(s[k])
    ensures 0 <= r ==> p(s[r]) && forall k :: 0 <= k < r ==> !p(s[k])
    decreases |s|
  {
    if |s| == 0 then -1
    else if p(s[0]) then 0
    else
      var t := FirstWhere(s[1..], p);
      if t == -1 then -1 else t + 1
  }

  /** The first hit is the only index that satisfies `p` with no hit before it:
      a scan that stops at such an index has found `FirstWhere`. */
  lemma FirstWhereIsUnique<T>(s: seq<T>, p: T -> bool, i: int)
    requires 0 <= i < |s| && p(s[i])
    requires forall k :: 0 <= k < i ==> !p(s[k])
    ensures FirstWhere(s, p) == i
  {
  }
}
