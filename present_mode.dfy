/** Choice of the swapchain's present mode. */
module PresentModes {
  import opened VkTypes

  /** Priority order: IMMEDIATE (no vsync) over MAILBOX (triple buffering)
      over FIFO, which every surface supports and so needs no check. */
  function PreferredPresentMode(modes: seq<PresentMode>): PresentMode
  {
    if PresentModeImmediate in modes then PresentModeImmediate
    else if PresentModeMailbox in modes then PresentModeMailbox
    else PresentModeFifo
  }

  /** The source's two passes: start from FIFO, overwrite with MAILBOX when a
      pass finds it, then overwrite with IMMEDIATE when a second pass finds it. */
  method ChoosePresentMode(modes: seq<PresentMode>) returns (mode: PresentMode)
    ensures mode == PreferredPresentMode(modes)
  {
    mode := PresentModeFifo;
    for i := 0 to |modes|
      invariant mode == (if PresentModeMailbox in modes[..i] then PresentModeMailbox else PresentModeFifo)
    {
      if modes[i] == PresentModeMailbox {
        mode := modes[i];
      }
    }
    assert modes[..|modes|] == modes;
    ghost var afterMailbox := mode;
    for i := 0 to |modes|
      invariant mode == (if PresentModeImmediate in modes[..i] then PresentModeImmediate else afterMailbox)
    {
      if modes[i] == PresentModeImmediate {
        mode := modes[i];
      }
    }
    assert modes[..|modes|] == modes;
  }

  /** The chosen mode is FIFO or one the surface offers; FIFO is chosen only
      when neither IMMEDIATE nor MAILBOX is offered, and MAILBOX only when
      IMMEDIATE is not. */
  lemma ChosenPresentModeIsOffered(modes: seq<PresentMode>)
    ensures PreferredPresentMode(modes) == PresentModeFifo || PreferredPresentMode(modes) in modes
    ensures PreferredPresentMode(modes) == PresentModeImmediate <==> PresentModeImmediate in modes
    ensures PreferredPresentMode(modes) == PresentModeMailbox
            <==> PresentModeImmediate !in modes && PresentModeMailbox in modes
    ensures PreferredPresentMode(modes) == PresentModeFifo
            <==> PresentModeImmediate !in modes && PresentModeMailbox !in modes
  {
  }
}
