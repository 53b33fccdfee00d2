/** Host and board together, running: the host's flash loop at one end of the line, the board's
    receive loop at the other. */
module DfuTransfer {
  import opened Bytes
  import opened Crc
  import opened Storage
  import opened Packet
  import opened Dfu
  import opened DfuSafety
  import opened DfuReceiver
  import opened DfuSender

  /** Flashes `image` onto a board that waits for the trigger, with noise around the key. */
  method Update(r: Receiver, image: seq<byte>, before: seq<Rx>, after: seq<Rx>, anyCrc: Register, anyExpected: u32)
    returns (ending: Ending)
    requires r.Valid() && Noise(before) && Noise(after)
    requires MARKER_OFFSET + 4 <= |image| <= MAX_IMAGE && WordAt(image, MARKER_OFFSET) == APP_MAGIC
    modifies r, r.sector, r.ctx
    ensures r.Valid() && ending == Ended && r.s.phase == Done
    ensures Holds(r.world.flash, Target(old(r.world)), image) && CommittedTo(old(r.world), r.world, r.s)
  {
    hide Script, Carries, Transmit, Receive, Holds, CommittedTo, Transmission, Noise, WordAt, Target;
    var ok, sent := FlashImage(image);
    var line := new Line(before + OnLine(TRIGGER_BYTES) + after + OnLine(sent));
    TransmissionQuiet(image);
    EndToEnd(r.world, Unstarted(anyCrc, anyExpected, r.sector[..]), before, after, Script(image), image);
    ending := ReceiveSession(r, line, anyCrc, anyExpected);
  }
}
