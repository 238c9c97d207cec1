// Why a run stops. Every failed check stops the run; nothing is retried.

module Outcomes {
  datatype Stop =
    | PlanRefused            // a planned range is not in the allowlist
    | DoesNotFit             // a payload is not sector aligned or leaves its partition
    | ImagesIncomplete       // not exactly boot, dtbo, vendor, system
    | PayloadDiffers         // a payload file is not the one its kit describes
    | Incompatible           // the new build cannot boot the existing data
    | PolicyRefused          // a combination of mode, backup policy and flags
    | DeviceFailed           // a device operation did not complete
    | CaptureFailed          // the capture directory took no more writes
    | CaptureFileExists      // refusing to overwrite a capture file
    | StreamBroken           // the payload file ended early
    | StreamTooLong
    | StreamTooShort
    | GptDiffers
    | GptRejected
    | VbmetaDiffers
    | DevinfoDiffers
    | UnknownBootMessage
    | UnstableRead           // a second read differs
    | InvalidImageLength
    | AlreadyInstalled
    | UnexpectedBuild
    | ReadbackDiffers
    | ProtectedChanged
    | NotACapture            // no manifest, wrong kind, wrong mode, wiped
    | LayoutDiffers          // the capture was made with another layout
    | SavedFileDiffers       // a saved partition is not what the manifest says

  datatype Outcome = Pass | Stopped(why: Stop) {
    predicate IsFailure() { Stopped? }

    function PropagateFailure(): Outcome
      requires Stopped?
    {
      this
    }
  }
}
