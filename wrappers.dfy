/** Option, Result and the error value that the request layer throws. */
module Wrappers {

  datatype Option<+T> = None | Some(value: T) {
    function GetOr(default: T): T {
      match this
      case Some(v) => v
      case None => default
    }
  }

  datatype Result<+R, +E> = Success(value: R) | Failure(error: E)

  /** A thrown JavaScript value: its `name` and its `message`. */
  datatype Fault = Fault(name: string, message: string)

  /** The name a Speech gives the failure of a cancelled `play()`. */
  const CancellationName: string := "CancellationException"

  const BadArgs: Fault := Fault("Error", "Bad args")
  const VoiceNotFound: Fault := Fault("Error", "Voice not found")
  const SpeakerNotFound: Fault := Fault("Error", "Speaker name not found")
  /** What `state.voiceList!.find(...)` throws while the voice list is still null. */
  const VoiceListNotLoaded: Fault := Fault("TypeError", "Cannot read properties of null (reading 'find')")

  predicate IsCancellation(f: Fault) {
    f.name == CancellationName
  }
}
