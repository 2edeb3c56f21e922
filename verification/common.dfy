/** Small shared datatypes: an optional value and the (state, text) status pair
    that every hook reports through the same `onStatusChange`/`updateStatus` callback. */
module Common {

  /** The conventional optional value, standing for JavaScript's `null`/`undefined`. */
  datatype Option<+T> = None | Some(value: T) {
    function GetOr(default: T): T {
      match this
      case Some(v) => v
      case None => default
    }
  }

  /** The status states the UI shows (`'ready'`, `'connecting'`, ...). */
  datatype StatusKind = Ready | Connecting | Connected | Listening | Processing | Error

  /** A status update: the state and its human-readable text. */
  datatype Status = Status(kind: StatusKind, text: string)
}
