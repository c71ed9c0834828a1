/** The messages exchanged by the client and the browser thread (browser_msg.h). */
module Messages {

  datatype MsgType =
      // from the browser thread to the client
    | Invalid
    | Json
    | MallocError
    | DbusConnError
    | DbusAddFilterError
    | DbusAddMatchError
    | DbusServiceBrowserError
    | DbusDisconnected
    | AllForNow
    | CacheExhausted
    | Exited
    | InitError
      // from the client
    | Reconnect
    | Exit
    | ExitClean
      // management
    | FlushMarker

  datatype BMsg = BMsg(typ: MsgType, json: string)

  /** A message without a JSON payload. */
  function Simple(typ: MsgType): BMsg {
    BMsg(typ, "")
  }

  lemma SimpleIsPlain(typ: MsgType)
    ensures Simple(typ).typ == typ && |Simple(typ).json| == 0
  {
  }
}
