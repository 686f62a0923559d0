/** The client's shared types (`web/src/types/chat.ts`). */
module ChatTypes {

  /** A chat message as the client holds it: the timestamp is the ISO string the hub sent. */
  datatype Message = Message(user: string, message: string, timestamp: string)

  /** The connection status shown in the header. */
  datatype ConnectionStatus = Connecting | Connected | Reconnecting | Disconnected
}
