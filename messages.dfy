/**
 * The messages the chat server and its sessions exchange (the four
 * `actix::Message` structs of src/server.rs), plus the outbound handle.
 */
module Messages {

  datatype Option<T> = None | Some(value: T)

  /**
   * An actix `Recipient<Message>`: the address of one session actor. The model
   * never looks inside a handle; it only stores, compares and sends to it.
   */
  type Handle(==, !new)

  /** `Message(String)`: a text the server pushes to one session. */
  datatype Message = Message(text: string)

  /** One `do_send(Message(..))` to a recipient; sends never fail in the model. */
  datatype Delivery = Delivery(to: Handle, msg: Message)

  /** The requests a session hands to the chat server's address. */
  datatype Request =
    | Connect(id: string, channel: string, addr: Handle)
    | Disconnect(id: string, channel: string)
    | ClientMessage(id: string, msg: string, channel: string)

  /** The welcome the server sends to a member it has just registered. */
  const ServerJoined: string := "Server: Joined"
}
