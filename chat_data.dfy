/** The selected chat as the chat box components read it from the store. */
module ChatData {
  import opened Wrappers

  /** A chat member: `_id`, `name`, `email` and `pic`. */
  datatype Participant = Participant(id: string, name: string, email: string, pic: string)

  /** `groupAdmin` is absent on a direct chat. */
  datatype Chat = Chat(chatName: string, isGroupChat: bool, users: seq<Participant>, groupAdmin: Option<string>)

  /** The test `groupAdmin` applies to each participant: ids compared with `===`. */
  predicate IsAdmin(chat: Chat, u: Participant) {
    chat.groupAdmin == Some(u.id)
  }
}
