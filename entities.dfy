/**
 * The JSON records the server stores and the client displays. A field that a
 * record may lack is an `Option`; a list field that may be missing is an
 * `Option<seq<...>>` and reads as empty where the code writes `x || []`.
 */
module Entities {
  import opened Wrappers
  import opened Text
  import opened Listing

  /**
   * A chat message. Messages the server creates carry `sender`, `text`,
   * `msgType` (the JSON key `type`), `file`, `originalName`, `size` and
   * `createdAt`; messages the chat view builds locally carry `time`; a
   * message may also carry `replyTo`, `fileUrl` and a reaction tally
   * (a missing tally is the empty map).
   */
  datatype Message = Message(
    id: string,
    sender: Option<string>,
    text: Option<string>,
    msgType: Option<string>,
    file: Option<string>,
    originalName: Option<string>,
    size: Option<nat>,
    createdAt: Option<string>,
    time: Option<string>,
    fileUrl: Option<string>,
    replyTo: Option<string>,
    reactions: map<string, nat>)

  datatype Chat = Chat(
    id: string,
    members: Option<seq<string>>,
    name: Option<string>,
    avatar: Option<string>,
    messages: Option<seq<Message>>)

  /** A grade record: a JSON object, keyed by field name (`id`, `value`, ...). */
  type Grade = map<string, string>

  datatype User = User(
    id: string,
    name: Option<string>,
    email: Option<string>,
    password: Option<string>,
    role: Option<string>,
    blocked: bool,
    grades: Option<seq<Grade>>)

  /** The reserved id of the assistant chat and of the assistant user. */
  const BotChatId: string := "bot-chat"
  const BotUserId: string := "bot"

  /** `chat.members || []` */
  function MembersOf(c: Chat): seq<string> {
    c.members.GetOr([])
  }

  /** `chat.messages || []` */
  function MessagesOf(c: Chat): seq<Message> {
    c.messages.GetOr([])
  }

  /** `m.text || ''` */
  function TextOf(m: Message): string {
    OrElse(m.text, "")
  }

  /** The first chat with the given id (`chats.find({ id })`). */
  function FindChat(chats: seq<Chat>, id: string): (r: Option<nat>)
    ensures r.Some? ==> r.value < |chats| && chats[r.value].id == id
  {
    Find(chats, (c: Chat) => c.id == id)
  }

  lemma FindChatFirst(chats: seq<Chat>, id: string)
    ensures FindChat(chats, id).Some? ==> forall k :: 0 <= k < FindChat(chats, id).value ==> chats[k].id != id
    ensures FindChat(chats, id).None? <==> forall k :: 0 <= k < |chats| ==> chats[k].id != id
  {
    FindFirst(chats, (c: Chat) => c.id == id);
  }

  /** A chat of the list is always found, at its own index or before it. */
  lemma FindChatFound(chats: seq<Chat>, i: nat)
    requires i < |chats|
    ensures FindChat(chats, chats[i].id).Some? && FindChat(chats, chats[i].id).value <= i
  {
    FindChatFirst(chats, chats[i].id);
  }

  /** The first user with the given id (`users.find({ id })`). */
  function FindUser(users: seq<User>, id: string): (r: Option<nat>)
    ensures r.Some? ==> r.value < |users| && users[r.value].id == id
  {
    Find(users, (u: User) => u.id == id)
  }

  lemma FindUserFirst(users: seq<User>, id: string)
    ensures FindUser(users, id).Some? ==> forall k :: 0 <= k < FindUser(users, id).value ==> users[k].id != id
    ensures FindUser(users, id).None? <==> forall k :: 0 <= k < |users| ==> users[k].id != id
  {
    FindFirst(users, (u: User) => u.id == id);
  }
}
