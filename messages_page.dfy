/**
 * The messages page: the chat list loaded from the server, with the
 * assistant's chat put in front when no chat has the assistant as a member;
 * the name search over the list; and what choosing a user in the new-chat
 * dialog does.
 */
module MessagesPage {
  import opened Wrappers
  import opened Text
  import opened Listing
  import opened Entities

  /** `BOT_CHAT` (its display-only fields `online` and `lastMessage` are not modelled). */
  const BotChat: Chat := Chat(BotChatId, Some([BotUserId]), Some("ChatGPT Бот"), Some("https://cdn.openai.com/chatgpt/icon.png"), None)

  /** `chats.some(c => c.members && c.members.includes('bot'))` */
  predicate HasBotMember(chats: seq<Chat>) {
    exists i :: 0 <= i < |chats| && BotUserId in MembersOf(chats[i])
  }

  /** The load effect: `serverChats || []`, with `BOT_CHAT` prepended when no chat has the assistant as a member. */
  function WithBotChat(serverChats: Option<seq<Chat>>): seq<Chat> {
    var chats := serverChats.GetOr([]);
    if !HasBotMember(chats) then [BotChat] + chats else chats
  }

  /** The assistant's chat is prepended exactly when missing; either way some chat then has the assistant as a member. */
  lemma WithBotChatExact(serverChats: Option<seq<Chat>>)
    ensures var chats := serverChats.GetOr([]);
            WithBotChat(serverChats) == if HasBotMember(chats) then chats else [BotChat] + chats
    ensures HasBotMember(WithBotChat(serverChats))
    ensures WithBotChat(Some(WithBotChat(serverChats))) == WithBotChat(serverChats)
  {
    var chats := serverChats.GetOr([]);
    if !HasBotMember(chats) {
      var r := [BotChat] + chats;
      assert BotUserId in MembersOf(r[0]);
    }
  }

  /** `chat.name?.toLowerCase().includes(q.toLowerCase())`: a chat without a name is never kept. */
  predicate NameMatches(c: Chat, query: string) {
    c.name.Some? && ContainsCI(c.name.value, query)
  }

  /** `filteredChats` */
  function FilteredChats(chats: seq<Chat>, query: string): seq<Chat> {
    Filter(chats, (c: Chat) => NameMatches(c, query))
  }

  /** Exactly the named chats whose name contains the query are kept, so an unnamed chat is hidden even for the empty query. */
  lemma FilteredChatsExact(chats: seq<Chat>, query: string)
    ensures forall c :: c in FilteredChats(chats, query) <==> c in chats && c.name.Some? && ContainsCI(c.name.value, query)
    ensures forall c :: c in FilteredChats(chats, query) ==> c.name.Some?
    ensures query == "" ==> forall c :: c in FilteredChats(chats, "") <==> c in chats && c.name.Some?
  {
    FilterMembers(chats, (c: Chat) => NameMatches(c, query));
    forall s: string ensures ContainsCI(s, "") {
      ContainsCIEmpty(s);
    }
  }

  /** `chats.some(c => c.id === BOT_CHAT.id)` */
  predicate HasBotChatId(chats: seq<Chat>) {
    exists i :: 0 <= i < |chats| && chats[i].id == BotChatId
  }

  /** Choosing the assistant: `BOT_CHAT` is prepended only if no chat has its id. */
  function AddBotChat(chats: seq<Chat>): seq<Chat> {
    if HasBotChatId(chats) then chats else [BotChat] + chats
  }

  /** After choosing the assistant some chat has its id, and choosing it again adds nothing. */
  lemma AddBotChatOnce(chats: seq<Chat>)
    ensures HasBotChatId(AddBotChat(chats))
    ensures AddBotChat(AddBotChat(chats)) == AddBotChat(chats)
    ensures |AddBotChat(chats)| <= |chats| + 1
  {
    if !HasBotChatId(chats) {
      var r := AddBotChat(chats);
      assert r == [BotChat] + chats && BotChat.id == BotChatId;
      assert 0 < |r| && r[0].id == BotChatId;
    }
  }

  /** The page state the handlers change. */
  class MessagesView {
    var chats: seq<Chat>
    var selectedChat: Option<Chat>
    var newChatOpen: bool
    var loading: bool

    constructor ()
      ensures chats == [] && selectedChat == None && !newChatOpen && loading
    {
      chats := [];
      selectedChat := None;
      newChatOpen := false;
      loading := true;
    }

    /**
     * The load effect for user `userId`. `response` is None when the request
     * fails, otherwise the response body (None for a null body).
     */
    method LoadChats(userId: Option<string>, response: Option<Option<seq<Chat>>>)
      modifies this
      ensures !Truthy(userId) ==> chats == old(chats) && loading == old(loading)
      ensures Truthy(userId) ==> !loading && chats == if response.Some? then WithBotChat(response.value) else old(chats)
      ensures selectedChat == old(selectedChat) && newChatOpen == old(newChatOpen)
    {
      if !Truthy(userId) {
        return;
      }
      loading := true;
      if response.Some? {
        var chatsList := response.value.GetOr([]);
        if !HasBotMember(chatsList) {
          chatsList := [BotChat] + chatsList;
        }
        chats := chatsList;
      }
      loading := false;
    }

    /** `handleCreateChat` */
    method OpenNewChat()
      modifies this
      ensures newChatOpen
      ensures chats == old(chats) && selectedChat == old(selectedChat) && loading == old(loading)
    {
      newChatOpen := true;
    }

    /**
     * `handleSelectUser`. For a user other than the assistant the page asks
     * the server to create a chat of the two users; `created` is the chat the
     * server answers with, or None when the request fails (then an alert is
     * shown and nothing changes).
     */
    method HandleSelectUser(currentUserId: Option<string>, selectedId: Option<string>, created: Option<Chat>)
      returns (request: Option<seq<string>>, alerted: bool)
      modifies this
      ensures !Truthy(currentUserId) || !Truthy(selectedId) ==>
                request == None && !alerted && chats == old(chats) && selectedChat == old(selectedChat) && newChatOpen == old(newChatOpen)
      ensures Truthy(currentUserId) && selectedId == Some(BotUserId) ==>
                request == None && !alerted && chats == AddBotChat(old(chats)) && selectedChat == Some(BotChat) && !newChatOpen
      ensures Truthy(currentUserId) && Truthy(selectedId) && selectedId != Some(BotUserId) ==>
                request == Some([currentUserId.value, selectedId.value])
                && (created.Some? ==> !alerted && chats == [created.value] + old(chats) && selectedChat == created && !newChatOpen)
                && (created.None? ==> alerted && chats == old(chats) && selectedChat == old(selectedChat) && newChatOpen == old(newChatOpen))
      ensures loading == old(loading)
    {
      request, alerted := None, false;
      if !Truthy(currentUserId) || !Truthy(selectedId) {
        return;
      }
      if selectedId.value == BotUserId {
        selectedChat := Some(BotChat);
        newChatOpen := false;
        chats := AddBotChat(chats);
        return;
      }
      request := Some([currentUserId.value, selectedId.value]);
      if created.None? {
        alerted := true;
        return;
      }
      chats := [created.value] + chats;
      selectedChat := created;
      newChatOpen := false;
    }
  }
}
