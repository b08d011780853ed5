/**
 * The new-chat dialog: the loaded users without the current user, and the
 * list it renders, which is the assistant followed by the users, narrowed by
 * a case-insensitive name search and again without the current user.
 */
module NewChatModal {
  import opened Wrappers
  import opened Text
  import opened Listing
  import opened Entities

  /** `botUser` */
  const BotUser: User := User(BotUserId, Some("ChatGPT Бот"), None, None, None, false, None)

  /** `u.id !== currentUserId`; an absent current user id differs from every id. */
  predicate NotCurrent(u: User, currentUserId: Option<string>) {
    currentUserId.None? || u.id != currentUserId.value
  }

  /** `data.filter(u => u.id !== currentUserId)` */
  function LoadedUsers(data: seq<User>, currentUserId: Option<string>): (r: seq<User>)
    ensures forall i :: 0 <= i < |r| ==> NotCurrent(r[i], currentUserId)
  {
    Filter(data, (u: User) => NotCurrent(u, currentUserId))
  }

  predicate Listed(u: User, search: string, currentUserId: Option<string>) {
    u.name.Some? && ContainsCI(u.name.value, search) && NotCurrent(u, currentUserId)
  }

  /** What the dialog renders: nothing when closed, a failure when some user has no name (`u.name.toLowerCase()` throws), else the list. */
  datatype View = Hidden | Failed | Shown(list: seq<User>)

  function Render(isOpen: bool, users: seq<User>, search: string, currentUserId: Option<string>): (v: View)
    ensures !isOpen <==> v == Hidden
    ensures v == Failed <==> isOpen && exists u :: u in users && u.name.None?
  {
    if !isOpen then Hidden
    else if exists u :: u in users && u.name.None? then Failed
    else Shown(Entries(users, search, currentUserId))
  }

  /** `[botUser, ...users].filter(u => ...)` */
  function Entries(users: seq<User>, search: string, currentUserId: Option<string>): seq<User> {
    Filter([BotUser] + users, (u: User) => Listed(u, search, currentUserId))
  }

  /** The list never contains the current user, and holds exactly the bot and the users that pass the search. */
  lemma EntriesExcludeCurrent(users: seq<User>, search: string, currentUserId: Option<string>)
    ensures forall u :: u in Entries(users, search, currentUserId) ==> NotCurrent(u, currentUserId)
    ensures forall u :: u in Entries(users, search, currentUserId) <==>
              (u == BotUser || u in users) && Listed(u, search, currentUserId)
  {
    var all := [BotUser] + users;
    FilterMembers(all, (u: User) => Listed(u, search, currentUserId));
    assert forall u :: u in all <==> u == BotUser || u in users;
  }

  /** The list is the bot, when it matches, followed by the matching users in loaded order. */
  lemma BotFirst(users: seq<User>, search: string, currentUserId: Option<string>)
    ensures var rest := Filter(users, (u: User) => Listed(u, search, currentUserId));
            Entries(users, search, currentUserId) == (if Listed(BotUser, search, currentUserId) then [BotUser] + rest else rest)
  {
    FilterConcat([BotUser], users, (u: User) => Listed(u, search, currentUserId));
    assert Filter([BotUser], (u: User) => Listed(u, search, currentUserId))
        == (if Listed(BotUser, search, currentUserId) then [BotUser] else []);
  }

  /** Every loaded user passes the empty search when every user has a name. */
  lemma LoadedUsersListed(data: seq<User>, currentUserId: Option<string>)
    requires forall u :: u in data ==> u.name.Some?
    ensures forall i :: 0 <= i < |LoadedUsers(data, currentUserId)| ==> Listed(LoadedUsers(data, currentUserId)[i], "", currentUserId)
  {
    var users := LoadedUsers(data, currentUserId);
    FilterMembers(data, (u: User) => NotCurrent(u, currentUserId));
    forall i | 0 <= i < |users| ensures Listed(users[i], "", currentUserId) {
      assert users[i] in users;
      ContainsCIEmpty(users[i].name.value);
    }
  }

  /** With the empty search, a list whose users all pass is shown in full after the bot. */
  lemma EmptySearchEntries(users: seq<User>, currentUserId: Option<string>)
    requires forall i :: 0 <= i < |users| ==> Listed(users[i], "", currentUserId)
    requires currentUserId != Some(BotUserId)
    ensures Entries(users, "", currentUserId) == [BotUser] + users
  {
    ContainsCIEmpty(BotUser.name.value);
    BotFirst(users, "", currentUserId);
    FilterAll(users, (u: User) => Listed(u, "", currentUserId));
  }

  /** With an empty search and loaded users, every loaded user is listed after the bot. */
  lemma EmptySearchListsEveryone(data: seq<User>, currentUserId: Option<string>)
    requires forall u :: u in data ==> u.name.Some?
    requires currentUserId != Some(BotUserId)
    ensures Render(true, LoadedUsers(data, currentUserId), "", currentUserId)
         == Shown([BotUser] + LoadedUsers(data, currentUserId))
  {
    var users := LoadedUsers(data, currentUserId);
    LoadedUsersListed(data, currentUserId);
    EmptySearchEntries(users, currentUserId);
    forall u | u in users ensures u.name.Some? {
      var i :| 0 <= i < |users| && users[i] == u;
    }
  }
}
