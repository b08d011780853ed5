/**
 * The user-management page: the list filtered by name and role, removal from
 * the list after a successful delete, and the update payloads of the role
 * change and the block toggle. The outcome of each request is a parameter.
 */
module UsersPage {
  import opened Wrappers
  import opened Text
  import opened Listing
  import opened Entities

  /** The filter keeps a user whose name (missing read as "") contains the search and, unless the role filter is "", whose role equals it. */
  predicate Keeps(u: User, search: string, roleFilter: string) {
    ContainsCI(OrElse(u.name, ""), search) && (roleFilter == "" || u.role == Some(roleFilter))
  }

  /** `filteredUsers` */
  function FilteredUsers(users: seq<User>, search: string, roleFilter: string): seq<User> {
    Filter(users, (u: User) => Keeps(u, search, roleFilter))
  }

  /** Exactly the users passing both conditions are shown, in list order; with both inputs empty everyone is shown. */
  lemma FilteredUsersExact(users: seq<User>, search: string, roleFilter: string)
    ensures forall u :: u in FilteredUsers(users, search, roleFilter) <==>
              u in users && ContainsCI(OrElse(u.name, ""), search) && (roleFilter == "" || u.role == Some(roleFilter))
    ensures search == "" && roleFilter == "" ==> FilteredUsers(users, search, roleFilter) == users
  {
    var p := (u: User) => Keeps(u, search, roleFilter);
    FilterMembers(users, p);
    if search == "" && roleFilter == "" {
      forall i | 0 <= i < |users| ensures p(users[i]) {
        ContainsCIEmpty(OrElse(users[i].name, ""));
      }
      FilterAll(users, p);
    }
  }

  /** `users.filter(u => u.id !== userId)` after a successful delete. */
  function WithoutUser(users: seq<User>, userId: string): seq<User> {
    Filter(users, (u: User) => u.id != userId)
  }

  /** The delete removes exactly the users with that id and keeps the others in order. */
  lemma WithoutUserExact(users: seq<User>, userId: string)
    ensures forall u :: u in WithoutUser(users, userId) <==> u in users && u.id != userId
    ensures (forall u :: u in users ==> u.id != userId) ==> WithoutUser(users, userId) == users
  {
    FilterMembers(users, (u: User) => u.id != userId);
    if forall u :: u in users ==> u.id != userId {
      assert forall i :: 0 <= i < |users| ==> users[i] in users;
      FilterAll(users, (u: User) => u.id != userId);
    }
  }

  /** An update payload: the fields present are the ones the request asks to overwrite. */
  datatype Patch = Patch(role: Option<string>, blocked: Option<bool>)

  /** `{ role: newRole }` */
  function RolePatch(newRole: string): (p: Patch)
    ensures p.role == Some(newRole) && p.blocked == None
  {
    Patch(Some(newRole), None)
  }

  /** `{ blocked: !user.blocked }` */
  function BlockPatch(u: User): (p: Patch)
    ensures p.role == None && p.blocked == Some(!u.blocked)
  {
    Patch(None, Some(!u.blocked))
  }

  /** A user record with the payload's fields overwritten: what the payload asks the server to store. */
  function Merge(u: User, p: Patch): User {
    var withRole := if p.role.Some? then u.(role := p.role) else u;
    if p.blocked.Some? then withRole.(blocked := p.blocked.value) else withRole
  }

  /** The role change touches the role and nothing else. */
  lemma RolePatchOnlyRole(u: User, newRole: string)
    ensures Merge(u, RolePatch(newRole)) == u.(role := Some(newRole))
  {
  }

  /** The block toggle flips the flag, and toggling again from the new record restores the user. */
  lemma BlockToggleTwice(u: User)
    ensures Merge(u, BlockPatch(u)).blocked == !u.blocked
    ensures Merge(u, BlockPatch(u)).(blocked := u.blocked) == u
    ensures var once := Merge(u, BlockPatch(u)); Merge(once, BlockPatch(once)) == u
  {
  }

  /** A request the page sends to `updateUser`. */
  datatype Update = Update(userId: string, patch: Patch)

  const DeleteError: string := "Ошибка удаления пользователя"
  const RoleError: string := "Ошибка смены роли"
  const BlockError: string := "Ошибка блокировки/разблокировки"

  /** The page state the handlers change. `ok` says whether the server request succeeded. */
  class UsersView {
    var users: seq<User>
    var error: string
    var loading: bool

    constructor ()
      ensures users == [] && error == "" && loading
    {
      users := [];
      error := "";
      loading := true;
    }

    /** `fetchUsers`: the loaded list, or the load error. */
    method FetchUsers(loaded: Option<seq<User>>)
      modifies this
      ensures users == if loaded.Some? then loaded.value else old(users)
      ensures error == if loaded.Some? then "" else "Ошибка загрузки пользователей"
      ensures !loading
    {
      error := "";
      if loaded.Some? {
        users := loaded.value;
      } else {
        error := "Ошибка загрузки пользователей";
      }
      loading := false;
    }

    /** `handleDeleteUser`: nothing unless confirmed; then the user leaves the list, or the error is shown. */
    method HandleDeleteUser(userId: string, confirmed: bool, ok: bool)
      modifies this
      ensures !confirmed ==> users == old(users) && error == old(error) && loading == old(loading)
      ensures confirmed ==> !loading
      ensures confirmed && ok ==> users == WithoutUser(old(users), userId) && error == old(error)
      ensures confirmed && !ok ==> users == old(users) && error == DeleteError
    {
      if !confirmed {
        return;
      }
      loading := true;
      if ok {
        users := WithoutUser(users, userId);
      } else {
        error := DeleteError;
      }
      loading := false;
    }

    /** `handleChangeRole`: sends `{role: newRole}`; on failure shows the error (a success refetches). */
    method HandleChangeRole(userId: string, newRole: string, ok: bool) returns (sent: Update)
      modifies this
      ensures sent == Update(userId, RolePatch(newRole))
      ensures users == old(users) && !loading
      ensures error == if ok then old(error) else RoleError
    {
      loading := true;
      sent := Update(userId, RolePatch(newRole));
      if !ok {
        error := RoleError;
      }
      loading := false;
    }

    /** `handleToggleBlock`: sends `{blocked: !user.blocked}`; on failure shows the error (a success refetches). */
    method HandleToggleBlock(u: User, ok: bool) returns (sent: Update)
      modifies this
      ensures sent == Update(u.id, BlockPatch(u))
      ensures users == old(users) && !loading
      ensures error == if ok then old(error) else BlockError
    {
      loading := true;
      sent := Update(u.id, BlockPatch(u));
      if !ok {
        error := BlockError;
      }
      loading := false;
    }
  }
}
