/**
 * The REST backend: a JSON document store of users, chats and subjects, and
 * an uploads directory. The clock (`Date.now()`, `new Date().toISOString()`)
 * and the session token generator are parameters of the handlers.
 */
module Server {
  import opened Wrappers
  import opened Text
  import opened Listing
  import opened Entities

  // ---------------------------------------------------------------------------
  // Requests and responses

  datatype Body =
    | ErrorBody(error: string)
    | UserBody(user: User, token: string)
    | ChatList(chats: seq<Chat>)
    | ChatBody(chat: Chat)
    | MessageList(messages: seq<Message>)
    | MessageBody(message: Message)
    | GradeList(grades: seq<Grade>)
    | GradeBody(grade: Option<Grade>)
    | UploadBody(filename: string, originalName: string)
    | SuccessBody

  datatype Response = Response(status: nat, body: Body)

  const LoginFieldsRequired: string := "Email и пароль обязательны"
  const BadCredentials: string := "Неверный email или пароль"
  const RegisterFieldsRequired: string := "Имя, email и пароль обязательны"
  const EmailTaken: string := "Пользователь с таким email уже существует"
  const UserNotFound: string := "Пользователь не найден"
  const MembersRequired: string := "members required"
  const ChatNotFound: string := "Чат не найден"
  const NoFileReceived: string := "Файл не получен"
  const SubjectNotFound: string := "Предмет не найден"
  const StudentNotFound: string := "Студент не найден"

  /** A multipart file part as the upload middleware receives it. */
  datatype FilePart = FilePart(originalname: string, mimetype: string, size: nat)

  /** The text fields of a posted message. */
  datatype MessageFields = MessageFields(sender: Option<string>, text: Option<string>, msgType: Option<string>)

  /** The `members` field of a new-chat request: absent, not an array, or a list of ids. */
  datatype MembersField = Absent | NotAList | Members(ids: seq<string>)

  /** A file in the uploads directory: a received upload or a written placeholder. */
  datatype StoredFile = Upload(mimetype: string, size: nat) | Placeholder(text: string)

  datatype Enrolment = Enrolment(id: string, name: Option<string>, grades: seq<Grade>)

  datatype Subject = Subject(id: string, name: Option<string>, students: Option<seq<Enrolment>>)

  // ---------------------------------------------------------------------------
  // Upload names: `${Date.now()}_${file.originalname}`

  function StoredName(ms: nat, originalname: string): (r: string)
    ensures |r| == |NatToString(ms)| + 1 + |originalname|
    ensures r[|r| - |originalname| - 1..] == "_" + originalname
    ensures AllDigits(r[..|r| - |originalname| - 1])
    ensures DecimalValue(r[..|r| - |originalname| - 1]) == ms
  {
    var r := NatToString(ms) + "_" + originalname;
    assert r[..|r| - |originalname| - 1] == NatToString(ms);
    DecimalRoundTrip(ms);
    r
  }

  /** Distinct timestamps or distinct original names never share a stored name. */
  lemma StoredNameInjective(a: nat, x: string, b: nat, y: string)
    requires StoredName(a, x) == StoredName(b, y)
    ensures a == b && x == y
  {
    var da, db := NatToString(a), NatToString(b);
    assert StoredName(a, x) == da + ("_" + x);
    assert StoredName(b, y) == db + ("_" + y);
    DigitRunOf(da, "_" + x);
    DigitRunOf(db, "_" + y);
    assert da == StoredName(a, x)[..|da|];
    assert db == StoredName(b, y)[..|db|];
    NatToStringInjective(a, b);
    assert x == StoredName(a, x)[|da| + 1..];
    assert y == StoredName(b, y)[|db| + 1..];
  }

  /** The upload middleware writes an attached file before any handler runs. */
  function StoreUpload(uploads: map<string, StoredFile>, file: Option<FilePart>, at: nat): (r: map<string, StoredFile>)
    ensures file.None? ==> r == uploads
    ensures file.Some? ==> StoredName(at, file.value.originalname) in r
    ensures file.Some? ==> forall k :: k in uploads && k != StoredName(at, file.value.originalname) ==> k in r && r[k] == uploads[k]
    ensures file.Some? ==> r.Keys == uploads.Keys + {StoredName(at, file.value.originalname)}
  {
    match file
    case None => uploads
    case Some(f) => uploads[StoredName(at, f.originalname) := Upload(f.mimetype, f.size)]
  }

  // ---------------------------------------------------------------------------
  // Messages

  /** The message record the server builds for `POST /chats/:id/messages`. */
  function NewMessage(now: nat, fields: MessageFields, file: Option<FilePart>, uploadedAt: nat, isoNow: string): (m: Message)
    ensures m.id == NatToString(now) && m.sender == fields.sender && m.createdAt == Some(isoNow)
    ensures m.text == Some(OrElse(fields.text, ""))
    ensures Truthy(fields.msgType) ==> m.msgType == fields.msgType
    ensures !Truthy(fields.msgType) && file.Some? ==> m.msgType == Some(file.value.mimetype)
    ensures !Truthy(fields.msgType) && file.None? ==> m.msgType == Some("text")
    ensures file.None? ==> m.file.None? && m.originalName.None? && m.size == Some(0)
    ensures file.Some? ==> (m.file == Some(StoredName(uploadedAt, file.value.originalname))
                            && m.originalName == Some(file.value.originalname) && m.size == Some(file.value.size))
    ensures m.replyTo.None? && m.fileUrl.None? && m.time.None? && m.reactions == map[]
  {
    Message(
      NatToString(now),
      fields.sender,
      Some(OrElse(fields.text, "")),
      Some(if Truthy(fields.msgType) then fields.msgType.value
           else if file.Some? then file.value.mimetype else "text"),
      if file.Some? then Some(StoredName(uploadedAt, file.value.originalname)) else None,
      if file.Some? then Some(file.value.originalname) else None,
      Some(if file.Some? then file.value.size else 0),
      Some(isoNow),
      None, None, None, map[])
  }

  /** `GET /chats/:id/messages` */
  function ListMessages(chats: seq<Chat>, chatId: string): (r: Response)
    ensures FindChat(chats, chatId).Some? ==>
              r == Response(200, MessageList(MessagesOf(chats[FindChat(chats, chatId).value])))
    ensures FindChat(chats, chatId).None? && chatId == BotChatId ==> r == Response(200, MessageList([]))
    ensures FindChat(chats, chatId).None? && chatId != BotChatId ==> r == Response(404, ErrorBody(ChatNotFound))
  {
    match FindChat(chats, chatId)
    case Some(j) => Response(200, MessageList(MessagesOf(chats[j])))
    case None => if chatId == BotChatId then Response(200, MessageList([])) else Response(404, ErrorBody(ChatNotFound))
  }

  /** The chats after appending `msg` to chat `j`. */
  function AppendMessage(chats: seq<Chat>, j: nat, msg: Message): (r: seq<Chat>)
    requires j < |chats|
    ensures |r| == |chats|
    ensures forall k :: 0 <= k < |chats| ==> r[k].id == chats[k].id
    ensures forall k :: 0 <= k < |chats| && k != j ==> r[k] == chats[k]
    ensures MessagesOf(r[j]) == MessagesOf(chats[j]) + [msg]
  {
    chats[j := chats[j].(messages := Some(MessagesOf(chats[j]) + [msg]))]
  }

  /** Listing a chat after a post shows the earlier messages followed by the new one. */
  lemma ListAfterAppend(chats: seq<Chat>, chatId: string, msg: Message)
    requires FindChat(chats, chatId).Some?
    ensures var j := FindChat(chats, chatId).value;
            ListMessages(AppendMessage(chats, j, msg), chatId)
              == Response(200, MessageList(MessagesOf(chats[j]) + [msg]))
  {
    var j := FindChat(chats, chatId).value;
    var r := AppendMessage(chats, j, msg);
    FindChatFirst(chats, chatId);
    FindChatFirst(r, chatId);
    assert FindChat(r, chatId) == Some(j);
  }

  // ---------------------------------------------------------------------------
  // Chats

  /** `GET /chats?userId=...` */
  function ListChats(chats: seq<Chat>, userId: Option<string>): (r: seq<Chat>)
    ensures !Truthy(userId) ==> r == chats
    ensures Truthy(userId) ==> forall c :: c in r <==> c in chats && userId.value in MembersOf(c)
  {
    if Truthy(userId) then
      FilterMembers(chats, (c: Chat) => userId.value in MembersOf(c));
      Filter(chats, (c: Chat) => userId.value in MembersOf(c))
    else chats
  }

  /** The listing keeps database order: it distributes over concatenation, and one chat is kept exactly when it has the member. */
  lemma ListChatsInOrder(a: seq<Chat>, b: seq<Chat>, c: Chat, userId: Option<string>)
    ensures ListChats(a + b, userId) == ListChats(a, userId) + ListChats(b, userId)
    ensures ListChats([c], userId) == if !Truthy(userId) || userId.value in MembersOf(c) then [c] else []
  {
    if Truthy(userId) {
      FilterConcat(a, b, (c: Chat) => userId.value in MembersOf(c));
    }
  }

  /** The chat `POST /chats` creates, or None when `members` is missing, not a list or empty. */
  function NewChat(members: MembersField, name: Option<string>, avatar: Option<string>, now: nat): (r: Option<Chat>)
    ensures r.Some? <==> members.Members? && |members.ids| >= 1
    ensures r.Some? ==> r.value == Chat(NatToString(now), Some(members.ids), name, avatar, Some([]))
  {
    if members.Members? && |members.ids| >= 1
    then Some(Chat(NatToString(now), Some(members.ids), name, avatar, Some([])))
    else None
  }

  /** A new chat is listed for each of its members. */
  lemma CreatedChatIsListed(chats: seq<Chat>, chat: Chat, member: string)
    requires member != "" && member in MembersOf(chat)
    ensures chat in ListChats(chats + [chat], Some(member))
  {
  }

  // ---------------------------------------------------------------------------
  // Accounts

  predicate HasCredentials(u: User, email: string, password: string) {
    u.email == Some(email) && u.password == Some(password)
  }

  /** `POST /login` */
  function Login(users: seq<User>, email: Option<string>, password: Option<string>, token: string): (r: Response)
    ensures !Truthy(email) || !Truthy(password) ==> r == Response(400, ErrorBody(LoginFieldsRequired))
    ensures Truthy(email) && Truthy(password) ==>
              (r == Response(401, ErrorBody(BadCredentials)) <==>
                 forall k :: 0 <= k < |users| ==> !HasCredentials(users[k], email.value, password.value))
    ensures r.status == 200 ==>
              (r.body.UserBody? && r.body.token == token
               && exists k :: 0 <= k < |users| && users[k] == r.body.user
                              && HasCredentials(users[k], email.value, password.value)
                              && forall i :: 0 <= i < k ==> !HasCredentials(users[i], email.value, password.value))
    ensures r.status in {200, 400, 401}
  {
    if !Truthy(email) || !Truthy(password) then Response(400, ErrorBody(LoginFieldsRequired))
    else
      FindFirst(users, (u: User) => HasCredentials(u, email.value, password.value));
      match Find(users, (u: User) => HasCredentials(u, email.value, password.value))
      case None => Response(401, ErrorBody(BadCredentials))
      case Some(k) => Response(200, UserBody(users[k], token))
  }

  predicate EmailExists(users: seq<User>, email: string) {
    exists k :: 0 <= k < |users| && users[k].email == Some(email)
  }

  /** The record `POST /register` appends (profile fields other than these are not modelled). */
  function RegisteredUser(now: nat, name: string, email: string, password: string): (u: User)
    ensures u.role == Some("student") && u.grades == Some([]) && !u.blocked
    ensures HasCredentials(u, email, password) && u.name == Some(name) && u.id == NatToString(now)
  {
    User(NatToString(now), Some(name), Some(email), Some(password), Some("student"), false, Some([]))
  }

  /** A freshly registered account can log in with the same credentials. */
  lemma RegisterThenLogin(users: seq<User>, now: nat, name: string, email: string, password: string, token: string)
    requires email != "" && password != ""
    requires !EmailExists(users, email)
    ensures Login(users + [RegisteredUser(now, name, email, password)], Some(email), Some(password), token)
            == Response(200, UserBody(RegisteredUser(now, name, email, password), token))
  {
    var us := users + [RegisteredUser(now, name, email, password)];
    var k := Find(us, (u: User) => HasCredentials(u, email, password));
    assert us[|users|] == RegisteredUser(now, name, email, password);
    assert forall i :: 0 <= i < |users| ==> us[i] == users[i];
  }

  // ---------------------------------------------------------------------------
  // Cascade of `DELETE /admin/users/:id` over the chats: each chat in turn
  // computes its members without the id and assigns them to the FIRST chat
  // that has the same chat id.

  /** `users.remove({ id })`: every user with the id goes. */
  function RemoveUsers(users: seq<User>, id: string): (r: seq<User>)
    ensures forall u :: u in r <==> u in users && u.id != id
  {
    FilterMembers(users, (u: User) => u.id != id);
    Filter(users, (u: User) => u.id != id)
  }

  function Strip(members: seq<string>, uid: string): (r: seq<string>)
    ensures forall i :: 0 <= i < |r| ==> r[i] != uid
  {
    Filter(members, (m: string) => m != uid)
  }

  /** Stripping keeps every other member. */
  lemma StripMembers(members: seq<string>, uid: string)
    ensures forall m :: m in Strip(members, uid) <==> m in members && m != uid
  {
    FilterMembers(members, (m: string) => m != uid);
  }

  function CascadeStep(cur: seq<Chat>, i: nat, uid: string): (r: seq<Chat>)
    requires i < |cur|
    ensures |r| == |cur|
  {
    FindChatFound(cur, i);
    var j := FindChat(cur, cur[i].id).value;
    cur[j := cur[j].(members := Some(Strip(MembersOf(cur[i]), uid)))]
  }

  /** The chats after the first `n` iterations of the cascade. */
  function Cascade(cs: seq<Chat>, uid: string, n: nat): (r: seq<Chat>)
    requires n <= |cs|
    ensures |r| == |cs|
  {
    if n == 0 then cs else CascadeStep(Cascade(cs, uid, n - 1), n - 1, uid)
  }

  predicate UniqueChatIds(cs: seq<Chat>) {
    forall a, b :: 0 <= a < b < |cs| ==> cs[a].id != cs[b].id
  }

  function WithoutMember(c: Chat, uid: string): Chat {
    c.(members := Some(Strip(MembersOf(c), uid)))
  }

  /** When chat `i` is the first with its id, the step rewrites chat `i` alone. */
  lemma CascadeStepAtFirst(cur: seq<Chat>, i: nat, uid: string)
    requires i < |cur|
    requires forall k :: 0 <= k < i ==> cur[k].id != cur[i].id
    ensures CascadeStep(cur, i, uid) == cur[i := WithoutMember(cur[i], uid)]
  {
    var f := FindChat(cur, cur[i].id);
    FindChatFirst(cur, cur[i].id);
    assert f.Some?;
    assert f.value == i;
  }

  /** A step rewrites members only: every chat keeps its id. */
  lemma CascadeStepKeepsIds(cur: seq<Chat>, i: nat, uid: string)
    requires i < |cur|
    ensures forall k :: 0 <= k < |cur| ==> CascadeStep(cur, i, uid)[k].id == cur[k].id
  {
  }

  lemma {:induction false} CascadeKeepsIds(cs: seq<Chat>, uid: string, n: nat)
    requires n <= |cs|
    ensures forall k :: 0 <= k < |cs| ==> Cascade(cs, uid, n)[k].id == cs[k].id
    decreases n
  {
    if n > 0 {
      var cur := Cascade(cs, uid, n - 1);
      assert Cascade(cs, uid, n) == CascadeStep(cur, n - 1, uid);
      CascadeKeepsIds(cs, uid, n - 1);
      CascadeStepKeepsIds(cur, n - 1, uid);
      forall k | 0 <= k < |cs| ensures Cascade(cs, uid, n)[k].id == cs[k].id {
        assert Cascade(cs, uid, n)[k].id == cur[k].id;
      }
    }
  }

  /** Chats the first `n` iterations have not reached are unchanged. */
  lemma {:induction false} CascadePending(cs: seq<Chat>, uid: string, n: nat, k: nat)
    requires n <= k < |cs| && UniqueChatIds(cs)
    ensures Cascade(cs, uid, n)[k] == cs[k]
    decreases n
  {
    if n > 0 {
      var cur := Cascade(cs, uid, n - 1);
      calc {
        Cascade(cs, uid, n)[k];
        CascadeStep(cur, n - 1, uid)[k];
      ==  { CascadeFirst(cs, uid, n - 1); CascadeStepAtFirst(cur, n - 1, uid); }
        cur[n - 1 := WithoutMember(cur[n - 1], uid)][k];
        cur[k];
      ==  { CascadePending(cs, uid, n - 1, k); }
        cs[k];
      }
    }
  }

  /** Before iteration `n`, chat `n` is the first with its id. */
  lemma CascadeFirst(cs: seq<Chat>, uid: string, n: nat)
    requires n < |cs| && UniqueChatIds(cs)
    ensures forall k :: 0 <= k < n ==> Cascade(cs, uid, n)[k].id != Cascade(cs, uid, n)[n].id
  {
    CascadeKeepsIds(cs, uid, n);
  }

  /** Chats the first `n` iterations have reached have lost the member. */
  lemma {:induction false} CascadeDone(cs: seq<Chat>, uid: string, n: nat, k: nat)
    requires k < n <= |cs| && UniqueChatIds(cs)
    ensures Cascade(cs, uid, n)[k] == WithoutMember(cs[k], uid)
    decreases n
  {
    var cur := Cascade(cs, uid, n - 1);
    calc {
      Cascade(cs, uid, n)[k];
      CascadeStep(cur, n - 1, uid)[k];
    ==  { CascadeFirst(cs, uid, n - 1); CascadeStepAtFirst(cur, n - 1, uid); }
      cur[n - 1 := WithoutMember(cur[n - 1], uid)][k];
    ==  { if k < n - 1 { CascadeDone(cs, uid, n - 1, k); } else { CascadePending(cs, uid, n - 1, k); } }
      WithoutMember(cs[k], uid);
    }
  }

  /**
   * With distinct chat ids the deleted user disappears from every chat's
   * members, the other members stay in order, and nothing else changes.
   */
  lemma CascadeRemovesMember(cs: seq<Chat>, uid: string)
    requires UniqueChatIds(cs)
    ensures forall k :: 0 <= k < |cs| ==> Cascade(cs, uid, |cs|)[k] == WithoutMember(cs[k], uid)
    ensures forall k :: 0 <= k < |cs| ==> uid !in MembersOf(Cascade(cs, uid, |cs|)[k])
  {
    forall k | 0 <= k < |cs| ensures Cascade(cs, uid, |cs|)[k] == WithoutMember(cs[k], uid) {
      CascadeDone(cs, uid, |cs|, k);
    }
  }

  /**
   * With two chats sharing an id, the first receives the second's members
   * and the second keeps the deleted id.
   */
  lemma CascadeWithDuplicateIds()
    ensures var cs := [Chat("c", Some(["u", "a"]), None, None, None), Chat("c", Some(["u", "b"]), None, None, None)];
            var r := Cascade(cs, "u", 2);
            r[0].members == Some(["b"]) && r[1].members == Some(["u", "b"])
  {
    var cs := [Chat("c", Some(["u", "a"]), None, None, None), Chat("c", Some(["u", "b"]), None, None, None)];
    var c1 := Cascade(cs, "u", 1);
    assert FindChat(cs, "c") == Some(0);
    assert Strip(["u", "a"], "u") == ["a"] by {
      assert ["u", "a"][1..] == ["a"];
      assert ["a"][1..] == [];
    }
    assert c1 == [cs[0].(members := Some(["a"])), cs[1]];
    assert FindChat(c1, "c") == Some(0);
    assert Strip(["u", "b"], "u") == ["b"] by {
      assert ["u", "b"][1..] == ["b"];
      assert ["b"][1..] == [];
    }
  }

  // ---------------------------------------------------------------------------
  // Start-up repair: every file a stored message names gets a placeholder
  // when the uploads directory lacks it. The whole repair sits in one
  // `try { … } catch {}`, so the first write that throws ends it: the files
  // written before stay, and no later message or chat is visited.
  // `canWrite` is the filesystem's answer for a name the directory lacks.

  function PlaceholderText(m: Message): string
    requires m.file.Some?
  {
    "File placeholder for " + OrElse(m.originalName, m.file.value)
  }

  /** The uploads after (part of) the repair, and whether a write threw. */
  datatype Repair = Repair(uploads: map<string, StoredFile>, aborted: bool)

  function RepairOne(up: map<string, StoredFile>, m: Message, canWrite: string -> bool): (r: Repair)
    ensures forall k :: k in up ==> k in r.uploads && r.uploads[k] == up[k]
    ensures r.aborted <==> Truthy(m.file) && m.file.value !in up && !canWrite(m.file.value)
    ensures r.aborted ==> r.uploads == up
    ensures !r.aborted && Truthy(m.file) ==> m.file.value in r.uploads
    ensures forall k :: k in r.uploads && k !in up ==> m.file == Some(k) && r.uploads[k] == Placeholder(PlaceholderText(m))
  {
    if Truthy(m.file) && m.file.value !in up then
      if canWrite(m.file.value) then Repair(up[m.file.value := Placeholder(PlaceholderText(m))], false)
      else Repair(up, true)
    else Repair(up, false)
  }

  /** Some message of `ms` names `k` and `k`'s placeholder text is that message's. */
  predicate PlaceholderFrom(ms: seq<Message>, k: string, f: StoredFile) {
    exists i :: 0 <= i < |ms| && ms[i].file == Some(k) && f == Placeholder(PlaceholderText(ms[i]))
  }

  /** Every non-empty file name among `ms` is a key of `up`. */
  predicate FilesPresent(ms: seq<Message>, up: map<string, StoredFile>) {
    forall i :: 0 <= i < |ms| && Truthy(ms[i].file) ==> ms[i].file.value in up
  }

  /** Every non-empty file name among `ms` could be written. */
  predicate AllWritable(ms: seq<Message>, canWrite: string -> bool) {
    forall i :: 0 <= i < |ms| && Truthy(ms[i].file) ==> canWrite(ms[i].file.value)
  }

  /** The uploads after the inner loop over `ms`; an abort skips the rest. */
  function RepairMessages(up: map<string, StoredFile>, ms: seq<Message>, canWrite: string -> bool): (r: Repair)
    ensures forall k :: k in up ==> k in r.uploads && r.uploads[k] == up[k]
    ensures r.aborted <==> !FilesPresent(ms, r.uploads)
    ensures r.aborted ==> exists i :: 0 <= i < |ms| && Truthy(ms[i].file) && !canWrite(ms[i].file.value)
    ensures AllWritable(ms, canWrite) ==> !r.aborted
    ensures forall k :: k in r.uploads && k !in up ==> PlaceholderFrom(ms, k, r.uploads[k])
  {
    if ms == [] then Repair(up, false)
    else
      var init := ms[..|ms| - 1];
      var prev := RepairMessages(up, init, canWrite);
      assert forall i :: 0 <= i < |init| ==> init[i] == ms[i];
      if prev.aborted then prev
      else
        var r := RepairOne(prev.uploads, ms[|ms| - 1], canWrite);
        assert forall k :: k in up ==> k in r.uploads && r.uploads[k] == up[k] by {
          forall k | k in up ensures k in r.uploads && r.uploads[k] == up[k] {
            assert k in prev.uploads && prev.uploads[k] == up[k];
          }
        }
        assert !r.aborted ==> FilesPresent(ms, r.uploads) by {
          if !r.aborted {
            forall i | 0 <= i < |ms| && Truthy(ms[i].file) ensures ms[i].file.value in r.uploads {
              if i < |init| {
                assert ms[i].file.value in prev.uploads;
              }
            }
          }
        }
        assert forall k :: k in r.uploads && k !in up ==> PlaceholderFrom(ms, k, r.uploads[k]) by {
          forall k | k in r.uploads && k !in up ensures PlaceholderFrom(ms, k, r.uploads[k]) {
            if k in prev.uploads {
              assert PlaceholderFrom(init, k, prev.uploads[k]);
              var i :| 0 <= i < |init| && init[i].file == Some(k) && prev.uploads[k] == Placeholder(PlaceholderText(init[i]));
              assert ms[i] == init[i];
            } else {
              assert ms[|ms| - 1].file == Some(k);
            }
          }
        }
        r
  }

  /** One step past an aborted prefix changes nothing. */
  lemma RepairMessagesAbortStep(up: map<string, StoredFile>, ms: seq<Message>, canWrite: string -> bool)
    requires |ms| > 0 && RepairMessages(up, ms[..|ms| - 1], canWrite).aborted
    ensures RepairMessages(up, ms, canWrite) == RepairMessages(up, ms[..|ms| - 1], canWrite)
  {
  }

  /** An abort inside the first `j` messages is final: the later messages are not visited. */
  lemma {:induction false} RepairMessagesAbortIsFinal(up: map<string, StoredFile>, ms: seq<Message>, canWrite: string -> bool, j: nat)
    requires j <= |ms| && RepairMessages(up, ms[..j], canWrite).aborted
    ensures RepairMessages(up, ms, canWrite) == RepairMessages(up, ms[..j], canWrite)
    decreases |ms| - j
  {
    if j < |ms| {
      var p := ms[..j + 1];
      assert p[..|p| - 1] == ms[..j];
      RepairMessagesAbortStep(up, p, canWrite);
      RepairMessagesAbortIsFinal(up, ms, canWrite, j + 1);
    } else {
      assert ms[..j] == ms;
    }
  }

  /** A first message whose missing file cannot be written stops the repair before the second. */
  lemma AbortSkipsLaterMessages(up: map<string, StoredFile>, m1: Message, m2: Message, canWrite: string -> bool)
    requires Truthy(m1.file) && m1.file.value !in up && !canWrite(m1.file.value)
    ensures RepairMessages(up, [m1, m2], canWrite) == Repair(up, true)
  {
    assert [m1, m2][..1] == [m1];
    assert [m1][..0] == [];
    RepairMessagesAbortIsFinal(up, [m1, m2], canWrite, 1);
  }

  /** Every non-empty file name in every chat is a key of `up`. */
  predicate AllFilesPresent(cs: seq<Chat>, up: map<string, StoredFile>) {
    forall i :: 0 <= i < |cs| ==> FilesPresent(MessagesOf(cs[i]), up)
  }

  /** Some message of some chat explains the placeholder stored under `k`. */
  predicate PlaceholderFromChats(cs: seq<Chat>, k: string, f: StoredFile) {
    exists i :: 0 <= i < |cs| && PlaceholderFrom(MessagesOf(cs[i]), k, f)
  }

  /** The uploads after the outer loop over `cs`; an abort skips the later chats. */
  function RepairChats(up: map<string, StoredFile>, cs: seq<Chat>, canWrite: string -> bool): (r: Repair)
    ensures forall k :: k in up ==> k in r.uploads && r.uploads[k] == up[k]
    ensures r.aborted <==> !AllFilesPresent(cs, r.uploads)
    ensures (forall i :: 0 <= i < |cs| ==> AllWritable(MessagesOf(cs[i]), canWrite)) ==> !r.aborted
    ensures forall k :: k in r.uploads && k !in up ==> PlaceholderFromChats(cs, k, r.uploads[k])
  {
    if cs == [] then Repair(up, false)
    else
      var init := cs[..|cs| - 1];
      var prev := RepairChats(up, init, canWrite);
      assert forall i :: 0 <= i < |init| ==> init[i] == cs[i];
      if prev.aborted then
        assert !AllFilesPresent(cs, prev.uploads) by {
          var i :| 0 <= i < |init| && !FilesPresent(MessagesOf(init[i]), prev.uploads);
          assert !FilesPresent(MessagesOf(cs[i]), prev.uploads);
        }
        assert forall k :: k in prev.uploads && k !in up ==> PlaceholderFromChats(cs, k, prev.uploads[k]) by {
          forall k | k in prev.uploads && k !in up ensures PlaceholderFromChats(cs, k, prev.uploads[k]) {
            var i :| 0 <= i < |init| && PlaceholderFrom(MessagesOf(init[i]), k, prev.uploads[k]);
            assert cs[i] == init[i];
          }
        }
        prev
      else
        var r := RepairMessages(prev.uploads, MessagesOf(cs[|cs| - 1]), canWrite);
        assert !r.aborted ==> AllFilesPresent(cs, r.uploads) by {
          if !r.aborted {
            forall i | 0 <= i < |cs| ensures FilesPresent(MessagesOf(cs[i]), r.uploads) {
              if i < |init| {
                assert FilesPresent(MessagesOf(init[i]), prev.uploads);
              }
            }
          }
        }
        assert forall k :: k in r.uploads && k !in up ==> PlaceholderFromChats(cs, k, r.uploads[k]) by {
          forall k | k in r.uploads && k !in up ensures PlaceholderFromChats(cs, k, r.uploads[k]) {
            if k in prev.uploads {
              var i :| 0 <= i < |init| && PlaceholderFrom(MessagesOf(init[i]), k, prev.uploads[k]);
              assert cs[i] == init[i];
            } else {
              assert PlaceholderFrom(MessagesOf(cs[|cs| - 1]), k, r.uploads[k]);
            }
          }
        }
        r
  }

  /** One step past an aborted prefix changes nothing. */
  lemma RepairChatsAbortStep(up: map<string, StoredFile>, cs: seq<Chat>, canWrite: string -> bool)
    requires |cs| > 0 && RepairChats(up, cs[..|cs| - 1], canWrite).aborted
    ensures RepairChats(up, cs, canWrite) == RepairChats(up, cs[..|cs| - 1], canWrite)
  {
  }

  /** An abort inside the first `j` chats is final: the later chats are not visited. */
  lemma {:induction false} RepairChatsAbortIsFinal(up: map<string, StoredFile>, cs: seq<Chat>, canWrite: string -> bool, j: nat)
    requires j <= |cs| && RepairChats(up, cs[..j], canWrite).aborted
    ensures RepairChats(up, cs, canWrite) == RepairChats(up, cs[..j], canWrite)
    decreases |cs| - j
  {
    if j < |cs| {
      var p := cs[..j + 1];
      assert p[..|p| - 1] == cs[..j];
      RepairChatsAbortStep(up, p, canWrite);
      RepairChatsAbortIsFinal(up, cs, canWrite, j + 1);
    } else {
      assert cs[..j] == cs;
    }
  }

  // ---------------------------------------------------------------------------
  // Grades: a user's `grades` list

  /** `user.grades || []` */
  function GradesOf(u: User): seq<Grade> {
    u.grades.GetOr([])
  }

  predicate HasId(g: Grade, id: string) {
    "id" in g && g["id"] == id
  }

  /** `GET /grades/:userId`: a missing user has no grades. */
  function ListGrades(users: seq<User>, userId: string): (r: seq<Grade>)
    ensures FindUser(users, userId).None? ==> r == []
    ensures FindUser(users, userId).Some? ==> r == GradesOf(users[FindUser(users, userId).value])
  {
    match FindUser(users, userId)
    case None => []
    case Some(j) => GradesOf(users[j])
  }

  /** `{ id: Date.now().toString(), ...body }`: the body's own fields win, including `id`. */
  function NewGrade(now: nat, body: Grade): (g: Grade)
    ensures "id" in g
    ensures forall k :: k in body ==> k in g && g[k] == body[k]
    ensures "id" !in body ==> g["id"] == NatToString(now)
    ensures g.Keys == body.Keys + {"id"}
  {
    map["id" := NatToString(now)] + body
  }

  /** `grades.map(g => g.id === gradeId ? { ...g, ...body } : g)` */
  function UpdateGrades(grades: seq<Grade>, gradeId: string, body: Grade): (r: seq<Grade>)
    ensures |r| == |grades|
    ensures forall i :: 0 <= i < |grades| && !HasId(grades[i], gradeId) ==> r[i] == grades[i]
    ensures forall i :: 0 <= i < |grades| && HasId(grades[i], gradeId) ==>
              r[i].Keys == grades[i].Keys + body.Keys
              && (forall k :: k in body ==> r[i][k] == body[k])
              && (forall k :: k in grades[i] && k !in body ==> r[i][k] == grades[i][k])
  {
    MapWhere(grades, (g: Grade) => HasId(g, gradeId), (g: Grade) => g + body)
  }

  /** Saving the same change twice is the same as saving it once, unless the change renames the grade. */
  lemma UpdateGradesIdempotent(grades: seq<Grade>, gradeId: string, body: Grade)
    requires "id" in body ==> body["id"] == gradeId
    ensures UpdateGrades(UpdateGrades(grades, gradeId, body), gradeId, body) == UpdateGrades(grades, gradeId, body)
  {
    var once := UpdateGrades(grades, gradeId, body);
    var twice := UpdateGrades(once, gradeId, body);
    forall i | 0 <= i < |grades| ensures twice[i] == once[i] {
      if HasId(grades[i], gradeId) {
        assert HasId(once[i], gradeId);
        assert once[i] + body == once[i];
      }
    }
  }

  /** `grades.filter(g => g.id !== gradeId)` */
  function DeleteGrades(grades: seq<Grade>, gradeId: string): (r: seq<Grade>)
    ensures forall g :: g in r <==> g in grades && !HasId(g, gradeId)
  {
    FilterMembers(grades, (g: Grade) => !HasId(g, gradeId));
    Filter(grades, (g: Grade) => !HasId(g, gradeId))
  }

  lemma DeleteGradesIdempotent(grades: seq<Grade>, gradeId: string)
    ensures DeleteGrades(DeleteGrades(grades, gradeId), gradeId) == DeleteGrades(grades, gradeId)
  {
    FilterIdempotent(grades, (g: Grade) => !HasId(g, gradeId));
  }

  // ---------------------------------------------------------------------------
  // Subject enrolment

  predicate UniqueStudentIds(ss: seq<Enrolment>) {
    forall a, b :: 0 <= a < b < |ss| ==> ss[a].id != ss[b].id
  }

  predicate Enrolled(ss: seq<Enrolment>, id: string) {
    exists i :: 0 <= i < |ss| && ss[i].id == id
  }

  /** `if (!students.some(s => s.id === student.id)) students.push({...})` */
  function Enrol(ss: seq<Enrolment>, student: User): (r: seq<Enrolment>)
    ensures Enrolled(r, student.id)
    ensures UniqueStudentIds(ss) ==> UniqueStudentIds(r)
    ensures Enrolled(ss, student.id) ==> r == ss
    ensures !Enrolled(ss, student.id) ==> r == ss + [Enrolment(student.id, student.name, [])]
  {
    if Enrolled(ss, student.id) then ss
    else
      var r := ss + [Enrolment(student.id, student.name, [])];
      assert r[|ss|].id == student.id;
      r
  }

  /** Enrolling twice is enrolling once. */
  lemma EnrolIdempotent(ss: seq<Enrolment>, student: User)
    ensures Enrol(Enrol(ss, student), student) == Enrol(ss, student)
  {
  }

  /** `(subject.students || []).filter(s => s.id !== studentId)` */
  function Unenrol(ss: seq<Enrolment>, studentId: string): (r: seq<Enrolment>)
    ensures !Enrolled(r, studentId)
    ensures forall s :: s in r <==> s in ss && s.id != studentId
  {
    FilterMembers(ss, (s: Enrolment) => s.id != studentId);
    Filter(ss, (s: Enrolment) => s.id != studentId)
  }

  function FindSubject(subjects: seq<Subject>, id: string): (r: Option<nat>)
    ensures r.Some? ==> r.value < |subjects| && subjects[r.value].id == id
    ensures r.None? <==> forall k :: 0 <= k < |subjects| ==> subjects[k].id != id
  {
    FindFirst(subjects, (s: Subject) => s.id == id);
    Find(subjects, (s: Subject) => s.id == id)
  }

  /** `users.find(u => u.id === studentId)`: an absent id matches nobody. */
  function FindStudent(users: seq<User>, studentId: Option<string>): (r: Option<nat>)
    ensures studentId.None? ==> r.None?
    ensures studentId.Some? ==> r == FindUser(users, studentId.value)
  {
    if studentId.None? then None else FindUser(users, studentId.value)
  }

  // ---------------------------------------------------------------------------
  // The store and its mutating handlers

  class Db {
    var users: seq<User>
    var chats: seq<Chat>
    var subjects: seq<Subject>
    var uploads: map<string, StoredFile>

    constructor (users0: seq<User>, chats0: seq<Chat>, subjects0: seq<Subject>, uploads0: map<string, StoredFile>)
      ensures users == users0 && chats == chats0 && subjects == subjects0 && uploads == uploads0
    {
      users := users0;
      chats := chats0;
      subjects := subjects0;
      uploads := uploads0;
    }

    /** `POST /register` */
    method Register(name: Option<string>, email: Option<string>, password: Option<string>, now: nat, token: string)
      returns (r: Response)
      modifies this
      ensures chats == old(chats) && subjects == old(subjects) && uploads == old(uploads)
      ensures !Truthy(name) || !Truthy(email) || !Truthy(password) ==>
                r == Response(400, ErrorBody(RegisterFieldsRequired)) && users == old(users)
      ensures Truthy(name) && Truthy(email) && Truthy(password) && EmailExists(old(users), email.value) ==>
                r == Response(409, ErrorBody(EmailTaken)) && users == old(users)
      ensures Truthy(name) && Truthy(email) && Truthy(password) && !EmailExists(old(users), email.value) ==>
                var u := RegisteredUser(now, name.value, email.value, password.value);
                r == Response(201, UserBody(u, token)) && users == old(users) + [u]
    {
      if !Truthy(name) || !Truthy(email) || !Truthy(password) {
        return Response(400, ErrorBody(RegisterFieldsRequired));
      }
      FindFirst(users, (u: User) => u.email == email);
      var taken := Find(users, (u: User) => u.email == email);
      if taken.Some? {
        return Response(409, ErrorBody(EmailTaken));
      }
      var u := RegisteredUser(now, name.value, email.value, password.value);
      users := users + [u];
      r := Response(201, UserBody(u, token));
    }

    /** `DELETE /admin/users/:id`: remove every user with the id, then the cascade over the chats. */
    method DeleteUser(id: string) returns (r: Response)
      modifies this
      ensures subjects == old(subjects) && uploads == old(uploads)
      ensures FindUser(old(users), id).None? ==>
                r == Response(404, ErrorBody(UserNotFound)) && users == old(users) && chats == old(chats)
      ensures FindUser(old(users), id).Some? ==>
                r == Response(200, SuccessBody)
                && users == RemoveUsers(old(users), id)
                && chats == Cascade(old(chats), id, |old(chats)|)
    {
      if FindUser(users, id).None? {
        return Response(404, ErrorBody(UserNotFound));
      }
      users := RemoveUsers(users, id);
      RemoveMemberFromChats(id);
      r := Response(200, SuccessBody);
    }

    /** The `forEach` over the chats that follows the removal of user `id`. */
    method RemoveMemberFromChats(id: string)
      modifies this
      ensures users == old(users) && subjects == old(subjects) && uploads == old(uploads)
      ensures chats == Cascade(old(chats), id, |old(chats)|)
    {
      ghost var cs := chats;
      var i := 0;
      while i < |chats|
        invariant 0 <= i <= |chats| == |cs|
        invariant chats == Cascade(cs, id, i)
        invariant users == old(users) && subjects == old(subjects) && uploads == old(uploads)
      {
        ghost var before := chats;
        var ch := chats[i];
        var members := Strip(MembersOf(ch), id);
        FindChatFound(chats, i);
        var j := FindChat(chats, ch.id).value;
        chats := chats[j := chats[j].(members := Some(members))];
        assert chats == CascadeStep(before, i, id) == CascadeStep(Cascade(cs, id, i), i, id);
        i := i + 1;
      }
    }

    /** `POST /chats` */
    method CreateChat(members: MembersField, name: Option<string>, avatar: Option<string>, now: nat)
      returns (r: Response)
      modifies this
      ensures users == old(users) && subjects == old(subjects) && uploads == old(uploads)
      ensures NewChat(members, name, avatar, now).None? ==>
                r == Response(400, ErrorBody(MembersRequired)) && chats == old(chats)
      ensures NewChat(members, name, avatar, now).Some? ==>
                r == Response(201, ChatBody(NewChat(members, name, avatar, now).value))
                && chats == old(chats) + [NewChat(members, name, avatar, now).value]
    {
      var chat := NewChat(members, name, avatar, now);
      if chat.None? {
        return Response(400, ErrorBody(MembersRequired));
      }
      chats := chats + [chat.value];
      r := Response(201, ChatBody(chat.value));
    }

    /** `POST /upload` */
    method UploadFile(file: Option<FilePart>, uploadedAt: nat) returns (r: Response)
      modifies this
      ensures users == old(users) && chats == old(chats) && subjects == old(subjects)
      ensures uploads == StoreUpload(old(uploads), file, uploadedAt)
      ensures file.None? ==> r == Response(400, ErrorBody(NoFileReceived))
      ensures file.Some? ==>
                r == Response(200, UploadBody(StoredName(uploadedAt, file.value.originalname), file.value.originalname))
    {
      if file.None? {
        return Response(400, ErrorBody(NoFileReceived));
      }
      var filename := StoredName(uploadedAt, file.value.originalname);
      uploads := uploads[filename := Upload(file.value.mimetype, file.value.size)];
      r := Response(200, UploadBody(filename, file.value.originalname));
    }

    /**
     * `POST /chats/:id/messages`. The attached file is stored first, whatever
     * the handler then answers; an absent `bot-chat` answers with a message
     * that is never stored.
     */
    method PostMessage(chatId: string, fields: MessageFields, file: Option<FilePart>,
                       uploadedAt: nat, now: nat, isoNow: string) returns (r: Response)
      modifies this
      ensures users == old(users) && subjects == old(subjects)
      ensures uploads == StoreUpload(old(uploads), file, uploadedAt)
      ensures FindChat(old(chats), chatId).None? ==> chats == old(chats)
      ensures FindChat(old(chats), chatId).None? && chatId == BotChatId ==>
                r == Response(201, MessageBody(NewMessage(now, fields, file, uploadedAt, isoNow)))
      ensures FindChat(old(chats), chatId).None? && chatId != BotChatId ==>
                r == Response(404, ErrorBody(ChatNotFound))
      ensures FindChat(old(chats), chatId).Some? ==>
                var msg := NewMessage(now, fields, file, uploadedAt, isoNow);
                r == Response(201, MessageBody(msg))
                && chats == AppendMessage(old(chats), FindChat(old(chats), chatId).value, msg)
    {
      if file.Some? {
        uploads := uploads[StoredName(uploadedAt, file.value.originalname) := Upload(file.value.mimetype, file.value.size)];
      }
      var found := FindChat(chats, chatId);
      var msg := NewMessage(now, fields, file, uploadedAt, isoNow);
      if found.None? {
        if chatId == BotChatId {
          return Response(201, MessageBody(msg));
        }
        return Response(404, ErrorBody(ChatNotFound));
      }
      var j := found.value;
      chats := chats[j := chats[j].(messages := Some(MessagesOf(chats[j]) + [msg]))];
      r := Response(201, MessageBody(msg));
    }

    /** The start-up repair: nested loops over the chats and their messages, left at the first write that throws. */
    method RepairPlaceholders(canWrite: string -> bool)
      modifies this
      ensures users == old(users) && chats == old(chats) && subjects == old(subjects)
      ensures uploads == RepairChats(old(uploads), chats, canWrite).uploads
    {
      ghost var up := uploads;
      var i := 0;
      var aborted := false;
      while i < |chats| && !aborted
        invariant 0 <= i <= |chats|
        invariant users == old(users) && chats == old(chats) && subjects == old(subjects)
        invariant RepairChats(up, chats[..i], canWrite) == Repair(uploads, aborted)
      {
        ghost var start := uploads;
        var ms := MessagesOf(chats[i]);
        aborted := RepairChatFiles(ms, canWrite);
        assert chats[..i + 1][..i] == chats[..i];
        assert RepairChats(up, chats[..i + 1], canWrite) == RepairMessages(start, ms, canWrite);
        i := i + 1;
      }
      if aborted {
        RepairChatsAbortIsFinal(up, chats, canWrite, i);
      } else {
        assert chats[..i] == chats;
      }
    }

    /** The inner loop of the repair: the messages of one chat, in order, until a write throws. */
    method RepairChatFiles(ms: seq<Message>, canWrite: string -> bool) returns (aborted: bool)
      modifies this
      ensures users == old(users) && chats == old(chats) && subjects == old(subjects)
      ensures Repair(uploads, aborted) == RepairMessages(old(uploads), ms, canWrite)
    {
      ghost var start := uploads;
      var j := 0;
      aborted := false;
      while j < |ms| && !aborted
        invariant 0 <= j <= |ms|
        invariant users == old(users) && chats == old(chats) && subjects == old(subjects)
        invariant RepairMessages(start, ms[..j], canWrite) == Repair(uploads, aborted)
      {
        ghost var before := uploads;
        var m := ms[j];
        assert ms[..j + 1][..j] == ms[..j];
        assert RepairMessages(start, ms[..j + 1], canWrite) == RepairOne(before, m, canWrite);
        if Truthy(m.file) && m.file.value !in uploads {
          if canWrite(m.file.value) {
            uploads := uploads[m.file.value := Placeholder(PlaceholderText(m))];
          } else {
            aborted := true;
          }
        }
        j := j + 1;
      }
      if aborted {
        RepairMessagesAbortIsFinal(start, ms, canWrite, j);
      } else {
        assert ms[..j] == ms;
      }
    }

    /** `POST /grades/:userId` */
    method PostGrade(userId: string, body: Grade, now: nat) returns (r: Response)
      modifies this
      ensures chats == old(chats) && subjects == old(subjects) && uploads == old(uploads)
      ensures FindUser(old(users), userId).None? ==>
                r == Response(404, ErrorBody(UserNotFound)) && users == old(users)
      ensures FindUser(old(users), userId).Some? ==>
                var j := FindUser(old(users), userId).value;
                r == Response(201, GradeBody(Some(NewGrade(now, body))))
                && users == old(users)[j := old(users)[j].(grades := Some(GradesOf(old(users)[j]) + [NewGrade(now, body)]))]
    {
      var found := FindUser(users, userId);
      if found.None? {
        return Response(404, ErrorBody(UserNotFound));
      }
      var j := found.value;
      var grade := NewGrade(now, body);
      users := users[j := users[j].(grades := Some(GradesOf(users[j]) + [grade]))];
      r := Response(201, GradeBody(Some(grade)));
    }

    /** `PUT /grades/:userId/:gradeId`: answers with the first grade that has the id afterwards, if any. */
    method PutGrade(userId: string, gradeId: string, body: Grade) returns (r: Response)
      modifies this
      ensures chats == old(chats) && subjects == old(subjects) && uploads == old(uploads)
      ensures FindUser(old(users), userId).None? ==>
                r == Response(404, ErrorBody(UserNotFound)) && users == old(users)
      ensures FindUser(old(users), userId).Some? ==>
                var j := FindUser(old(users), userId).value;
                var gs := UpdateGrades(GradesOf(old(users)[j]), gradeId, body);
                users == old(users)[j := old(users)[j].(grades := Some(gs))]
                && r.status == 200 && r.body.GradeBody?
                && (r.body.grade.Some? <==> exists i :: 0 <= i < |gs| && HasId(gs[i], gradeId))
                && (r.body.grade.Some? ==>
                      exists k :: 0 <= k < |gs| && r.body.grade.value == gs[k] && HasId(gs[k], gradeId)
                                  && forall i :: 0 <= i < k ==> !HasId(gs[i], gradeId))
    {
      var found := FindUser(users, userId);
      if found.None? {
        return Response(404, ErrorBody(UserNotFound));
      }
      var j := found.value;
      var gs := UpdateGrades(GradesOf(users[j]), gradeId, body);
      users := users[j := users[j].(grades := Some(gs))];
      FindFirst(gs, (g: Grade) => HasId(g, gradeId));
      var k := Find(gs, (g: Grade) => HasId(g, gradeId));
      r := Response(200, GradeBody(if k.Some? then Some(gs[k.value]) else None));
    }

    /** `DELETE /grades/:userId/:gradeId` */
    method DeleteGrade(userId: string, gradeId: string) returns (r: Response)
      modifies this
      ensures chats == old(chats) && subjects == old(subjects) && uploads == old(uploads)
      ensures FindUser(old(users), userId).None? ==>
                r == Response(404, ErrorBody(UserNotFound)) && users == old(users)
      ensures FindUser(old(users), userId).Some? ==>
                var j := FindUser(old(users), userId).value;
                r == Response(200, SuccessBody)
                && users == old(users)[j := old(users)[j].(grades := Some(DeleteGrades(GradesOf(old(users)[j]), gradeId)))]
    {
      var found := FindUser(users, userId);
      if found.None? {
        return Response(404, ErrorBody(UserNotFound));
      }
      var j := found.value;
      users := users[j := users[j].(grades := Some(DeleteGrades(GradesOf(users[j]), gradeId)))];
      r := Response(200, SuccessBody);
    }

    /** `POST /subjects/:subjectId/students` */
    method AddStudent(subjectId: string, studentId: Option<string>) returns (r: Response)
      modifies this
      ensures users == old(users) && chats == old(chats) && uploads == old(uploads)
      ensures FindSubject(old(subjects), subjectId).None? ==>
                r == Response(404, ErrorBody(SubjectNotFound)) && subjects == old(subjects)
      ensures FindSubject(old(subjects), subjectId).Some? && FindStudent(users, studentId).None? ==>
                r == Response(404, ErrorBody(StudentNotFound)) && subjects == old(subjects)
      ensures FindSubject(old(subjects), subjectId).Some? && FindStudent(users, studentId).Some? ==>
                var j := FindSubject(old(subjects), subjectId).value;
                var student := users[FindStudent(users, studentId).value];
                r == Response(200, SuccessBody)
                && subjects == old(subjects)[j := old(subjects)[j].(students := Some(Enrol(old(subjects)[j].students.GetOr([]), student)))]
    {
      var found := FindSubject(subjects, subjectId);
      if found.None? {
        return Response(404, ErrorBody(SubjectNotFound));
      }
      var k := FindStudent(users, studentId);
      if k.None? {
        return Response(404, ErrorBody(StudentNotFound));
      }
      var student := users[k.value];
      var j := found.value;
      var students := subjects[j].students.GetOr([]);
      if !Enrolled(students, student.id) {
        students := students + [Enrolment(student.id, student.name, [])];
      }
      subjects := subjects[j := subjects[j].(students := Some(students))];
      r := Response(200, SuccessBody);
    }

    /** `DELETE /subjects/:subjectId/students/:studentId` */
    method RemoveStudent(subjectId: string, studentId: string) returns (r: Response)
      modifies this
      ensures users == old(users) && chats == old(chats) && uploads == old(uploads)
      ensures FindSubject(old(subjects), subjectId).None? ==>
                r == Response(404, ErrorBody(SubjectNotFound)) && subjects == old(subjects)
      ensures FindSubject(old(subjects), subjectId).Some? ==>
                var j := FindSubject(old(subjects), subjectId).value;
                r == Response(200, SuccessBody)
                && subjects == old(subjects)[j := old(subjects)[j].(students := Some(Unenrol(old(subjects)[j].students.GetOr([]), studentId)))]
    {
      var found := FindSubject(subjects, subjectId);
      if found.None? {
        return Response(404, ErrorBody(SubjectNotFound));
      }
      var j := found.value;
      subjects := subjects[j := subjects[j].(students := Some(Unenrol(subjects[j].students.GetOr([]), studentId)))];
      r := Response(200, SuccessBody);
    }
  }
}
