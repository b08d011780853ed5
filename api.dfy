/**
 * The client's REST boundary: the multipart form `sendMessage` posts, the
 * file listing `getFiles` flattens out of the chats, and the download URL of
 * a stored upload.
 */
module Api {
  import opened Wrappers
  import opened Text
  import opened Listing
  import opened Entities
  import opened Server

  // ---------------------------------------------------------------------------
  // sendMessage: the multipart form

  /** What a caller puts under `file`: a browser File, or (when forwarding) a URL string. */
  datatype Attachment = Blob(part: FilePart) | Url(url: string)

  /** The argument of `sendMessage`; `replyTo` is accepted and never sent. */
  datatype SendData = SendData(
    sender: string,
    text: Option<string>,
    msgType: Option<string>,
    file: Option<Attachment>,
    replyTo: Option<string>)

  /** The four field names `sendMessage` can append. */
  datatype FormKey = SenderKey | TextKey | TypeKey | FileKey

  /** The name a key goes by on the wire. */
  function KeyName(k: FormKey): (r: string)
    ensures r in {"sender", "text", "type", "file"}
  {
    match k
    case SenderKey => "sender"
    case TextKey => "text"
    case TypeKey => "type"
    case FileKey => "file"
  }

  /** A FormData entry: a string value, or a file. */
  datatype FormField = StringPart(key: FormKey, value: string) | BlobPart(key: FormKey, part: FilePart)

  /** A File object is always truthy; a string only when non-empty. */
  predicate AttachmentTruthy(a: Option<Attachment>) {
    a.Some? && (a.value.Blob? || a.value.url != "")
  }

  /** What `POST /chats/:id/messages` reads out of a form: its text fields and its upload. */
  datatype Delivery = Delivery(fields: MessageFields, file: Option<FilePart>)

  const NothingReceived: Delivery := Delivery(MessageFields(None, None, None), None)

  /**
   * One form field as the upload middleware and the handler take it: a
   * string lands in `req.body` under its name, a file under `file` becomes
   * `req.file`. A string under `file` is a body field the handler never
   * reads. `sendMessage` never repeats a name nor sends a file under another
   * name, so the first value under a name is the one read.
   */
  function Absorb(dl: Delivery, f: FormField): Delivery {
    match f
    case StringPart(SenderKey, v) => if dl.fields.sender.None? then dl.(fields := dl.fields.(sender := Some(v))) else dl
    case StringPart(TextKey, v) => if dl.fields.text.None? then dl.(fields := dl.fields.(text := Some(v))) else dl
    case StringPart(TypeKey, v) => if dl.fields.msgType.None? then dl.(fields := dl.fields.(msgType := Some(v))) else dl
    case StringPart(FileKey, _) => dl
    case BlobPart(FileKey, p) => if dl.file.None? then dl.(file := Some(p)) else dl
    case BlobPart(_, _) => dl
  }

  function Received(form: seq<FormField>): Delivery {
    if form == [] then NothingReceived else Absorb(Received(form[..|form| - 1]), form[|form| - 1])
  }

  lemma ReceivedAppend(form: seq<FormField>, f: FormField)
    ensures Received(form + [f]) == Absorb(Received(form), f)
  {
    assert (form + [f])[..|form|] == form;
  }

  /** `x` when truthy, otherwise absent: what a conditional `formData.append` leaves. */
  function IfTruthy(o: Option<string>): (r: Option<string>)
    ensures r.Some? <==> Truthy(o)
    ensures r.Some? ==> r == o
  {
    if Truthy(o) then o else None
  }

  /** What the server makes of the data `sendMessage` was given. */
  function Delivered(d: SendData): Delivery {
    Delivery(MessageFields(Some(d.sender), IfTruthy(d.text), IfTruthy(d.msgType)),
             if d.file.Some? && d.file.value.Blob? then Some(d.file.value.part) else None)
  }

  /** The field names present in a form. */
  function Keys(form: seq<FormField>): set<FormKey> {
    if form == [] then {} else Keys(form[..|form| - 1]) + {form[|form| - 1].key}
  }

  lemma {:induction false} KeysExact(form: seq<FormField>, k: FormKey)
    ensures k in Keys(form) <==> exists i :: 0 <= i < |form| && form[i].key == k
  {
    if form != [] {
      var init := form[..|form| - 1];
      KeysExact(init, k);
      assert forall i :: 0 <= i < |init| ==> init[i] == form[i];
    }
  }

  predicate DistinctKeys(form: seq<FormField>) {
    forall i, j :: 0 <= i < j < |form| ==> form[i].key != form[j].key
  }

  /** Appending a field whose name is new adds that name and keeps the names distinct. */
  lemma AppendFresh(form: seq<FormField>, f: FormField)
    requires DistinctKeys(form) && f.key !in Keys(form)
    ensures DistinctKeys(form + [f])
    ensures Keys(form + [f]) == Keys(form) + {f.key}
    ensures forall i :: 0 <= i < |form| ==> form[i].key != f.key
  {
    KeysExact(form, f.key);
    assert (form + [f])[..|form|] == form;
  }

  /**
   * `chatApi.sendMessage`: `sender` always, then `text`, `type` and `file`
   * each only when truthy. The server receives exactly the sender, the
   * truthy text and type, and an upload only for a File; a forwarded URL
   * travels as a string field that the server ignores. No name occurs
   * twice, and `replyTo` is none of the names a form can carry.
   */
  method SendMessageForm(d: SendData) returns (form: seq<FormField>)
    ensures |form| >= 1 && form[0] == StringPart(SenderKey, d.sender)
    ensures Received(form) == Delivered(d)
    ensures DistinctKeys(form)
    ensures (d.file.Some? && d.file.value.Url? && d.file.value.url != "") ==> StringPart(FileKey, d.file.value.url) in form
    ensures FileKey in Keys(form) <==> AttachmentTruthy(d.file)
  {
    form := [StringPart(SenderKey, d.sender)];
    assert form[..0] == [];
    if Truthy(d.text) {
      var f := StringPart(TextKey, d.text.value);
      AppendFresh(form, f);
      ReceivedAppend(form, f);
      form := form + [f];
    }
    if Truthy(d.msgType) {
      var f := StringPart(TypeKey, d.msgType.value);
      AppendFresh(form, f);
      ReceivedAppend(form, f);
      form := form + [f];
    }
    assert Keys(form) <= {SenderKey, TextKey, TypeKey};
    if AttachmentTruthy(d.file) {
      var f := match d.file.value
        case Blob(p) => BlobPart(FileKey, p)
        case Url(u) => StringPart(FileKey, u);
      AppendFresh(form, f);
      ReceivedAppend(form, f);
      form := form + [f];
    }
  }

  // ---------------------------------------------------------------------------
  // getFiles: every file message of every chat

  /** One row of the materials listing. */
  datatype FileEntry = FileEntry(
    id: string,
    name: string,
    msgType: Option<string>,
    size: Option<nat>,
    date: Option<string>,
    sender: Option<string>,
    file: string,
    chatId: string,
    chatName: string)

  /** `message.file && message.originalName` */
  predicate HasFile(m: Message) {
    Truthy(m.file) && Truthy(m.originalName)
  }

  function EntryOf(c: Chat, m: Message): (e: FileEntry)
    requires HasFile(m)
    ensures e.id == m.id && e.name == m.originalName.value && e.file == m.file.value
    ensures e.msgType == m.msgType && e.size == m.size && e.date == m.createdAt && e.sender == m.sender
    ensures e.chatId == c.id && e.chatName == OrElse(c.name, "Чат")
  {
    FileEntry(m.id, m.originalName.value, m.msgType, m.size, m.createdAt, m.sender, m.file.value,
              c.id, OrElse(c.name, "Чат"))
  }

  /** The entries the inner `forEach` pushes for the messages `ms` of chat `c`. */
  function MessageFiles(c: Chat, ms: seq<Message>): (r: seq<FileEntry>)
    ensures |r| <= |ms|
  {
    if ms == [] then []
    else
      MessageFiles(c, ms[..|ms| - 1])
      + (if HasFile(ms[|ms| - 1]) then [EntryOf(c, ms[|ms| - 1])] else [])
  }

  /** The entries the outer `forEach` has pushed after the chats `cs`. */
  function CollectFiles(cs: seq<Chat>): seq<FileEntry> {
    if cs == [] then [] else CollectFiles(cs[..|cs| - 1]) + MessageFiles(cs[|cs| - 1], MessagesOf(cs[|cs| - 1]))
  }

  /** `materialsApi.getFiles(userId)` over the chats the server answered with. */
  method GetFiles(chats: seq<Chat>, userId: Option<string>) returns (r: seq<FileEntry>)
    ensures !Truthy(userId) ==> r == CollectFiles(chats)
    ensures Truthy(userId) ==> r == Filter(CollectFiles(chats), (e: FileEntry) => e.sender == userId)
  {
    var allFiles: seq<FileEntry> := [];
    var i := 0;
    while i < |chats|
      invariant 0 <= i <= |chats|
      invariant allFiles == CollectFiles(chats[..i])
    {
      var chat := chats[i];
      var ms := MessagesOf(chat);
      var j := 0;
      ghost var before := allFiles;
      while j < |ms|
        invariant 0 <= j <= |ms|
        invariant allFiles == before + MessageFiles(chat, ms[..j])
      {
        var message := ms[j];
        assert ms[..j + 1][..j] == ms[..j];
        if Truthy(message.file) && Truthy(message.originalName) {
          allFiles := allFiles + [EntryOf(chat, message)];
        }
        j := j + 1;
      }
      assert ms[..j] == ms;
      assert chats[..i + 1][..i] == chats[..i];
      i := i + 1;
    }
    assert chats[..i] == chats;
    if Truthy(userId) {
      return Filter(allFiles, (e: FileEntry) => e.sender == userId);
    }
    return allFiles;
  }

  /** Every entry comes from a file message of `c`, and every file message of `c` has its entry. */
  lemma {:induction false} MessageFilesExact(c: Chat, ms: seq<Message>, e: FileEntry)
    ensures e in MessageFiles(c, ms) <==> exists j :: 0 <= j < |ms| && HasFile(ms[j]) && e == EntryOf(c, ms[j])
  {
    if ms != [] {
      var init := ms[..|ms| - 1];
      MessageFilesExact(c, init, e);
      assert forall j :: 0 <= j < |init| ==> init[j] == ms[j];
    }
  }

  /** Listing several chats is listing each in turn: chat order, then message order. */
  lemma {:induction false} CollectFilesConcat(a: seq<Chat>, b: seq<Chat>)
    ensures CollectFiles(a + b) == CollectFiles(a) + CollectFiles(b)
    decreases |b|
  {
    if b != [] {
      var b0 := b[..|b| - 1];
      assert (a + b)[..|a + b| - 1] == a + b0;
      assert (a + b)[|a + b| - 1] == b[|b| - 1];
      CollectFilesConcat(a, b0);
    } else {
      assert a + b == a;
    }
  }

  lemma CollectFilesOne(c: Chat)
    ensures CollectFiles([c]) == MessageFiles(c, MessagesOf(c))
  {
    assert [c][..0] == [];
  }

  /** An entry is listed exactly when some chat has a message with both a file and an original name. */
  lemma {:induction false} CollectFilesExact(cs: seq<Chat>, e: FileEntry)
    ensures e in CollectFiles(cs) <==>
              exists i :: 0 <= i < |cs| && e in MessageFiles(cs[i], MessagesOf(cs[i]))
  {
    if cs != [] {
      var init := cs[..|cs| - 1];
      CollectFilesExact(init, e);
      assert forall i :: 0 <= i < |init| ==> init[i] == cs[i];
    }
  }

  /** Filtering by a user keeps exactly that user's entries. */
  lemma GetFilesBySender(all: seq<FileEntry>, userId: string, e: FileEntry)
    ensures e in Filter(all, (f: FileEntry) => f.sender == Some(userId)) <==> e in all && e.sender == Some(userId)
  {
    FilterMembers(all, (f: FileEntry) => f.sender == Some(userId));
  }

  // ---------------------------------------------------------------------------
  // getFileUrl

  /** The server root the default API URL lives under. */
  const ApiOrigin: string := "http://localhost:4000"
  const DefaultApiUrl: string := ApiOrigin + "/api"

  /** `process.env.NEXT_PUBLIC_API_URL || 'http://localhost:4000/api'` */
  function ApiUrl(env: Option<string>): (r: string)
    ensures Truthy(env) ==> r == env.value
    ensures !Truthy(env) ==> r == DefaultApiUrl
  {
    OrElse(env, DefaultApiUrl)
  }

  /** The leftmost occurrence of `pat` in `s`. */
  function FirstOccurrence(s: string, pat: string): (r: Option<nat>)
    ensures r.Some? ==> OccursAt(s, pat, r.value) && forall j :: 0 <= j < r.value ==> !OccursAt(s, pat, j)
    ensures r.None? ==> forall j :: 0 <= j ==> !OccursAt(s, pat, j)
    decreases |s|
  {
    if StartsWith(s, pat) then Some(0)
    else if s == [] then None
    else
      match FirstOccurrence(s[1..], pat)
      case None =>
        assert forall j :: 1 <= j ==> OccursAt(s, pat, j) ==> OccursAt(s[1..], pat, j - 1);
        None
      case Some(k) =>
        assert OccursAt(s[1..], pat, k) ==> OccursAt(s, pat, k + 1);
        assert forall j :: 1 <= j <= k ==> OccursAt(s, pat, j) ==> OccursAt(s[1..], pat, j - 1);
        Some(k + 1)
  }

  /** `s.replace(pat, rep)` with a string pattern: only the first occurrence is replaced. */
  function ReplaceFirst(s: string, pat: string, rep: string): string {
    match FirstOccurrence(s, pat)
    case None => s
    case Some(i) => s[..i] + rep + s[i + |pat|..]
  }

  /** `${API_URL.replace('/api', '')}/uploads/${filename}` */
  function FileUrl(apiUrl: string, filename: string): string {
    ReplaceFirst(apiUrl, "/api", "") + "/uploads/" + filename
  }

  /** The URL keeps everything of the API URL but its first `/api`, then names the upload. */
  lemma FileUrlShape(apiUrl: string, filename: string)
    ensures !Contains(apiUrl, "/api") ==> FileUrl(apiUrl, filename) == apiUrl + "/uploads/" + filename
    ensures FirstOccurrence(apiUrl, "/api").None? ==> FileUrl(apiUrl, filename) == apiUrl + "/uploads/" + filename
    ensures FirstOccurrence(apiUrl, "/api").Some? ==>
              var i := FirstOccurrence(apiUrl, "/api").value;
              FileUrl(apiUrl, filename) == apiUrl[..i] + apiUrl[i + 4..] + "/uploads/" + filename
  {
    FirstOccurrenceIffContains(apiUrl, "/api");
  }

  /** There is a first occurrence exactly when `s.includes(pat)`. */
  lemma FirstOccurrenceIffContains(s: string, pat: string)
    ensures FirstOccurrence(s, pat).Some? <==> Contains(s, pat)
  {
    if Contains(s, pat) {
      var i := ContainsHasOccurrence(s, pat);
    }
    if FirstOccurrence(s, pat).Some? {
      OccurrenceContains(s, pat, FirstOccurrence(s, pat).value);
    }
  }

  /** The first occurrence is the one before which there is none. */
  lemma FirstOccurrenceAt(s: string, pat: string, i: nat)
    requires OccursAt(s, pat, i) && forall j :: 0 <= j < i ==> !OccursAt(s, pat, j)
    ensures FirstOccurrence(s, pat) == Some(i)
  {
  }

  /** The default API URL has its only `/api` at its end. */
  lemma DefaultApiSegment()
    ensures FirstOccurrence(DefaultApiUrl, "/api") == Some(|ApiOrigin|)
  {
    var s := DefaultApiUrl;
    var n := |ApiOrigin|;
    forall j | 0 <= j < n ensures !OccursAt(s, "/api", j) {
      assert s[j + 3] != 'i' by {
        assert forall k :: 0 <= k < n ==> ApiOrigin[k] != 'i';
        if j + 3 < n {
          assert s[j + 3] == ApiOrigin[j + 3];
        } else {
          assert s[j + 3] == "/api"[j + 3 - n];
        }
      }
      assert s[j..j + 4][3] == s[j + 3];
    }
    assert s[n..] == "/api";
    FirstOccurrenceAt(s, "/api", n);
  }

  /** With the default API URL, files are served from the server root. */
  lemma DefaultFileUrl(filename: string)
    ensures FileUrl(ApiUrl(None), filename) == ApiOrigin + "/uploads/" + filename
  {
    DefaultApiSegment();
    ReplaceSuffix(ApiOrigin, "/api");
  }

  /** Removing a pattern whose first occurrence ends the string leaves what precedes it. */
  lemma ReplaceSuffix(a: string, pat: string)
    requires FirstOccurrence(a + pat, pat) == Some(|a|)
    ensures ReplaceFirst(a + pat, pat, "") == a
  {
    assert (a + pat)[..|a|] == a;
  }
}
