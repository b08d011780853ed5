/**
 * The chat view (`ChatWindow`): the message list of one open chat and the
 * handlers that change it. React state is modelled as the fields of a
 * `ChatView` object; every state setter a handler calls becomes an assignment
 * to the field, and the list transforms the handlers apply are the pure
 * functions below. The clock (`Date.now()` and the locale time string) and
 * the server's answers are parameters.
 */
module ChatWindow {
  import opened Wrappers
  import opened Text
  import opened Listing
  import opened Entities
  import opened Server
  import opened Api

  /** The sender id the view uses for its own user. */
  const Me: string := "me"

  /** `chat.members?.includes('bot') || chat.id === 'bot-chat'` */
  predicate IsBotChat(c: Chat) {
    BotUserId in MembersOf(c) || c.id == BotChatId
  }

  // ---------------------------------------------------------------------------
  // Reactions: a per-message tally from emoji to count, with no record of who reacted.

  /** `m.reactions?.[emoji] || 0` */
  function ReactionCount(m: Message, emoji: string): nat {
    if emoji in m.reactions then m.reactions[emoji] else 0
  }

  /** One more `emoji` on one message. */
  function Bump(m: Message, emoji: string): (r: Message)
    ensures ReactionCount(r, emoji) == ReactionCount(m, emoji) + 1
    ensures forall e :: e != emoji ==> ReactionCount(r, e) == ReactionCount(m, e)
    ensures r.(reactions := m.reactions) == m
  {
    m.(reactions := m.reactions[emoji := ReactionCount(m, emoji) + 1])
  }

  /** `handleAddReaction`: bump `emoji` on every message with id `msgId`. */
  function AddReaction(ms: seq<Message>, msgId: string, emoji: string): (r: seq<Message>) {
    MapWhere(ms, (m: Message) => m.id == msgId, (m: Message) => Bump(m, emoji))
  }

  /** A reaction adds exactly one to its emoji on the matching messages and changes nothing else. */
  lemma AddReactionCounts(ms: seq<Message>, msgId: string, emoji: string)
    ensures |AddReaction(ms, msgId, emoji)| == |ms|
    ensures forall i :: 0 <= i < |ms| && ms[i].id == msgId ==>
              ReactionCount(AddReaction(ms, msgId, emoji)[i], emoji) == ReactionCount(ms[i], emoji) + 1
    ensures forall i, e :: 0 <= i < |ms| && e != emoji ==>
              ReactionCount(AddReaction(ms, msgId, emoji)[i], e) == ReactionCount(ms[i], e)
    ensures forall i :: 0 <= i < |ms| ==>
              AddReaction(ms, msgId, emoji)[i].(reactions := ms[i].reactions) == ms[i]
    ensures forall i :: 0 <= i < |ms| && ms[i].id != msgId ==> AddReaction(ms, msgId, emoji)[i] == ms[i]
  {
  }

  lemma BumpCommutes(m: Message, e1: string, e2: string)
    ensures Bump(Bump(m, e1), e2) == Bump(Bump(m, e2), e1)
  {
    if e1 != e2 {
      assert Bump(Bump(m, e1), e2).reactions == Bump(Bump(m, e2), e1).reactions;
    }
  }

  /** As a tally, the order in which two reactions arrive does not matter. */
  lemma AddReactionCommutes(ms: seq<Message>, a: string, e1: string, b: string, e2: string)
    ensures AddReaction(AddReaction(ms, a, e1), b, e2) == AddReaction(AddReaction(ms, b, e2), a, e1)
  {
    var x := AddReaction(AddReaction(ms, a, e1), b, e2);
    var y := AddReaction(AddReaction(ms, b, e2), a, e1);
    forall i | 0 <= i < |ms| ensures x[i] == y[i] {
      BumpCommutes(ms[i], e1, e2);
    }
  }

  // ---------------------------------------------------------------------------
  // Delete, edit, thread, search

  /** `handleDelete`: `prev.filter(m => m.id !== msgId)` */
  function DeleteMessage(ms: seq<Message>, msgId: string): (r: seq<Message>) {
    Filter(ms, (m: Message) => m.id != msgId)
  }

  /** Delete removes every message with that id and keeps every other message. */
  lemma DeleteRemovesExactly(ms: seq<Message>, msgId: string)
    ensures forall m :: m in DeleteMessage(ms, msgId) <==> m in ms && m.id != msgId
  {
    FilterMembers(ms, (m: Message) => m.id != msgId);
  }

  lemma DeleteIdempotent(ms: seq<Message>, msgId: string)
    ensures DeleteMessage(DeleteMessage(ms, msgId), msgId) == DeleteMessage(ms, msgId)
  {
    FilterIdempotent(ms, (m: Message) => m.id != msgId);
  }

  /** `handleSaveEdit`: `prev.map(m => m.id === msgId ? { ...m, text: editText } : m)` */
  function EditMessage(ms: seq<Message>, msgId: string, text: Option<string>): (r: seq<Message>) {
    MapWhere(ms, (m: Message) => m.id == msgId, (m: Message) => m.(text := text))
  }

  /** An edit replaces the text of the matching messages only, and nothing else of them. */
  lemma EditChangesOnlyText(ms: seq<Message>, msgId: string, text: Option<string>)
    ensures |EditMessage(ms, msgId, text)| == |ms|
    ensures forall i :: 0 <= i < |ms| && ms[i].id == msgId ==> EditMessage(ms, msgId, text)[i] == ms[i].(text := text)
    ensures forall i :: 0 <= i < |ms| && ms[i].id != msgId ==> EditMessage(ms, msgId, text)[i] == ms[i]
  {
  }

  lemma EditIdempotent(ms: seq<Message>, msgId: string, text: Option<string>)
    ensures EditMessage(EditMessage(ms, msgId, text), msgId, text) == EditMessage(ms, msgId, text)
  {
  }

  /** `handleOpenThread`: `messages.filter(m => m.replyTo === msgId)` */
  function Thread(ms: seq<Message>, msgId: string): (r: seq<Message>) {
    Filter(ms, (m: Message) => m.replyTo == Some(msgId))
  }

  /** A thread is one hop deep: exactly the direct replies to the message. */
  lemma ThreadIsDirectReplies(ms: seq<Message>, msgId: string)
    ensures forall m :: m in Thread(ms, msgId) <==> m in ms && m.replyTo == Some(msgId)
  {
    FilterMembers(ms, (m: Message) => m.replyTo == Some(msgId));
  }

  /** Replies appended later land at the end of the thread, keeping list order. */
  lemma ThreadOfAppend(ms: seq<Message>, extra: seq<Message>, msgId: string)
    ensures Thread(ms + extra, msgId) == Thread(ms, msgId) + Thread(extra, msgId)
  {
    FilterConcat(ms, extra, (m: Message) => m.replyTo == Some(msgId));
  }

  /** The search predicate: the lower-cased text (missing text read as '') contains the query. */
  predicate Matches(m: Message, query: string) {
    ContainsCI(TextOf(m), query)
  }

  /** `filteredMessages` */
  function FilteredMessages(ms: seq<Message>, search: string): (r: seq<Message>) {
    var q := Trim(search);
    if q != "" then Filter(ms, (m: Message) => Matches(m, q)) else ms
  }

  /** A blank search shows everything; otherwise exactly the messages matching the trimmed query. */
  lemma FilteredMessagesExact(ms: seq<Message>, search: string)
    ensures Trim(search) == "" ==> FilteredMessages(ms, search) == ms
    ensures Trim(search) != "" ==>
              forall m :: m in FilteredMessages(ms, search) <==> m in ms && Matches(m, Trim(search))
  {
    var q := Trim(search);
    FilterMembers(ms, (m: Message) => Matches(m, q));
  }

  /** Surrounding whitespace in the search box does not change what is shown. */
  lemma FilteredMessagesTrimInvariant(ms: seq<Message>, search: string, pad: string)
    requires forall i :: 0 <= i < |pad| ==> IsJsSpace(pad[i])
    ensures FilteredMessages(ms, pad + search + pad) == FilteredMessages(ms, search)
  {
    PadTrim(search, pad);
  }

  lemma PadTrim(s: string, pad: string)
    requires forall i :: 0 <= i < |pad| ==> IsJsSpace(pad[i])
    ensures Trim(pad + s + pad) == Trim(s)
  {
    PadTrimStart(s + pad, pad);
    assert pad + s + pad == pad + (s + pad);
    PadTrimEnd(s, pad);
    TrimStartEnd(s, pad);
  }

  lemma {:induction false} PadTrimStart(s: string, pad: string)
    requires forall i :: 0 <= i < |pad| ==> IsJsSpace(pad[i])
    ensures TrimStart(pad + s) == TrimStart(s)
  {
    if pad != [] {
      assert (pad + s)[1..] == pad[1..] + s;
      PadTrimStart(s, pad[1..]);
    } else {
      assert pad + s == s;
    }
  }

  lemma {:induction false} PadTrimEnd(s: string, pad: string)
    requires forall i :: 0 <= i < |pad| ==> IsJsSpace(pad[i])
    ensures TrimEnd(s + pad) == TrimEnd(s)
  {
    if pad != [] {
      assert (s + pad)[..|s + pad| - 1] == s + pad[..|pad| - 1];
      PadTrimEnd(s, pad[..|pad| - 1]);
    } else {
      assert s + pad == s;
    }
  }

  /** Trailing whitespace survives `TrimStart` untouched, unless the string is blank. */
  lemma {:induction false} TrimStartEnd(s: string, pad: string)
    requires forall i :: 0 <= i < |pad| ==> IsJsSpace(pad[i])
    ensures TrimEnd(TrimStart(s + pad)) == TrimEnd(TrimStart(s))
  {
    if s != [] && IsJsSpace(s[0]) {
      assert (s + pad)[1..] == s[1..] + pad;
      TrimStartEnd(s[1..], pad);
    } else if s == [] {
      assert s + pad == pad;
      PadTrimStart([], pad);
      assert pad + [] == pad;
    } else {
      PadTrimEnd(s, pad);
    }
  }

  // ---------------------------------------------------------------------------
  // Search highlighting

  /** Equal ignoring case, character by character. */
  predicate EqualCI(a: string, b: string) {
    |a| == |b| && (a == [] || (LowerChar(a[0]) == LowerChar(b[0]) && EqualCI(a[1..], b[1..])))
  }

  lemma {:induction false} EqualCIIffLower(a: string, b: string)
    ensures EqualCI(a, b) <==> Lower(a) == Lower(b)
  {
    if a != [] && b != [] {
      EqualCIIffLower(a[1..], b[1..]);
      assert Lower(a) == [LowerChar(a[0])] + Lower(a[1..]);
      assert Lower(b) == [LowerChar(b[0])] + Lower(b[1..]);
    }
  }

  /** The query occurs at `i`, ignoring case. */
  predicate MatchAt(s: string, q: string, i: nat) {
    i + |q| <= |s| && EqualCI(s[i..i + |q|], q)
  }

  /** The first case-insensitive occurrence of `q` at or after `i`. */
  function FirstMatchFrom(s: string, q: string, i: nat): (r: Option<nat>)
    decreases |s| - i
    ensures r.Some? ==> i <= r.value && MatchAt(s, q, r.value)
    ensures r.Some? ==> forall k: nat :: i <= k < r.value ==> !MatchAt(s, q, k)
    ensures r.None? ==> forall k: nat :: i <= k ==> !MatchAt(s, q, k)
  {
    if i + |q| > |s| then None
    else if MatchAt(s, q, i) then Some(i)
    else FirstMatchFrom(s, q, i + 1)
  }

  /**
   * `text.split(new RegExp('(' + escaped query + ')', 'gi'))`: the text cut at
   * each leftmost non-overlapping occurrence, the occurrences kept as parts
   * of their own.
   */
  function SplitKeep(s: string, q: string): (parts: seq<string>)
    requires q != ""
    decreases |s|
    ensures |parts| % 2 == 1
  {
    match FirstMatchFrom(s, q, 0)
    case None => [s]
    case Some(i) => [s[..i], s[i..i + |q|]] + SplitKeep(s[i + |q|..], q)
  }

  /** The parts, joined back together. */
  function Join(parts: seq<string>): string {
    if parts == [] then "" else parts[0] + Join(parts[1..])
  }

  /** Joining the parts gives the text back. */
  lemma {:induction false} SplitKeepJoins(s: string, q: string)
    requires q != ""
    ensures Join(SplitKeep(s, q)) == s
  {
    match FirstMatchFrom(s, q, 0)
    case None =>
    case Some(i) =>
      var rest := s[i + |q|..];
      SplitKeepJoins(rest, q);
      var parts := SplitKeep(s, q);
      assert parts[1..] == [s[i..i + |q|]] + SplitKeep(rest, q);
      assert parts[1..][1..] == SplitKeep(rest, q);
      assert Join(parts) == s[..i] + (s[i..i + |q|] + rest);
      assert s == s[..i] + (s[i..i + |q|] + rest);
  }

  /** A prefix of `s` that equals the query is a match at position 0. */
  lemma PrefixMatches(s: string, q: string, i: nat)
    requires i <= |s|
    ensures EqualCI(s[..i], q) ==> MatchAt(s, q, 0)
  {
    if EqualCI(s[..i], q) {
      assert s[0..|q|] == s[..i];
    }
  }

  /** The parts alternate: exactly those at odd positions equal the query, ignoring case. */
  lemma {:induction false} SplitKeepAlternates(s: string, q: string)
    requires q != ""
    ensures var parts := SplitKeep(s, q);
            forall j :: 0 <= j < |parts| ==> (EqualCI(parts[j], q) <==> j % 2 == 1)
  {
    var parts := SplitKeep(s, q);
    match FirstMatchFrom(s, q, 0)
    case None =>
      assert s[0..|s|] == s;
    case Some(i) =>
      var rest := s[i + |q|..];
      SplitKeepAlternates(rest, q);
      PrefixMatches(s, q, i);
      forall j | 2 <= j < |parts| ensures (EqualCI(parts[j], q) <==> j % 2 == 1) {
        assert parts[j] == SplitKeep(rest, q)[j - 2];
      }
  }

  /** A rendered piece of a message text: plain, or inside `<mark>`. */
  datatype Span = Plain(content: string) | Marked(content: string)

  /** A part is marked when it equals the query ignoring case. */
  function SpanOf(part: string, query: string): Span {
    if Lower(part) == Lower(query) then Marked(part) else Plain(part)
  }

  /** `highlight(text, query)`: the whole text when the query is empty, else the parts with the occurrences marked. */
  function Highlight(text: string, query: string): seq<Span> {
    if query == "" then [Plain(text)]
    else
      var parts := SplitKeep(text, query);
      seq(|parts|, i requires 0 <= i < |parts| => SpanOf(parts[i], query))
  }

  /** The spans' texts, in order. */
  function Contents(spans: seq<Span>): seq<string> {
    seq(|spans|, i requires 0 <= i < |spans| => spans[i].content)
  }

  /**
   * Highlighting loses and adds nothing: the spans spell the text; with a
   * query, the marked spans are exactly every second one, each an occurrence
   * of the query.
   */
  lemma HighlightExact(text: string, query: string)
    ensures Join(Contents(Highlight(text, query))) == text
    ensures query == "" ==> Highlight(text, query) == [Plain(text)]
    ensures query != "" ==>
              var r := Highlight(text, query);
              forall i :: 0 <= i < |r| ==>
                (r[i].Marked? <==> i % 2 == 1) && (r[i].Marked? ==> Lower(r[i].content) == Lower(query))
  {
    if query != "" {
      var parts := SplitKeep(text, query);
      SplitKeepJoins(text, query);
      SplitKeepAlternates(text, query);
      forall j | 0 <= j < |parts| ensures EqualCI(parts[j], query) <==> Lower(parts[j]) == Lower(query) {
        EqualCIIffLower(parts[j], query);
      }
      assert Contents(Highlight(text, query)) == parts;
    } else {
      assert Contents([Plain(text)]) == [text];
      assert Join([text]) == text + Join([]);
    }
  }

  // ---------------------------------------------------------------------------
  // Labels the view renders

  /** The pinned banner: `messages.find(m => m.id === pinnedMsgId)?.text || 'Сообщение закреплено'`, shown when a pin is set. */
  function PinBanner(ms: seq<Message>, pinned: Option<string>): (r: Option<string>)
    ensures r.Some? <==> Truthy(pinned)
  {
    if !Truthy(pinned) then None
    else
      match Find(ms, (m: Message) => m.id == pinned.value)
      case Some(i) => Some(OrElse(ms[i].text, "Сообщение закреплено"))
      case None => Some("Сообщение закреплено")
  }

  /** The quote above a reply: `messages.find(m => m.id === msg.replyTo)?.text || 'Сообщение'`. */
  function ReplyLabel(ms: seq<Message>, replyTo: string): string {
    match Find(ms, (m: Message) => m.id == replyTo)
    case Some(i) => OrElse(ms[i].text, "Сообщение")
    case None => "Сообщение"
  }

  /** A reply whose target is gone (deleted, or never loaded) shows the placeholder. */
  lemma ReplyLabelMissingTarget(ms: seq<Message>, replyTo: string)
    ensures (forall i :: 0 <= i < |ms| ==> ms[i].id != replyTo) ==> ReplyLabel(ms, replyTo) == "Сообщение"
    ensures (exists i :: 0 <= i < |ms| && ms[i].id == replyTo) ==> ReplyLabel(ms, replyTo) != ""
  {
    FindFirst(ms, (m: Message) => m.id == replyTo);
  }

  /** The label quotes the first message with the target id, when its text is non-empty. */
  lemma ReplyLabelQuotesTarget(ms: seq<Message>, i: nat)
    requires i < |ms| && Truthy(ms[i].text)
    requires forall k :: 0 <= k < i ==> ms[k].id != ms[i].id
    ensures ReplyLabel(ms, ms[i].id) == ms[i].text.value
  {
    FindFirst(ms, (m: Message) => m.id == ms[i].id);
  }

  /** Nothing stops a message from replying to itself: its quote is its own text. */
  lemma SelfReplyQuotesItself(m: Message)
    requires m.replyTo == Some(m.id) && Truthy(m.text)
    ensures ReplyLabel([m], m.replyTo.value) == m.text.value
  {
  }

  /** A pin on a message that is no longer listed shows the placeholder. */
  lemma PinBannerMissing(ms: seq<Message>, pinned: string)
    requires pinned != "" && forall i :: 0 <= i < |ms| ==> ms[i].id != pinned
    ensures PinBanner(ms, Some(pinned)) == Some("Сообщение закреплено")
  {
    FindFirst(ms, (m: Message) => m.id == pinned);
  }

  // ---------------------------------------------------------------------------
  // Group members

  predicate NoDuplicates(ids: seq<string>) {
    forall i, j :: 0 <= i < j < |ids| ==> ids[i] != ids[j]
  }

  /** `handleAddUserToGroup`: append unless already present. */
  function AddToGroup(group: seq<string>, userId: string): (r: seq<string>)
    ensures userId in r
    ensures userId in group ==> r == group
    ensures userId !in group ==> r == group + [userId]
  {
    if userId in group then group else group + [userId]
  }

  /** `handleRemoveUserFromGroup`: `groupUsers.filter(id => id !== userId)` */
  function RemoveFromGroup(group: seq<string>, userId: string): (r: seq<string>) {
    Filter(group, (x: string) => x != userId)
  }

  /** Adding never creates a duplicate; adding twice is adding once. */
  lemma AddToGroupKeepsDistinct(group: seq<string>, userId: string)
    requires NoDuplicates(group)
    ensures NoDuplicates(AddToGroup(group, userId))
    ensures AddToGroup(AddToGroup(group, userId), userId) == AddToGroup(group, userId)
  {
  }

  /** Removal drops exactly the given id and undoes an add. */
  lemma RemoveFromGroupExact(group: seq<string>, userId: string)
    ensures forall x :: x in RemoveFromGroup(group, userId) <==> x in group && x != userId
    ensures RemoveFromGroup(AddToGroup(group, userId), userId) == RemoveFromGroup(group, userId)
  {
    FilterMembers(group, (x: string) => x != userId);
    if userId !in group {
      FilterConcat(group, [userId], (x: string) => x != userId);
    }
  }

  // ---------------------------------------------------------------------------
  // Sending

  /** The audio recording as the browser file `new File([audioBlob], 'audio-message.webm', { type: 'audio/webm' })`. */
  function AudioPart(size: nat): FilePart {
    FilePart("audio-message.webm", "audio/webm", size)
  }

  /** The send button does nothing when the text is whitespace only (it trims to ""), and there is no file and no recording. */
  predicate NothingToSend(input: string, file: Option<FilePart>, audio: Option<nat>) {
    Blank(input) && file.None? && audio.None?
  }

  /** The message a plain text send builds locally; it is never posted to the server. */
  function LocalMessage(now: nat, input: string, time: string): (m: Message)
    ensures m.id == NatToString(now) && m.sender == Some(Me) && m.text == Some(input) && m.time == Some(time)
    ensures m.replyTo.None? && m.file.None? && m.fileUrl.None? && m.reactions == map[]
  {
    Message(NatToString(now), Some(Me), Some(input), None, None, None, None, None, Some(time), None, None, map[])
  }

  /** What `sendMessage` is given for an attachment send, with the quoted message's id as `replyTo`. */
  function FileSendData(part: FilePart, msgType: Option<string>, replyTo: Option<Message>): SendData {
    SendData(Me, None, msgType, Some(Blob(part)), if replyTo.Some? then Some(replyTo.value.id) else None)
  }

  /** A file or voice send delivers the part, the sender and the type only: no text and no reply link. */
  lemma FileSendDelivers(part: FilePart, msgType: Option<string>, replyTo: Option<Message>)
    ensures Delivered(FileSendData(part, msgType, replyTo))
            == Delivery(MessageFields(Some(Me), None, IfTruthy(msgType)), Some(part))
  {
  }

  /** The two roles of the assistant history. */
  datatype Role = UserRole | AssistantRole

  /** `{ role, content: m.text }` */
  datatype Turn = Turn(role: Role, content: Option<string>)

  function TurnOf(m: Message): (t: Turn)
    ensures t.role == UserRole <==> m.sender == Some(Me)
    ensures t.content == m.text
  {
    Turn(if m.sender == Some(Me) then UserRole else AssistantRole, m.text)
  }

  function Turns(ms: seq<Message>): seq<Turn> {
    if ms == [] then [] else [TurnOf(ms[0])] + Turns(ms[1..])
  }

  lemma {:induction false} TurnsExact(ms: seq<Message>)
    ensures |Turns(ms)| == |ms|
    ensures forall i :: 0 <= i < |ms| ==> Turns(ms)[i] == TurnOf(ms[i])
  {
    if ms != [] {
      TurnsExact(ms[1..]);
    }
  }

  /** `[...messages, sentMsg].slice(-10).map(...)` */
  function History(ms: seq<Message>): seq<Turn> {
    Turns(LastTen(ms))
  }

  /** The last ten elements, or all of them when there are fewer. */
  function LastTen(ms: seq<Message>): seq<Message> {
    if |ms| <= 10 then ms else LastTen(ms[1..])
  }

  /** `LastTen` is `slice(-10)`. */
  lemma {:induction false} LastTenIsSlice(ms: seq<Message>)
    ensures LastTen(ms) == JsSlice(ms, -10, |ms|) == ms[|ms| - Min(10, |ms|)..]
  {
    if |ms| > 10 {
      LastTenIsSlice(ms[1..]);
      assert ms[1..][|ms| - 1 - 10..] == ms[|ms| - 10..];
    }
  }

  /** The history is the last ten messages at most, in order, role-tagged by sender. */
  lemma HistoryShape(ms: seq<Message>)
    ensures |History(ms)| == Min(10, |ms|)
    ensures forall i :: 0 <= i < |History(ms)| ==> History(ms)[i] == TurnOf(ms[|ms| - |History(ms)| + i])
  {
    LastTenIsSlice(ms);
    TurnsExact(LastTen(ms));
  }

  /** The request body of an assistant turn: `{ message: sentMsg.text, history }`. */
  datatype BotRequest = BotRequest(message: Option<string>, history: seq<Turn>)

  /**
   * An assistant turn waiting on its timer: the list as the send saw it
   * (the timer callback reads that stale copy, not the current list) and the
   * sent message.
   */
  datatype PendingBot = PendingBot(before: seq<Message>, sent: Message)

  /** A send schedules an assistant turn only in a bot chat and only when the sent message has text. */
  function BotTurn(c: Chat, before: seq<Message>, sent: Message): (r: Option<PendingBot>)
    ensures r.Some? <==> IsBotChat(c) && Truthy(sent.text)
    ensures r.Some? ==> r.value.before == before && r.value.sent == sent
  {
    if IsBotChat(c) && Truthy(sent.text) then Some(PendingBot(before, sent)) else None
  }

  /** What the timer posts to the assistant endpoint. */
  function RequestOf(p: PendingBot): BotRequest {
    BotRequest(p.sent.text, History(p.before + [p.sent]))
  }

  /** The history of a turn is never empty, holds at most ten turns and ends with the sent message. */
  lemma BotHistoryEndsWithSent(c: Chat, before: seq<Message>, sent: Message)
    requires BotTurn(c, before, sent).Some?
    ensures var r := RequestOf(BotTurn(c, before, sent).value);
            r.message == sent.text && 1 <= |r.history| <= 10 && r.history[|r.history| - 1] == TurnOf(sent)
  {
    HistoryShape(before + [sent]);
  }

  /** How the assistant request ended: a JSON answer (whose `text` may be missing), or an exception. */
  datatype BotOutcome = Answered(text: Option<string>) | Failed

  /** The text the assistant message gets: `` `🤖 ${data.text}` ``, or the fixed failure text. */
  function BotText(o: BotOutcome): (r: string)
    ensures o.Answered? && o.text.Some? ==> r == "🤖 " + o.text.value
    ensures o.Answered? && o.text.None? ==> r == "🤖 undefined"
    ensures o.Failed? ==> r == "Ошибка AI-бота"
  {
    match o
    case Answered(t) => "🤖 " + (if t.Some? then t.value else "undefined")
    case Failed => "Ошибка AI-бота"
  }

  /** The assistant message appended one second after the send. */
  function BotMessage(o: BotOutcome, now: nat, time: string): (m: Message)
    ensures m.id == NatToString(now + 1) && m.sender == Some(BotUserId) && m.text == Some(BotText(o))
    ensures m.time == Some(time) && m.replyTo.None? && m.reactions == map[]
  {
    Message(NatToString(now + 1), Some(BotUserId), Some(BotText(o)), None, None, None, None, None, Some(time), None, None, map[])
  }

  /** A failed request and a successful one are told apart by the prefix. */
  lemma BotTextPrefix(o: BotOutcome)
    ensures o.Answered? <==> StartsWith(BotText(o), "🤖 ")
  {
    if o.Failed? {
      assert BotText(o)[..|"🤖 "|] != "🤖 " by {
        assert BotText(o)[0] != "🤖 "[0];
      }
    }
  }

  /** What was posted by `handleForwardToChat`: the message's text, and its `fileUrl` as the `file` value. */
  function ForwardData(msg: Message): SendData {
    SendData(Me, msg.text, None, if Truthy(msg.fileUrl) then Some(Url(msg.fileUrl.value)) else None, None)
  }

  /** A forward carries the text only: a URL under `file` is a text field the upload middleware ignores. */
  lemma ForwardDeliversNoFile(msg: Message)
    ensures Delivered(ForwardData(msg)) == Delivery(MessageFields(Some(Me), IfTruthy(msg.text), None), None)
  {
  }

  /** `chatApi.sendMessage` as the view uses it: what matters here is what the server receives. */
  method PostForm(d: SendData) returns (form: seq<FormField>)
    ensures Received(form) == Delivered(d)
  {
    form := SendMessageForm(d);
  }

  // ---------------------------------------------------------------------------
  // The view

  /** Everything the view keeps between renders. */
  datatype ViewState = ViewState(
    messages: seq<Message>,
    input: string,
    file: Option<FilePart>,
    audio: Option<nat>,
    replyTo: Option<Message>,
    showNotification: bool,
    pinned: Option<string>,
    editingId: Option<string>,
    editText: Option<string>,
    emojiPicker: Option<string>,
    groupUsers: seq<string>,
    threadId: Option<string>,
    thread: seq<Message>,
    forwardMsg: Option<Message>,
    forwardOpen: bool,
    search: string)

  /** The messages a load receives: the list of a 200 answer, otherwise the list stays empty. */
  function Loaded(r: Response): seq<Message> {
    if r.status == 200 && r.body.MessageList? then r.body.messages else []
  }

  /** Opening a chat shows what `GET /chats/:id/messages` lists for it. */
  lemma LoadedIsListed(chats: seq<Chat>, chatId: string)
    ensures FindChat(chats, chatId).Some? ==> Loaded(ListMessages(chats, chatId)) == MessagesOf(chats[FindChat(chats, chatId).value])
    ensures FindChat(chats, chatId).None? ==> Loaded(ListMessages(chats, chatId)) == []
  {
  }

  /**
   * The outgoing message and form of a send from `st`. A file takes
   * precedence over a recording, and a recording over text; an attachment is
   * posted and the server's answer `reply` is shown (None when the post is
   * rejected, which leaves nothing to show), text is built locally.
   */
  predicate Composed(st: ViewState, reply: Option<Message>, now: nat, time: string, msg: Option<Message>, form: Option<seq<FormField>>) {
    if st.file.Some? then
      msg == reply && form.Some? && Received(form.value) == Delivered(FileSendData(st.file.value, None, st.replyTo))
    else if st.audio.Some? then
      msg == reply && form.Some?
      && Received(form.value) == Delivered(FileSendData(AudioPart(st.audio.value), Some("audio"), st.replyTo))
    else
      msg == Some(LocalMessage(now, st.input, time)) && form.None?
  }

  /** The view after `msg` is sent from `st`: the draft slot used is emptied, `msg` appended, the quote cleared. */
  function AfterSend(st: ViewState, msg: Message): ViewState {
    Drafted(st).(messages := st.messages + [msg], replyTo := None, showNotification := true)
  }

  function Drafted(st: ViewState): ViewState {
    if st.file.Some? then st.(file := None)
    else if st.audio.Some? then st.(audio := None)
    else st.(input := "")
  }

  /** A send appends one message at the end, keeps every earlier one, drops the quote and raises the notice. */
  lemma SendAppendsLast(st: ViewState, msg: Message)
    ensures var r := AfterSend(st, msg);
            |r.messages| == |st.messages| + 1 && r.messages[|st.messages|] == msg
            && r.messages[..|st.messages|] == st.messages && r.replyTo.None? && r.showNotification
  {
  }

  /** Only the draft slot the send used is emptied; nothing about pins, edits, threads, groups or search changes. */
  lemma SendClearsUsedSlot(st: ViewState, msg: Message)
    ensures var r := AfterSend(st, msg);
            r.file.None?
            && (st.file.Some? ==> r.audio == st.audio && r.input == st.input)
            && (st.file.None? && st.audio.Some? ==> r.audio.None? && r.input == st.input)
            && (st.file.None? && st.audio.None? ==> r.audio.None? && r.input == "")
            && r.(messages := st.messages, input := st.input, file := st.file, audio := st.audio,
                  replyTo := st.replyTo, showNotification := st.showNotification) == st
  {
  }

  /** A text send posts nothing and appends the local message with the typed text, even when a message was quoted. */
  lemma TextSendIsLocal(st: ViewState, reply: Option<Message>, now: nat, time: string, msg: Option<Message>, form: Option<seq<FormField>>)
    requires st.file.None? && st.audio.None? && Composed(st, reply, now, time, msg, form)
    ensures form.None? && msg.Some?
    ensures msg.value.sender == Some(Me) && msg.value.text == Some(st.input) && msg.value.id == NatToString(now)
    ensures msg.value.replyTo.None?
  {
  }

  /** An attachment send shows the server's record, if any, and delivers a file, never text. */
  lemma AttachmentSendIsPosted(st: ViewState, reply: Option<Message>, now: nat, time: string, msg: Option<Message>, form: Option<seq<FormField>>)
    requires (st.file.Some? || st.audio.Some?) && Composed(st, reply, now, time, msg, form)
    ensures msg == reply && form.Some?
    ensures Received(form.value).file.Some? && Received(form.value).fields.text.None?
    ensures st.file.None? ==> Received(form.value) == Delivery(MessageFields(Some(Me), None, Some("audio")), Some(AudioPart(st.audio.value)))
  {
  }

  class ChatView {
    const chat: Chat
    var messages: seq<Message>
    var input: string
    var file: Option<FilePart>
    /** The recorded voice message, by its size in bytes. */
    var audio: Option<nat>
    var replyTo: Option<Message>
    var showNotification: bool
    var pinned: Option<string>
    var editingId: Option<string>
    var editText: Option<string>
    var emojiPicker: Option<string>
    var groupUsers: seq<string>
    var threadId: Option<string>
    var thread: seq<Message>
    var forwardMsg: Option<Message>
    var forwardOpen: bool
    var search: string

    function State(): ViewState
      reads this
    {
      ViewState(messages, input, file, audio, replyTo, showNotification, pinned, editingId, editText,
                emojiPicker, groupUsers, threadId, thread, forwardMsg, forwardOpen, search)
    }

    /** `filteredMessages`, the list the view renders. */
    function Shown(): seq<Message>
      reads this
    {
      FilteredMessages(messages, search)
    }

    /** Mounting the view for `c` with the answer of the message load; a group chat (more than two members) also lists its members. */
    constructor (c: Chat, load: Response)
      ensures chat == c
      ensures State() == ViewState(Loaded(load), "", None, None, None, false, None, None, Some(""), None,
                                   if |MembersOf(c)| > 2 then MembersOf(c) else [], None, [], None, false, "")
    {
      chat := c;
      messages := Loaded(load);
      input := "";
      file := None;
      audio := None;
      replyTo := None;
      showNotification := false;
      pinned := None;
      editingId := None;
      editText := Some("");
      emojiPicker := None;
      groupUsers := if |MembersOf(c)| > 2 then MembersOf(c) else [];
      threadId := None;
      thread := [];
      forwardMsg := None;
      forwardOpen := false;
      search := "";
    }

    /** The message input's `onChange`. */
    method SetInput(v: string)
      modifies this
      ensures State() == old(State()).(input := v)
    {
      input := v;
    }

    /** `handleFileChange`: the first chosen file, if any, replaces the attachment; no choice changes nothing. */
    method ChooseFile(f: Option<FilePart>)
      modifies this
      ensures f.Some? ==> State() == old(State()).(file := f)
      ensures f.None? ==> State() == old(State())
    {
      if f.Some? {
        file := f;
      }
    }

    /** The recorder's `onstop`: the recording, by its size, becomes the voice draft. */
    method RecordingStopped(size: nat)
      modifies this
      ensures State() == old(State()).(audio := Some(size))
    {
      audio := Some(size);
    }

    /** The search box's `onChange`. */
    method SetSearch(v: string)
      modifies this
      ensures State() == old(State()).(search := v)
    {
      search := v;
    }

    /** The edit box's `onChange`. */
    method SetEditText(v: string)
      modifies this
      ensures State() == old(State()).(editText := Some(v))
    {
      editText := Some(v);
    }

    /**
     * `handleSend`. `reply` is what the server answers to an attachment post,
     * None when the post is rejected: the awaited call then throws and the rest
     * of the handler does not run. `sent` is the appended message, `form` the
     * multipart body posted, and `request` the assistant turn the send starts.
     */
    method HandleSend(reply: Option<Message>, now: nat, time: string)
      returns (sent: Option<Message>, form: Option<seq<FormField>>, request: Option<PendingBot>)
      modifies this
      ensures sent.None? <==>
                NothingToSend(old(input), old(file), old(audio)) || ((old(file).Some? || old(audio).Some?) && reply.None?)
      ensures NothingToSend(old(input), old(file), old(audio)) ==> form.None?
      ensures !NothingToSend(old(input), old(file), old(audio)) ==> Composed(old(State()), reply, now, time, sent, form)
      ensures sent.None? ==> State() == old(State()) && request.None?
      ensures sent.Some? ==>
                State() == AfterSend(old(State()), sent.value)
                && request == BotTurn(chat, old(messages), sent.value)
    {
      if NothingToSend(input, file, audio) {
        return None, None, None;
      }
      sent, form := Outgoing(reply, now, time);
      if sent.None? {
        return sent, form, None;
      }
      request := BotTurn(chat, messages, sent.value);
      Commit(sent.value);
    }

    /** The state updates of a send: empty the draft slot used, append `msg`, drop the quote, raise the notice. */
    method Commit(msg: Message)
      modifies this
      ensures State() == AfterSend(old(State()), msg)
    {
      ClearDraft();
      messages := messages + [msg];
      replyTo := None;
      showNotification := true;
    }

    /** Empty the draft slot a send used: the file, else the recording, else the text. */
    method ClearDraft()
      modifies this
      ensures State() == Drafted(old(State()))
    {
      if file.Some? {
        file := None;
      } else if audio.Some? {
        audio := None;
      } else {
        input := "";
      }
    }

    /** The message a send appends and the form it posts. */
    method Outgoing(reply: Option<Message>, now: nat, time: string) returns (msg: Option<Message>, form: Option<seq<FormField>>)
      ensures Composed(State(), reply, now, time, msg, form)
    {
      if file.Some? {
        var f := PostForm(FileSendData(file.value, None, replyTo));
        msg, form := reply, Some(f);
      } else if audio.Some? {
        var f := PostForm(FileSendData(AudioPart(audio.value), Some("audio"), replyTo));
        msg, form := reply, Some(f);
      } else {
        msg, form := Some(LocalMessage(now, input, time)), None;
      }
    }

    /** The assistant's answer (or failure) arrives and is appended to the list as it is then. */
    method ReceiveBotReply(o: BotOutcome, now: nat, time: string)
      modifies this
      ensures State() == old(State()).(messages := old(messages) + [BotMessage(o, now, time)])
    {
      messages := messages + [BotMessage(o, now, time)];
    }

    /** `handleAddReaction`: count the emoji and close the picker. */
    method HandleAddReaction(msgId: string, emoji: string)
      modifies this
      ensures State() == old(State()).(messages := AddReaction(old(messages), msgId, emoji), emojiPicker := None)
    {
      messages := AddReaction(messages, msgId, emoji);
      emojiPicker := None;
    }

    method HandleDelete(msgId: string)
      modifies this
      ensures State() == old(State()).(messages := DeleteMessage(old(messages), msgId))
    {
      messages := DeleteMessage(messages, msgId);
    }

    /** `handleEdit`: start editing with the message's current text. */
    method HandleEdit(msg: Message)
      modifies this
      ensures State() == old(State()).(editingId := Some(msg.id), editText := msg.text)
    {
      editingId := Some(msg.id);
      editText := msg.text;
    }

    method HandleSaveEdit(msgId: string)
      modifies this
      ensures State() == old(State()).(messages := EditMessage(old(messages), msgId, old(editText)),
                                       editingId := None, editText := Some(""))
    {
      messages := EditMessage(messages, msgId, editText);
      editingId := None;
      editText := Some("");
    }

    /** One pin slot: the last pin wins, and unpinning clears it. */
    method HandlePin(msgId: Option<string>)
      modifies this
      ensures State() == old(State()).(pinned := msgId)
    {
      pinned := msgId;
    }

    method HandleForward(msg: Message)
      modifies this
      ensures State() == old(State()).(forwardMsg := Some(msg), forwardOpen := true)
    {
      forwardMsg := Some(msg);
      forwardOpen := true;
    }

    /**
     * `handleForwardToChat(chatId)`: post the chosen message to chat `chatId`,
     * then close the dialog. `ok` is false when the post is rejected: the
     * awaited call then throws and the dialog stays open with the message held.
     */
    method HandleForwardToChat(chatId: string, ok: bool) returns (target: Option<string>, form: Option<seq<FormField>>)
      modifies this
      ensures old(forwardMsg).None? ==> target.None? && form.None? && State() == old(State())
      ensures old(forwardMsg).Some? ==>
                target == Some(chatId)
                && form.Some? && Received(form.value) == Delivered(ForwardData(old(forwardMsg).value))
      ensures old(forwardMsg).Some? && ok ==> State() == old(State()).(forwardMsg := None, forwardOpen := false)
      ensures !ok ==> State() == old(State())
    {
      if forwardMsg.None? {
        return None, None;
      }
      var f := PostForm(ForwardData(forwardMsg.value));
      target, form := Some(chatId), Some(f);
      if !ok {
        return;
      }
      forwardOpen := false;
      forwardMsg := None;
    }

    method HandleReply(msg: Message)
      modifies this
      ensures State() == old(State()).(replyTo := Some(msg))
    {
      replyTo := Some(msg);
    }

    method HandleOpenThread(msgId: string)
      modifies this
      ensures State() == old(State()).(threadId := Some(msgId), thread := Thread(old(messages), msgId))
    {
      threadId := Some(msgId);
      thread := Thread(messages, msgId);
    }

    method HandleCloseThread()
      modifies this
      ensures State() == old(State()).(threadId := None, thread := [])
    {
      threadId := None;
      thread := [];
    }

    method HandleAddUserToGroup(userId: string)
      modifies this
      ensures State() == old(State()).(groupUsers := AddToGroup(old(groupUsers), userId))
    {
      if userId !in groupUsers {
        groupUsers := groupUsers + [userId];
      }
    }

    method HandleRemoveUserFromGroup(userId: string)
      modifies this
      ensures State() == old(State()).(groupUsers := RemoveFromGroup(old(groupUsers), userId))
    {
      groupUsers := RemoveFromGroup(groupUsers, userId);
    }
  }
}
