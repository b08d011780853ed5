# Campus Hub: chat, assistant and page logic in Dafny

This project models the messaging core of Campus Hub, a student portal made of a Next.js/React
client and a small Express server over a JSON database. It covers:

- the chat view's message list and its handlers (`ChatWindow.js`);
- the server routes that store chats, messages, uploads, users, grades and enrolments (`server.js`);
- the assistant endpoint that enriches a prompt by keyword intents and assembles the completion request (`gpt.ts`);
- the client REST boundary that builds message forms, lists files and builds download URLs (`api.ts`);
- the pure filter, sort, pagination, validation and formatting rules of the pages that sit around the chat.

State that the source updates in place is a Dafny `class`:

- the server database is `Server.Db`;
- the chat view is `ChatWindow.ChatView`;
- each page's React state is a small class whose fields are the `useState` variables.

List transforms, validators and formatters are functions, each with lemmas. Everything a handler
cannot see becomes a parameter of the method that models it:

- the clock (`Date.now()`, locale time strings);
- the outcome of a network request;
- whether the filesystem accepts a write (`canWrite` in the start-up repair);
- a browser confirmation;
- the answer of an external service.

| module | file | models |
|---|---|---|
| `Wrappers`, `Text` | wrappers.dfy, text.dfy | JavaScript values the code relies on. These are `Option`, truthiness and `\|\|`, `toLowerCase`, `includes`, `trim`, string `<` (lexicographic by character, see "## Left out" on UTF-16) and decimal `toString` with its inverse. |
| `Listing` | listing.dfy | `filter`, `find`, conditional `map`, stable `sort` on a strict weak order, `slice`, ten-row pagination, and the sort-header and pager state machine. |
| `Entities` | entities.dfy | The JSON records shared by server and client: message, chat, user, grade. |
| `Server` | server.dfy | `server.js` routes, the upload name rule and the start-up placeholder repair. |
| `Assistant` | assistant.dfy | `src/pages/api/gpt.ts`. |
| `Api` | api.dfy | `src/lib/api.ts`: `sendMessage`, `getFiles`, `getFileUrl`. |
| `ChatWindow` | chat_window.dfy | `src/components/ChatWindow.js`. |
| `MessagesPage`, `NewChatModal` | messages_page.dfy, new_chat_modal.dfy | The chat list page and the new-chat dialog. |
| `ScheduleManager`, `GradeManager` | schedule_manager.dfy, grade_manager.dfy | The two admin tables. |
| `Announcements`, `Materials` | announcements.dfy, materials.dfy | The announcements page and the shared-files page. |
| `Boards`, `Testing`, `Tasks`, `Projects` | boards.dfy, testing.dfy, tasks.dfy, projects.dfy | The three card pages, which share one search-and-status list. |
| `UsersPage`, `AdminDashboard` | users_page.dfy, admin_dashboard.dfy | User administration. |
| `AddStudentModal`, `RegisterPage`, `ChangePasswordModal`, `TwoFactorAuthModal`, `ProgressBar` | add_student_modal.dfy, register_page.dfy, change_password_modal.dfy, two_factor_modal.dfy, progress_bar.dfy | Forms and widgets. |

Behaviour of the code that is easy to misread, as the model states it:

- **The assistant's intent scan is cumulative, not first-match.** Every matching intent appends its piece, in the order weather, news, currency, transport, cinema, bell (`Assistant.AdditionsInOrder`, `Assistant.WeatherThenNews`).
- **A non-empty history replaces the enriched prompt.** The chat view always sends a non-empty history, so the enrichment never reaches the completion backend from the chat view (`Assistant.ChatViewRequestsDiscardEnrichment`).
- **A self-reply is not rejected.** A message whose `replyTo` is its own id quotes itself (`ChatWindow.SelfReplyQuotesItself`).
- **A missing reply target is shown with the placeholder label "Сообщение"** (`ChatWindow.ReplyLabelMissingTarget`).
- **A forward does not carry the file.** The message's `fileUrl` is posted as a string under `file`, which the upload middleware does not treat as a file, so the text is all that arrives (`ChatWindow.ForwardDeliversNoFile`).
- **`replyTo` is accepted by `sendMessage` but never sent** (`Api.SendMessageForm`).
- **A plain text send is never posted.** It is built locally with sender `me` (`ChatWindow.TextSendIsLocal`).
- **The duration format is `"<h>ч <m>м"` or `"<m> минут"`**, with no space before the unit letters (`Testing.FormatDuration`).
- **The member-removal cascade looks each chat up by id in the current list.** With duplicate chat ids, the first chat with that id is rewritten twice and the later one keeps the member (`Server.CascadeWithDuplicateIds`). With distinct ids every chat loses the member (`Server.CascadeRemovesMember`).
- **The users page's updates are served by the JSON-server fallback.** Role changes and block toggles go out as `PATCH /users/:id` payloads. `server.js` has no handler of its own for them, and its final `server.use(router)` hands them to the json-server router, which is not modelled. The model states the payload and takes the request's outcome as a parameter.

## Model

| member | source | states |
|---|---|---|
| Text.OrElse | server.js:274 | `x \|\| fallback`: the value when it is a non-empty string, the fallback otherwise. |
| Text.Lower | src/components/ChatWindow.js:214 | `toLowerCase` keeps the length and lowers each character. |
| Text.LowerIdempotent | src/components/ChatWindow.js:214 | Lowering twice is lowering once. |
| Text.UpperAscii | src/pages/api/gpt.ts:95-96 | `toUpperCase` on the ASCII letters of a currency code: each letter shifts by 32, all else stays. |
| Text.ContainsCIEmpty | src/components/ScheduleManager.js:107-109 | Every string contains the empty search, so an empty search never excludes anything. |
| Text.Trim | src/components/ChatWindow.js:213 | `trim` gives an infix with no white space at either end and no longer than the input. |
| Text.TrimEmptyIffBlank | src/components/ChatWindow.js:63 | `!input.trim()` holds exactly when every character of the input is white space. |
| Text.LessTotal | src/components/ScheduleManager.js:128-129 | JavaScript string `<` is total: of two different strings one is less. |
| Text.LessTransitive | src/components/ScheduleManager.js:128-129 | String `<` is transitive. |
| Text.NatToString | server.js:78 | `Date.now().toString()` is a non-empty run of decimal digits. |
| Text.DigitRun | server.js:242 | The length of the leading run of decimal digits: no longer than the string, and the run is all digits. |
| Text.DigitRunOf | server.js:242 | Digits followed by a non-digit (or by nothing) have exactly those digits as their run, so a stored name's run ends at its "_". |
| Text.DecimalRoundTrip | server.js:78 | Reading the decimal string of `n` back gives `n`. |
| Text.NatToStringInjective | server.js:78 | Different timestamps give different ids. |
| Entities.FindChat | server.js:213 | `find({ id })` returns the index of a chat with that id. |
| Entities.FindChatFirst | server.js:213 | The chat found is the first with the id; none is found exactly when no chat has it. |
| Entities.FindChatFound | server.js:213 | The id of any chat at `i` is found at or before `i`. |
| Entities.FindUser | server.js:134 | `find({ id })` on users returns the index of a user with that id. |
| Entities.FindUserFirst | server.js:134 | The user found is the first with the id; none is found exactly when no user has it. |
| Listing.Filter | src/components/ScheduleManager.js:103-111 | `filter` keeps only elements satisfying the predicate and never grows the list. |
| Listing.FilterMembers | src/components/ScheduleManager.js:103-111 | An element is kept exactly when it is in the list and satisfies the predicate. |
| Listing.FilterConcat | src/components/NewChatModal.js:26-28 | Filtering a concatenation is concatenating the filtered parts (order is kept). |
| Listing.FilterAll | src/components/ScheduleManager.js:103-111 | When every element passes, the filter returns the list unchanged. |
| Listing.FilterIdempotent | src/app/tasks/page.tsx:151-162 | Filtering twice by one predicate is filtering once. |
| Listing.Find | src/components/ScheduleManager.js:104 | `find` returns an index whose element satisfies the predicate. |
| Listing.FindFirst | src/components/ScheduleManager.js:104 | It is the first such index, and none is returned exactly when no element qualifies. |
| Listing.MapWhere | src/app/tasks/page.tsx:241-247 | `map(x => p(x) ? f(x) : x)`: same length, `f` applied exactly where `p` holds. |
| Listing.Insert | src/components/ScheduleManager.js:113 | One insertion step of the sort adds exactly one element. |
| Listing.InsertPermutes | src/components/ScheduleManager.js:113 | An insertion step is a permutation of the old list plus the new element. |
| Listing.SortBy | src/components/ScheduleManager.js:113-131 | The sort returns a permutation of its input, ordered by the comparator. |
| Listing.InsertSorted | src/components/ScheduleManager.js:113-131 | Inserting into a sorted list keeps it sorted. |
| Listing.SortByStable | src/components/ScheduleManager.js:113-131 | The sort is stable: elements that compare equal keep their input order. |
| Listing.SortByAllEqual | src/components/ScheduleManager.js:124-130 | A comparator that ranks nothing before anything leaves the order unchanged. |
| Listing.KeyOrderIsStrictWeak | src/components/ScheduleManager.js:128-130 | Comparing lower-cased keys with `<`, ascending or descending, is a strict weak order. |
| Listing.LessNegativelyTransitive | src/components/ScheduleManager.js:128-129 | If `a < c` then `a < b` or `b < c`: the incomparability of string keys is transitive. |
| Listing.SliceIndex | src/components/ScheduleManager.js:134 | `slice` clamps an index into `[0, len]` and keeps an index already in range. |
| Listing.JsSlice | src/components/ScheduleManager.js:134 | `slice(start, end)` with indexes in range is the sub-sequence; it is never longer than the list. |
| Listing.Pages | src/components/ScheduleManager.js:133-134 | Pages 1 to k, concatenated (the reference that `PagesPartition` compares with the sorted list). |
| Listing.TotalPages | src/components/ScheduleManager.js:133 | `Math.ceil(n / 10)`: the least page count whose pages hold `n` rows. |
| Listing.PageOf | src/components/ScheduleManager.js:134 | A page holds at most ten rows. |
| Listing.PageOfInRange | src/components/ScheduleManager.js:133-134 | Page `p` in `1..totalPages` is rows `(p-1)*10` up to `min(p*10, n)`, and is non-empty. |
| Listing.PagesPrefix | src/components/ScheduleManager.js:133-134 | The first `k` pages together are the first `min(10k, n)` rows. |
| Listing.PagesPartition | src/components/ScheduleManager.js:133-134 | Pages `1..totalPages` concatenated give back the whole sorted list. |
| Listing.ClickHeader | src/components/ScheduleManager.js:155-158 | A header click selects its column; on the active column it flips the direction, otherwise it keeps it. |
| Listing.ClickHeaderTwice | src/components/ScheduleManager.js:155-158 | Clicking the active header twice restores the sort state. |
| Listing.PrevPage | src/components/ScheduleManager.js:233 | Back is disabled on page 1, and otherwise goes to `max(1, p-1)`. |
| Listing.NextPage | src/components/ScheduleManager.js:235 | Forward is disabled on the last page, and otherwise goes to `min(totalPages, p+1)`. |
| Listing.PagerStaysInRange | src/components/ScheduleManager.js:233-235 | From a page in range both buttons stay in range, moving by one where they can. |
| Listing.NextOnEmptyTable | src/components/ScheduleManager.js:233-235 | On an empty table (zero pages) Forward leads from page 1 to page 0. |
| Listing.TableControls.constructor | src/components/ScheduleManager.js:16-18 | The table starts on its initial column, ascending, on page 1. |
| Listing.TableControls.OnHeaderClick | src/components/ScheduleManager.js:155-171 | The sort state becomes the header-click result; the page stays. |
| Listing.TableControls.OnPrev | src/components/ScheduleManager.js:233 | The page becomes the Back result; the sort state stays. |
| Listing.TableControls.OnNext | src/components/ScheduleManager.js:235 | The page becomes the Forward result; the sort state stays. |
| ScheduleManager.Teachers | src/components/ScheduleManager.js:54 | The loaded teachers are users whose role is "teacher". |
| ScheduleManager.FilteredRows | src/components/ScheduleManager.js:103-111 | `filteredSchedules`: the rows whose subject, teacher or day contains the search ignoring case. |
| ScheduleManager.SortedRows | src/components/ScheduleManager.js:113-131 | `sortedSchedules`: the stable sort of a copy by the column key, ascending exactly when the direction is "asc". |
| ScheduleManager.ShownRows | src/components/ScheduleManager.js:103-134 | The rows shown are at most one page. |
| ScheduleManager.FilteredRowsExact | src/components/ScheduleManager.js:103-111 | A schedule is kept exactly when its subject name, teacher name or day (missing read as "") contains the search ignoring case; an empty search keeps the list. |
| ScheduleManager.SortedRowsOrdered | src/components/ScheduleManager.js:113-131 | The sorted rows are a permutation of the filtered ones, ordered by the lower-cased column key in the chosen direction. |
| ScheduleManager.UnknownColumnKeepsOrder | src/components/ScheduleManager.js:124-127 | An unknown sort column leaves the order unchanged. |
| ScheduleManager.PagesCoverTable | src/components/ScheduleManager.js:133-134 | The pages together show every row of the sorted table exactly once, in order. |
| GradeManager.Students | src/components/GradeManager.js:43 | The loaded students are users whose role is "student". |
| GradeManager.FilteredRows | src/components/GradeManager.js:101-108 | `filteredGrades`: the grades whose student or subject name contains the search ignoring case. |
| GradeManager.SortedRows | src/components/GradeManager.js:110-125 | `sortedGrades`: the stable sort of a copy by the column key, ascending exactly when the direction is "asc". |
| GradeManager.ShownRows | src/components/GradeManager.js:101-128 | The rows shown are at most one page. |
| GradeManager.FilteredRowsExact | src/components/GradeManager.js:101-108 | A grade is kept exactly when the student or subject name contains the search ignoring case; an empty search keeps the list. |
| GradeManager.SortedRowsOrdered | src/components/GradeManager.js:110-125 | The sorted rows are a permutation ordered by the lower-cased student or subject name in the chosen direction. |
| GradeManager.UnknownColumnKeepsOrder | src/components/GradeManager.js:118-121 | A column other than student or subject leaves the order unchanged. |
| GradeManager.PagesCoverTable | src/components/GradeManager.js:127-128 | The pages together are the whole sorted table. |
| Server.StoredName | server.js:242 | `<ms>_<originalname>`: digits that read back to the timestamp, then "_", then the original name. |
| Server.StoredNameInjective | server.js:242 | Two uploads share a stored name only with the same timestamp and the same original name. |
| Server.StoreUpload | server.js:240-244 | The upload middleware adds the file under its stored name and keeps every other file; no file changes nothing. |
| Server.NewMessage | server.js:270-280 | The new message: a timestamp id, sender as given, text defaulting to "", type from the field, else the file's mimetype, else "text"; with no file, null file and name and size 0. |
| Server.ListMessages | server.js:211-220 | An existing chat answers its messages; an absent "bot-chat" answers []; any other absent id answers 404. |
| Server.AppendMessage | server.js:281-282 | Appending keeps every other chat and every id, and puts the message after the chat's earlier messages. |
| Server.ListAfterAppend | server.js:251-283 | After a post, the chat lists its earlier messages followed by the new one. |
| Server.ListChats | server.js:196-202 | With a user id, exactly the chats having that member; without one, all chats. `ListChatsInOrder` gives the order. |
| Server.ListChatsInOrder | server.js:196-202 | The listing keeps database order: it distributes over concatenation, and a single chat is kept exactly when it has the member (or no user id is given). |
| Server.NewChat | server.js:203-207 | A chat is created exactly when `members` is a list of at least one id, with a timestamp id and no messages. |
| Server.CreatedChatIsListed | server.js:196-209 | A created chat is listed for each of its members. |
| Server.Login | server.js:49-64 | Missing email or password gives 400; 401 exactly when no user has both; otherwise 200 with the first matching user and a token. |
| Server.RegisteredUser | server.js:77-90 | A registered user has role "student", no grades, not blocked, the given credentials and a timestamp id. |
| Server.RegisterThenLogin | server.js:67-97 | A freshly registered account logs in with the same credentials and gets exactly that account back. |
| Server.RemoveUsers | server.js:136 | `remove({ id })` keeps exactly the users with another id. |
| Server.Strip | server.js:140 | Stripping a member leaves no occurrence of it. |
| Server.StripMembers | server.js:140 | Stripping keeps exactly the other members. |
| Server.WithoutMember | server.js:140 | A chat with `members.filter(id => id !== userId)`. |
| Server.CascadeStep | server.js:139-142 | One `forEach` iteration: the first chat whose id is that of chat `i` in the current list gets chat `i`'s members without the user; the list keeps its length. |
| Server.Cascade | server.js:139-142 | The chats after the first `n` iterations of the `forEach`; the list keeps its length. |
| Server.CascadeStepAtFirst | server.js:139-142 | When chat `i` is the first with its id, one iteration rewrites chat `i` alone. |
| Server.CascadeStepKeepsIds | server.js:139-142 | One iteration changes members only, never a chat id. |
| Server.CascadeKeepsIds | server.js:139-142 | The cascade changes no chat id. |
| Server.CascadePending | server.js:139-142 | With distinct ids, chats the loop has not reached are unchanged. |
| Server.CascadeFirst | server.js:139-142 | With distinct ids, the chat the loop reaches next is the first with its id. |
| Server.CascadeDone | server.js:139-142 | With distinct ids, chats the loop has passed have lost the member and nothing else. |
| Server.CascadeRemovesMember | server.js:131-144 | With distinct chat ids, deleting a user removes their id from every chat's members and keeps the other members in order. |
| Server.CascadeWithDuplicateIds | server.js:139-142 | With two chats sharing an id, the later one keeps the deleted member. |
| Server.PlaceholderText | server.js:233 | `File placeholder for ${m.originalName \|\| m.file}`. |
| Server.RepairOne | server.js:230-234 | Repairing one message keeps every file. It writes a placeholder only when the file is missing, and throws exactly when that missing file cannot be written, leaving the uploads unchanged. |
| Server.RepairMessages | server.js:229-236 | Existing files are untouched and each new file is a placeholder for a message naming it. The repair aborted exactly when some named file is still missing, and then some named file could not be written. If every file can be written, nothing aborts. |
| Server.RepairMessagesAbortIsFinal | server.js:226-238 | Once a write has thrown, the later messages are not visited: the result is that of the aborted prefix. |
| Server.AbortSkipsLaterMessages | server.js:226-238 | A first message whose missing file cannot be written stops the repair with the uploads unchanged, so the second message's file is not written. |
| Server.RepairChats | server.js:226-238 | No existing file changes and every added file is a placeholder for a message naming it. The repair aborted exactly when some file named in some chat is still missing. If every file can be written, every named file exists afterwards. |
| Server.RepairChatsAbortIsFinal | server.js:226-238 | Once a write has thrown, the later chats are not visited: the `catch {}` ends the whole repair. |
| Server.ListGrades | server.js:163-168 | A missing user has no grades; otherwise the user's grades or []. |
| Server.NewGrade | server.js:173 | A new grade has an id; every field of the body is kept and wins over the generated id. |
| Server.UpdateGrades | server.js:182 | Grades with another id are unchanged; a matching grade takes the body's fields over its own. |
| Server.UpdateGradesIdempotent | server.js:182 | Saving the same change twice equals saving it once, unless the change renames the grade. |
| Server.DeleteGrades | server.js:190 | Exactly the grades with another id remain. |
| Server.DeleteGradesIdempotent | server.js:190 | Deleting twice is deleting once. |
| Server.Enrol | server.js:332-333 | The student is enrolled afterwards; an already enrolled student changes nothing; otherwise one entry is appended; distinct ids stay distinct. |
| Server.EnrolIdempotent | server.js:333 | Enrolling twice is enrolling once. |
| Server.Unenrol | server.js:341 | Exactly the other students remain, so the student is no longer enrolled. |
| Server.FindSubject | server.js:326 | Returns the index of a subject with the id, and none exactly when no subject has it. |
| Server.FindStudent | server.js:330 | An absent student id matches nobody; otherwise it is the first user with that id. |
| Server.Db.constructor | server.js:41-46 | The database holds the given users, chats, subjects and uploads. |
| Server.Db.Register | server.js:67-97 | 400 without name, email or password; 409 for a taken email; otherwise 201 and the new student appended; chats, subjects and uploads unchanged. |
| Server.Db.DeleteUser | server.js:131-144 | An absent user gives 404 and changes nothing; otherwise every user with the id goes and the chats are the cascade result. |
| Server.Db.RemoveMemberFromChats | server.js:138-142 | The `forEach` over the chats leaves exactly the cascade result. |
| Server.Db.CreateChat | server.js:203-210 | 400 and no change without a non-empty member list; otherwise 201 and the chat appended. |
| Server.Db.UploadFile | server.js:246-249 | The file is stored; 400 without a file, otherwise the stored and original names. |
| Server.Db.PostMessage | server.js:251-284 | An existing chat gets exactly one message at the end; an absent "bot-chat" answers 201 with the message and stores nothing; any other absent chat is 404; an attached file is stored in every case. |
| Server.Db.RepairPlaceholders | server.js:226-238 | The start-up loops stop at the first write that throws and leave the uploads of `RepairChats`. |
| Server.Db.RepairChatFiles | server.js:229-236 | The inner loop stops at the first write that throws, reports it, and leaves the uploads and abort flag of `RepairMessages`. |
| Server.Db.PostGrade | server.js:169-177 | 404 for a missing user; otherwise the new grade appended to that user's grades and answered with 201. |
| Server.Db.PutGrade | server.js:178-185 | 404 for a missing user; otherwise the grades are updated and the answer is the first grade with the id afterwards, or none exactly when no grade has it. |
| Server.Db.DeleteGrade | server.js:186-193 | 404 for a missing user; otherwise the grades with the id are removed. |
| Server.Db.AddStudent | server.js:324-336 | 404 for a missing subject, then for a missing student; otherwise the student is enrolled without duplicates. |
| Server.Db.RemoveStudent | server.js:337-344 | 404 for a missing subject; otherwise the student is unenrolled. |
| Api.KeyName | src/lib/api.ts:113-116 | The form names are sender, text, type and file. |
| Api.IfTruthy | src/lib/api.ts:114-116 | A conditional append leaves a value exactly when it is truthy. |
| Api.Keys | src/lib/api.ts:112-116 | The field names of a form, in order. |
| Api.KeysExact | src/lib/api.ts:112-116 | A name is in a form exactly when some field carries it. |
| Api.AppendFresh | src/lib/api.ts:112-116 | Appending a field under a new name keeps the names distinct. |
| Api.SendMessageForm | src/lib/api.ts:111-120 | `sender` comes first; the server receives the sender, the truthy text and type, and a file only for a File; no name repeats; `replyTo` is never sent. |
| Api.EntryOf | src/lib/api.ts:158-168 | A file entry copies the message's fields; its chat name is the chat's, or "Чат". |
| Api.MessageFiles | src/lib/api.ts:156-170 | A chat contributes at most one entry per message. |
| Api.MessageFilesExact | src/lib/api.ts:156-170 | A chat contributes exactly the entries of its messages that have both file and original name. |
| Api.CollectFiles | src/lib/api.ts:155-171 | The entries the outer `forEach` pushes for a list of chats: each chat's entries, chat after chat. |
| Api.CollectFilesConcat | src/lib/api.ts:155-171 | The flattening of two chat lists is the concatenation (chat-then-message order). |
| Api.CollectFilesOne | src/lib/api.ts:155-171 | The flattening of one chat is that chat's entries. |
| Api.CollectFilesExact | src/lib/api.ts:155-171 | An entry is listed exactly when some chat contributes it. |
| Api.GetFiles | src/lib/api.ts:149-179 | Without a user id, all entries in order; with one, exactly those sent by that user. |
| Api.GetFilesBySender | src/lib/api.ts:174-176 | The per-user list keeps exactly the entries whose sender is the user. |
| Api.ApiUrl | src/lib/api.ts:3 | The environment's API URL when set, else the default. |
| Api.ReplaceFirst | src/lib/api.ts:196 | `replace` with a string pattern: the text before the first occurrence, the replacement, then the rest; unchanged without one. |
| Api.FileUrl | src/lib/api.ts:195-197 | `${API_URL.replace('/api', '')}/uploads/${filename}`. |
| Api.FirstOccurrence | src/lib/api.ts:196 | `replace('/api', '')` acts on the first occurrence, or on none. |
| Api.FirstOccurrenceIffContains | src/lib/api.ts:196 | There is a first occurrence exactly when the pattern occurs. |
| Api.FirstOccurrenceAt | src/lib/api.ts:196 | An occurrence with none before it is the first. |
| Api.FileUrlShape | src/lib/api.ts:195-197 | The URL is the API URL with its first "/api" removed (unchanged if absent), then "/uploads/", then the file name. |
| Api.DefaultApiSegment | src/lib/api.ts:3 | The default URL's first "/api" follows the origin. |
| Api.DefaultFileUrl | src/lib/api.ts:195-197 | With the default URL, files are served from the origin's "/uploads/". |
| Api.ReplaceSuffix | src/lib/api.ts:196 | Removing a pattern whose first occurrence ends the string gives back the prefix. |
| Assistant.Place | src/pages/api/gpt.ts:69 | The capture of `/в ([А-Яа-яA-Za-z\- ]+)/i`: the class run after the first "в " or "В ", if any. |
| Assistant.City | src/pages/api/gpt.ts:71 | `cityMatch ? cityMatch[1].trim() : 'Алматы'`. |
| Assistant.Route | src/pages/api/gpt.ts:112-114 | The first `\d{1,3}` of the message. |
| Assistant.CodePair | src/pages/api/gpt.ts:93 | The two captures of `/([A-Z]{3}) к ([A-Z]{3})/i`. |
| Assistant.WordPair | src/pages/api/gpt.ts:99 | The two captures of `/([а-яА-Я]{3,}) к ([а-яА-Я]{3,})/i`. |
| Assistant.Applies | src/pages/api/gpt.ts:68-127 | Whether the message asks for an intent: its keyword regex occurs; transport also needs a route. |
| Assistant.Piece | src/pages/api/gpt.ts:70-132 | What one intent block adds: `"\n" + info` when the intent applies, else nothing. |
| Assistant.Additions | src/pages/api/gpt.ts:66-133 | The prompt after the blocks of a list of intents, in order. |
| Assistant.EnrichedPrompt | src/pages/api/gpt.ts:66-133 | `promptMessage` after all six blocks. |
| Assistant.RunEnd | src/pages/api/gpt.ts:69 | A character-class run starting at `i` ends within the string. |
| Assistant.RunEndExact | src/pages/api/gpt.ts:69 | The run is maximal: all its characters are in the class and the next one is not. |
| Assistant.PlaceFrom | src/pages/api/gpt.ts:69 | The "в X" capture is non-empty when found. |
| Assistant.PlaceFromClass | src/pages/api/gpt.ts:69 | The capture consists only of letters, hyphens and spaces. |
| Assistant.Country | src/pages/api/gpt.ts:80-84 | The news country is "ru" without a capture, else the first two lower-cased characters of the trimmed capture. |
| Assistant.CountryIsCityPrefix | src/pages/api/gpt.ts:71-83 | The country is the lower-cased two-character prefix of the weather city. |
| Assistant.RouteFrom | src/pages/api/gpt.ts:112 | A route capture is one to three characters. |
| Assistant.RouteFromExact | src/pages/api/gpt.ts:112 | A route is found exactly when the message has a digit, and it is all digits. |
| Assistant.CodePairFrom | src/pages/api/gpt.ts:93 | A code pair is two three-letter codes. |
| Assistant.WordPairFrom | src/pages/api/gpt.ts:99 | A word pair is two words of at least three letters. |
| Assistant.ContainsAnyExact | src/pages/api/gpt.ts:68 | A keyword regex matches exactly when one of its literal alternatives occurs. |
| Assistant.RuCode | src/pages/api/gpt.ts:102 | The Russian currency words map into USD, KZT, EUR and RUB. |
| Assistant.Currencies | src/pages/api/gpt.ts:89-106 | A code pair is upper-cased; otherwise a word pair maps each word through the currency map, with USD (from) and KZT (to) for an unknown word; with no pair at all, USD and KZT. |
| Assistant.CodePairUpper | src/pages/api/gpt.ts:95-96 | Upper-cased codes are three capital Latin letters. |
| Assistant.WordCurrencies | src/pages/api/gpt.ts:99-105 | Without a code pair both currencies are among the four known codes; an unknown word falls back to USD (from) and KZT (to). |
| Assistant.DollarToEuro | src/pages/api/gpt.ts:99-103 | A word pair "доллар", "евро" (in any case) without a code pair asks for the USD to EUR rate. |
| Assistant.AdditionsStep | src/pages/api/gpt.ts:66-133 | Each intent step appends its piece to the prompt so far. |
| Assistant.AdditionsInOrder | src/pages/api/gpt.ts:66-133 | The enriched prompt is the message, then the weather, news, currency, transport, cinema and bell pieces in that order. |
| Assistant.AdditionsEmpty | src/pages/api/gpt.ts:66-133 | With all pieces empty the prompt is the message. |
| Assistant.AdditionsPrefix | src/pages/api/gpt.ts:66-133 | Later intents only extend the prompt. |
| Assistant.NoIntentNoEnrichment | src/pages/api/gpt.ts:66-133 | When no intent applies, the prompt is the message. |
| Assistant.FirstTwoPieces | src/pages/api/gpt.ts:66-87 | The prompt starts with the message, the weather piece and the news piece. |
| Assistant.WeatherThenNews | src/pages/api/gpt.ts:68-87 | When weather and news both apply, both lookups arrive, each after a newline, weather first. |
| Assistant.TransportNeedsRoute | src/pages/api/gpt.ts:111-113 | The transport intent applies only when a digit (the route) occurs. |
| Assistant.Conversation | src/pages/api/gpt.ts:135-142 | The system prompt first, then a non-empty history as given, otherwise a single user turn with the enriched prompt. |
| Assistant.HistoryDiscardsPrompt | src/pages/api/gpt.ts:139-141 | With a non-empty history the prompt makes no difference. |
| Assistant.Posted | src/components/ChatWindow.js:84-91 | The JSON history has one turn per chat turn. |
| Assistant.ChatViewRequestsDiscardEnrichment | src/pages/api/gpt.ts:139-141 | What the chat view sends always reaches the backend as the system prompt plus its history, so enrichment is discarded. |
| Assistant.ReplyText | src/pages/api/gpt.ts:157 | The reply is the first choice's content, or "Ошибка AI" when it is absent or empty. |
| Assistant.Enrich | src/pages/api/gpt.ts:64-133 | The intent cascade computes the enriched prompt. |
| Assistant.Step | src/pages/api/gpt.ts:66-133 | One block of the cascade appends exactly its intent's piece. |
| Assistant.Handle | src/pages/api/gpt.ts:58-162 | 405 for a non-POST; 500 before any enrichment without a key; 500 "Ошибка OpenAI API" with nothing sent when `message` is missing or not a string; otherwise it sends the conversation and answers 200 with the reply text, or 500 when the call fails. |
| ChatWindow.AddReaction | src/components/ChatWindow.js:148-154 | `handleAddReaction`: the emoji's count bumped on every message with the id. |
| ChatWindow.Bump | src/components/ChatWindow.js:149-152 | The emoji's count rises by exactly one (from 0 if absent); other emojis and fields are unchanged. |
| ChatWindow.AddReactionCounts | src/components/ChatWindow.js:148-154 | On the target message only the emoji's count rises by one; all other messages are unchanged. |
| ChatWindow.BumpCommutes | src/components/ChatWindow.js:151 | Two reactions on one message commute: the tally is a multiset. |
| ChatWindow.AddReactionCommutes | src/components/ChatWindow.js:148-152 | Any two reactions, on any messages, commute. |
| ChatWindow.DeleteMessage | src/components/ChatWindow.js:157-159 | `prev.filter(m => m.id !== msgId)`. |
| ChatWindow.DeleteRemovesExactly | src/components/ChatWindow.js:157-159 | Delete keeps exactly the messages with another id. |
| ChatWindow.DeleteIdempotent | src/components/ChatWindow.js:158 | Deleting twice is deleting once. |
| ChatWindow.EditMessage | src/components/ChatWindow.js:166-167 | `prev.map(m => m.id === msgId ? { ...m, text: editText } : m)`. |
| ChatWindow.EditChangesOnlyText | src/components/ChatWindow.js:166-167 | Save replaces the text of the matching messages only and nothing else. |
| ChatWindow.EditIdempotent | src/components/ChatWindow.js:167 | Saving the same text twice is saving it once. |
| ChatWindow.Thread | src/components/ChatWindow.js:195-198 | `messages.filter(m => m.replyTo === msgId)`. |
| ChatWindow.ThreadIsDirectReplies | src/components/ChatWindow.js:195-198 | A thread is exactly the messages whose `replyTo` is the id (one hop). |
| ChatWindow.ThreadOfAppend | src/components/ChatWindow.js:197 | Threads keep list order. |
| ChatWindow.FilteredMessages | src/components/ChatWindow.js:213-215 | `filteredMessages`: everything for a blank search, else the messages whose text contains the trimmed search ignoring case. |
| ChatWindow.FilteredMessagesExact | src/components/ChatWindow.js:213-215 | A blank search shows everything; otherwise exactly the messages whose text (missing read as "") contains the trimmed query ignoring case. |
| ChatWindow.FilteredMessagesTrimInvariant | src/components/ChatWindow.js:213-214 | White space around the search makes no difference. |
| ChatWindow.PadTrim | src/components/ChatWindow.js:213 | Trimming ignores white-space padding on both sides. |
| ChatWindow.EqualCIIffLower | src/components/ChatWindow.js:222 | Character-wise case-insensitive equality is equality of the lower-cased strings. |
| ChatWindow.FirstMatchFrom | src/components/ChatWindow.js:220 | The split finds the leftmost case-insensitive occurrence from a position, or reports none. |
| ChatWindow.SplitKeep | src/components/ChatWindow.js:220 | Splitting on a capturing group yields an odd number of parts. |
| ChatWindow.SplitKeepJoins | src/components/ChatWindow.js:220 | The parts join back to the text. |
| ChatWindow.PrefixMatches | src/components/ChatWindow.js:220 | A prefix equal to the query is a match at position 0. |
| ChatWindow.SplitKeepAlternates | src/components/ChatWindow.js:220-222 | Exactly the parts at odd positions equal the query ignoring case. |
| ChatWindow.Highlight | src/components/ChatWindow.js:218-224 | `highlight(text, query)`: the text plain for an empty query, else the split parts with the odd ones marked. |
| ChatWindow.HighlightExact | src/components/ChatWindow.js:218-224 | An empty query shows the text plain; otherwise the spans join back to the text and exactly the odd ones are marked, each equal to the query ignoring case. |
| ChatWindow.PinBanner | src/components/ChatWindow.js:229-232 | The banner shows exactly when a pin is set. |
| ChatWindow.PinBannerMissing | src/components/ChatWindow.js:232 | A pin whose message is gone shows "Сообщение закреплено". |
| ChatWindow.ReplyLabel | src/components/ChatWindow.js:352-354 | `messages.find(m => m.id === msg.replyTo)?.text \|\| 'Сообщение'`. |
| ChatWindow.ReplyLabelMissingTarget | src/components/ChatWindow.js:352-354 | A reply whose target is gone shows the placeholder "Сообщение", never an error. |
| ChatWindow.ReplyLabelQuotesTarget | src/components/ChatWindow.js:354 | A reply quotes the first message with the target id, when it has text. |
| ChatWindow.SelfReplyQuotesItself | src/components/ChatWindow.js:354 | Nothing rejects a self-reply: it quotes its own text. |
| ChatWindow.AddToGroup | src/components/ChatWindow.js:205-207 | Adding a member appends it only when absent. |
| ChatWindow.AddToGroupKeepsDistinct | src/components/ChatWindow.js:205-207 | Adding keeps the members distinct and is idempotent. |
| ChatWindow.RemoveFromGroup | src/components/ChatWindow.js:208-210 | `groupUsers.filter(id => id !== userId)`. |
| ChatWindow.RemoveFromGroupExact | src/components/ChatWindow.js:208-210 | Remove keeps exactly the other members and undoes an add. |
| ChatWindow.LocalMessage | src/components/ChatWindow.js:73 | A text send builds `{id: now, sender: "me", text: input, time}` with no reply, file or reactions. |
| ChatWindow.FileSendData | src/components/ChatWindow.js:66-70 | What `sendMessage` is given for a file or recording: sender "me", the file, the type, and the quoted id as `replyTo`. |
| ChatWindow.FileSendDelivers | src/components/ChatWindow.js:66 | A file send delivers the sender and the file (no text), and drops `replyTo`. |
| ChatWindow.History | src/components/ChatWindow.js:84-87 | `[...messages, sentMsg].slice(-10).map(...)`. |
| ChatWindow.TurnOf | src/components/ChatWindow.js:84-87 | A history turn has role "user" exactly when the sender is "me", and the message's text as content. |
| ChatWindow.TurnsExact | src/components/ChatWindow.js:84-87 | The history maps each message to its turn. |
| ChatWindow.LastTenIsSlice | src/components/ChatWindow.js:84 | `slice(-10)` is the last ten messages, or all of them. |
| ChatWindow.HistoryShape | src/components/ChatWindow.js:84-87 | The history has `min(10, n)` turns, those of the last messages in order. |
| ChatWindow.BotTurn | src/components/ChatWindow.js:80 | The assistant turn fires exactly for a bot chat and a sent message with text. |
| ChatWindow.BotHistoryEndsWithSent | src/components/ChatWindow.js:84-91 | The request carries the sent text and 1 to 10 turns, the last being the sent message. |
| ChatWindow.BotText | src/components/ChatWindow.js:94-106 | A reply reads `"🤖 " + text` ("🤖 undefined" without text); a failure reads exactly "Ошибка AI-бота". |
| ChatWindow.BotMessage | src/components/ChatWindow.js:94-106 | The assistant's message has id `now + 1`, sender "bot" and the reply text. |
| ChatWindow.BotTextPrefix | src/components/ChatWindow.js:97-104 | A text starts with "🤖 " exactly when the backend answered. |
| ChatWindow.ForwardData | src/components/ChatWindow.js:184 | What a forward gives `sendMessage`: sender "me", the text, and the `fileUrl` string as `file`. |
| ChatWindow.ForwardDeliversNoFile | src/components/ChatWindow.js:184 | A forward delivers the sender and the truthy text and no file. |
| ChatWindow.PostForm | src/components/ChatWindow.js:66-70 | The posted form delivers what `sendMessage` promises. |
| ChatWindow.LoadedIsListed | src/components/ChatWindow.js:38 | Opening a chat shows the server's list for it, and an empty list for an absent chat. |
| ChatWindow.Composed | src/components/ChatWindow.js:64-75 | File before recording before text: an attachment is posted and the server's record (none on a rejected post) is shown; text is built locally. |
| ChatWindow.AfterSend | src/components/ChatWindow.js:67-78 | The view after a send: the used draft slot emptied, the message appended, the quote cleared, the notice raised. |
| ChatWindow.SendAppendsLast | src/components/ChatWindow.js:76-78 | A send appends one message at the end, keeps the earlier ones, clears the quote and raises the notice. |
| ChatWindow.SendClearsUsedSlot | src/components/ChatWindow.js:65-75 | File before audio before text: only the slot used is emptied, and nothing else changes. |
| ChatWindow.TextSendIsLocal | src/components/ChatWindow.js:72-75 | A text send posts nothing and appends the typed text as sent by "me". |
| ChatWindow.AttachmentSendIsPosted | src/components/ChatWindow.js:65-71 | A file or audio send shows the server's record (nothing when the post is rejected) and delivers a file but no text; audio goes with type "audio". |
| ChatWindow.ChatView.constructor | src/components/ChatWindow.js:37-45 | The view opens with the loaded messages, empty drafts, and the members as group only for more than two members. |
| ChatWindow.ChatView.SetInput | src/components/ChatWindow.js:419 | The input takes the typed text; nothing else changes. |
| ChatWindow.ChatView.ChooseFile | src/components/ChatWindow.js:113-116 | A chosen file replaces the attachment; no choice changes nothing. |
| ChatWindow.ChatView.RecordingStopped | src/components/ChatWindow.js:128-131 | The finished recording becomes the voice draft; nothing else changes. |
| ChatWindow.ChatView.SetSearch | src/components/ChatWindow.js:261 | The search takes the typed text; nothing else changes. |
| ChatWindow.ChatView.SetEditText | src/components/ChatWindow.js:345 | The edit box takes the typed text; nothing else changes. |
| ChatWindow.ChatView.HandleSend | src/components/ChatWindow.js:62-110 | Nothing is sent when the input is blank and there is no file and no audio. A rejected attachment post leaves the whole view as it was and starts no assistant turn, though the form went out. Otherwise the message is composed and appended, and an assistant turn over the last ten messages is due exactly when the chat is the bot chat and the sent message has text. |
| ChatWindow.ChatView.Commit | src/components/ChatWindow.js:76-78 | The state becomes the after-send state. |
| ChatWindow.ChatView.ClearDraft | src/components/ChatWindow.js:65-75 | The used draft slot is cleared. |
| ChatWindow.ChatView.Outgoing | src/components/ChatWindow.js:65-75 | The outgoing message and form are the composed ones. |
| ChatWindow.ChatView.ReceiveBotReply | src/components/ChatWindow.js:94-106 | The assistant's message is appended and nothing else changes. |
| ChatWindow.ChatView.HandleAddReaction | src/components/ChatWindow.js:148-154 | The reaction is added and the picker closes. |
| ChatWindow.ChatView.HandleDelete | src/components/ChatWindow.js:157-159 | The message is deleted. |
| ChatWindow.ChatView.HandleEdit | src/components/ChatWindow.js:162-165 | Editing starts with the message's id and text. |
| ChatWindow.ChatView.HandleSaveEdit | src/components/ChatWindow.js:166-170 | The edit text is saved into the message and the editor is cleared. |
| ChatWindow.ChatView.HandlePin | src/components/ChatWindow.js:173-175 | The single pin slot takes the id (last write wins). |
| ChatWindow.ChatView.HandleForward | src/components/ChatWindow.js:178-181 | The message is held for forwarding and the dialog opens. |
| ChatWindow.ChatView.HandleForwardToChat | src/components/ChatWindow.js:182-187 | No message held means nothing happens. Otherwise the forward is posted to the chosen chat; the dialog is cleared when the post succeeds and the view stays as it was when it is rejected. |
| ChatWindow.ChatView.HandleReply | src/components/ChatWindow.js:190-192 | The quoted message is set. |
| ChatWindow.ChatView.HandleOpenThread | src/components/ChatWindow.js:195-198 | The thread is the direct replies to the id. |
| ChatWindow.ChatView.HandleCloseThread | src/components/ChatWindow.js:199-202 | The thread is closed and emptied. |
| ChatWindow.ChatView.HandleAddUserToGroup | src/components/ChatWindow.js:205-207 | The member is added without duplicates. |
| ChatWindow.ChatView.HandleRemoveUserFromGroup | src/components/ChatWindow.js:208-210 | The member is removed. |
| MessagesPage.WithBotChat | src/app/messages/page.tsx:63-69 | `serverChats \|\| []` with `BOT_CHAT` prepended when no chat has the member "bot". |
| MessagesPage.WithBotChatExact | src/app/messages/page.tsx:63-69 | The assistant's chat is prepended exactly when no chat has the member "bot"; afterwards one does, and loading again adds nothing. |
| MessagesPage.FilteredChats | src/app/messages/page.tsx:74-76 | `chats.filter(chat => chat.name?.toLowerCase().includes(q))`. |
| MessagesPage.FilteredChatsExact | src/app/messages/page.tsx:74-76 | Exactly the named chats whose name contains the query are kept; an unnamed chat is hidden even for the empty query. |
| MessagesPage.AddBotChat | src/app/messages/page.tsx:92-94 | `BOT_CHAT` prepended when no chat has its id. |
| MessagesPage.AddBotChatOnce | src/app/messages/page.tsx:92-94 | Choosing the assistant prepends its chat only when no chat has its id. |
| MessagesPage.MessagesView.constructor | src/app/messages/page.tsx:52-57 | No chats and no selection, the dialog closed, loading. |
| MessagesPage.MessagesView.LoadChats | src/app/messages/page.tsx:60-71 | Without a user id nothing happens; otherwise the answer, with the assistant's chat injected, replaces the list, and loading ends. |
| MessagesPage.MessagesView.OpenNewChat | src/app/messages/page.tsx:82 | The new-chat dialog opens. |
| MessagesPage.MessagesView.HandleSelectUser | src/app/messages/page.tsx:85-104 | Without either id nothing happens; choosing the assistant selects its chat; otherwise a chat of the two users is requested and, when created, prepended and selected, else an alert. |
| NewChatModal.LoadedUsers | src/components/NewChatModal.js:20 | The loaded users never include the current user. |
| NewChatModal.Render | src/components/NewChatModal.js:25-28 | A closed dialog renders nothing; an open one fails exactly when some user has no name. |
| NewChatModal.Entries | src/components/NewChatModal.js:26-28 | `[botUser, ...users].filter(...)` by name search and not the current user. |
| NewChatModal.EntriesExcludeCurrent | src/components/NewChatModal.js:26-28 | The list never has the current user and holds exactly the bot and users whose name matches. |
| NewChatModal.BotFirst | src/components/NewChatModal.js:26-28 | The bot comes first when it matches, then the matching users in loaded order. |
| NewChatModal.LoadedUsersListed | src/components/NewChatModal.js:20-28 | When every user has a name, every loaded user passes the empty search. |
| NewChatModal.EmptySearchEntries | src/components/NewChatModal.js:26-28 | With the empty search and every user passing, the list is the bot followed by all users. |
| NewChatModal.EmptySearchListsEveryone | src/components/NewChatModal.js:19-28 | With an empty search the list is the bot followed by every loaded user. |
| Announcements.Searched | src/app/announcements/page.tsx:88-94 | The announcements whose title, content or author contains the search ignoring case. |
| Announcements.OfKind | src/app/announcements/page.tsx:97-99 | The announcements of the selected type, unless "all". |
| Announcements.UnreadOnly | src/app/announcements/page.tsx:102-104 | The announcements whose readers lack "student1", when the switch is on. |
| Announcements.PinnedThenNewest | src/app/announcements/page.tsx:107-111 | The comparator: pinned before unpinned, then the later `createdAt` first. |
| Announcements.Displayed | src/app/announcements/page.tsx:84-114 | The three filters, then the sort. |
| Announcements.PinnedThenNewestIsStrictWeak | src/app/announcements/page.tsx:107-111 | Pinned-first then newest-first is a strict weak order. |
| Announcements.SearchedExact | src/app/announcements/page.tsx:88-94 | A search keeps exactly the announcements whose title, content or author contains it ignoring case. |
| Announcements.OfKindExact | src/app/announcements/page.tsx:97-99 | The type filter applies unless it is "all". |
| Announcements.UnreadOnlyExact | src/app/announcements/page.tsx:102-104 | The unread filter keeps exactly those whose readers lack "student1". |
| Announcements.DisplayedExact | src/app/announcements/page.tsx:84-114 | An announcement is shown exactly when it passes all three filters; without filters the list is a permutation of all. |
| Announcements.DisplayedPinnedFirst | src/app/announcements/page.tsx:107-111 | Pinned items come before unpinned ones, and within each group newer items come first. |
| Announcements.MarkAsRead | src/app/announcements/page.tsx:195-203 | "student1" appended to the readers of the matching announcement. |
| Announcements.MarkAsReadAppends | src/app/announcements/page.tsx:195-203 | The matching item's readers grow by exactly one "student1" (no deduplication); all else is unchanged. |
| Announcements.TogglePin | src/app/announcements/page.tsx:206-214 | `isPinned` flipped on the matching announcement. |
| Announcements.TogglePinFlips | src/app/announcements/page.tsx:206-214 | Exactly the matching items flip their pin. |
| Announcements.TogglePinTwice | src/app/announcements/page.tsx:206-214 | Toggling twice restores the list. |
| Announcements.AnnouncementsPage.constructor | src/app/announcements/page.tsx:70-81 | The loaded list is both the list and the shown list; no filters are set. |
| Announcements.AnnouncementsPage.ApplyFilters | src/app/announcements/page.tsx:84-114 | The shown list becomes the displayed list; without filters the sort also reorders the page's own list. |
| Announcements.AnnouncementsPage.SetInputs | src/app/announcements/page.tsx:44-46 | The filter inputs change and nothing else. |
| Announcements.AnnouncementsPage.HandleMarkAsRead | src/app/announcements/page.tsx:195-203 | The list becomes the mark-as-read result. |
| Announcements.AnnouncementsPage.HandleTogglePin | src/app/announcements/page.tsx:206-214 | The list becomes the toggle result. |
| Materials.TypeOf | src/app/materials/page.tsx:146-166 | The type of a file entry, "" when it is missing. |
| Materials.OfCategory | src/app/materials/page.tsx:146-166 | The files whose lower-cased type is in the category, unless "all". |
| Materials.Shown | src/app/materials/page.tsx:134-168 | The search, then the category filter. |
| Materials.ShownExact | src/app/materials/page.tsx:134-168 | A file is shown exactly when its name or chat name contains the query ignoring case and its type is in the category. |
| Materials.UnknownCategoryKeepsAll | src/app/materials/page.tsx:146-166 | An unknown category keeps every file. |
| Materials.FileColor | src/app/materials/page.tsx:208-220 | The colour is gray exactly when the lower-cased type names none of image, video, audio, presentation, spreadsheet, pdf, word or document; `FileColorFirstRule` gives the colour in every other case. |
| Materials.FileColorFirstRule | src/app/materials/page.tsx:208-220 | The colour is that of the first keyword, in the order image, video, audio, presentation, spreadsheet, pdf, word, document, that the lower-cased type contains. |
| Materials.FileColorNoRule | src/app/materials/page.tsx:208-220 | With none of the keywords in the type the colour is gray. |
| Materials.MediaIsColoured | src/app/materials/page.tsx:211-213 | Image is green and wins over video; video is amber; audio is never gray. |
| Materials.FileColorIgnoresCase | src/app/materials/page.tsx:209-210 | The colour ignores the type's case. |
| Boards.Visible | src/app/tasks/page.tsx:147-163 | The search filter, then the status filter. |
| Boards.VisibleExact | src/app/tasks/page.tsx:147-163 | A card is visible exactly when it matches the search, if any, and the status, unless "all". The tests and projects pages use the same filter. |
| Boards.SetStatus | src/app/tasks/page.tsx:241-247 | `map(c => c.id === id ? { ...c, status } : c)`. |
| Boards.SetStatusOnlyMatching | src/app/tasks/page.tsx:241-247 | A status change touches only the cards with the id. |
| Boards.SetStatusIdempotent | src/app/tasks/page.tsx:241-247 | Changing to the same status twice is doing it once. |
| Boards.StatusButtons | src/app/tasks/page.tsx:338-349 | One button per target status, disabled exactly when the card already has it. |
| Boards.DisabledExactlyWhenNoChange | src/app/tasks/page.tsx:338-349 | A button is disabled exactly when pressing it would change nothing. |
| Boards.Board.constructor | src/app/tasks/page.tsx:137-138 | The loaded cards are the list and the shown list. |
| Boards.Board.SetInputs | src/app/tasks/page.tsx:35-36 | The filter inputs change and nothing else. |
| Boards.Board.Refresh | src/app/tasks/page.tsx:147-165 | The shown list becomes the visible cards. |
| Boards.Board.HandleStatusChange | src/app/tasks/page.tsx:241-247 | The list becomes the status-change result. |
| Testing.StatusText | src/app/testing/page.tsx:235-248 | "Неизвестно" exactly for a status other than the four known ones. |
| Testing.StatusTextInjective | src/app/testing/page.tsx:235-248 | The four known statuses have four different labels. |
| Testing.FormatDuration | src/app/testing/page.tsx:279-287 | "Без ограничений" exactly for 0 minutes. |
| Testing.ParseDuration | src/app/testing/page.tsx:279-287 | Reads a formatted duration back as minutes (the inverse used by the round trip). |
| Testing.FormatDurationRoundTrip | src/app/testing/page.tsx:279-287 | Reading hours and minutes back from the text gives `h*60 + m`, the minutes formatted. |
| Testing.FormatDurationInjective | src/app/testing/page.tsx:279-287 | Different durations read differently. |
| Testing.Actions | src/app/testing/page.tsx:391-405 | "Начать тест" exactly for active tests, "Результаты" exactly for completed ones, at most one action. |
| Tasks.StatusText | src/app/tasks/page.tsx:196-207 | "Ожидает" exactly for a status other than completed, in_progress and overdue. |
| Tasks.TaskActions | src/app/tasks/page.tsx:338-349 | Two buttons, "Завершить" and "В работу", each disabled exactly when the task has its target status. |
| Projects.StatusText | src/app/projects/page.tsx:219-234 | "Неизвестно" exactly for a status other than the five known ones. |
| Projects.StatusTextInjective | src/app/projects/page.tsx:219-234 | The five known statuses have five different labels. |
| Projects.ProjectActions | src/app/projects/page.tsx:360-376 | Three buttons, each disabled exactly when the project has its target status. |
| Projects.AtMostOneDisabled | src/app/projects/page.tsx:360-376 | At most one button is disabled, and none for a status outside the three targets. |
| UsersPage.FilteredUsers | src/app/users/page.tsx:114-118 | `filteredUsers`: the name search and the role filter. |
| UsersPage.FilteredUsersExact | src/app/users/page.tsx:114-118 | A user is kept exactly when the name (missing read as "") contains the search ignoring case and the role matches a non-empty role filter. With both empty, all users are kept in order. The admin dashboard uses the same filter (src/app/admin-dashboard/page.tsx:88-91). |
| UsersPage.WithoutUser | src/app/users/page.tsx:53 | `users.filter(u => u.id !== userId)`. |
| UsersPage.WithoutUserExact | src/app/users/page.tsx:53 | Delete keeps exactly the users with another id, and changes nothing for an absent id. |
| UsersPage.RolePatch | src/app/users/page.tsx:77 | The role change sends exactly `{role: newRole}`. |
| UsersPage.BlockPatch | src/app/users/page.tsx:89 | The block toggle sends exactly `{blocked: !user.blocked}`. |
| UsersPage.RolePatchOnlyRole | src/app/users/page.tsx:77 | Applied to the user, the role patch changes the role only. |
| UsersPage.BlockToggleTwice | src/app/users/page.tsx:89 | The toggle flips `blocked` only, and toggling twice restores the user. |
| UsersPage.UsersView.constructor | src/app/users/page.tsx:21-25 | No users, no error, loading. |
| UsersPage.UsersView.FetchUsers | src/app/users/page.tsx:35-46 | A load replaces the users; a failure keeps them and shows the load error; loading ends. |
| UsersPage.UsersView.HandleDeleteUser | src/app/users/page.tsx:48-59 | Unconfirmed, nothing happens; confirmed and successful, the user leaves the list; confirmed and failed, the delete error. |
| UsersPage.UsersView.HandleChangeRole | src/app/users/page.tsx:74-84 | Sends the role patch for the user; a failure shows the role error. |
| UsersPage.UsersView.HandleToggleBlock | src/app/users/page.tsx:86-96 | Sends the block patch for the user; a failure shows the block error. |
| AdminDashboard.AdminView.constructor | src/app/admin-dashboard/page.tsx:16-19 | No users, no error, the create dialog closed with an empty form. |
| AdminDashboard.AdminView.HandleDeleteUser | src/app/admin-dashboard/page.tsx:47-58 | As on the user page: only a confirmed, successful delete removes the user. |
| AdminDashboard.AdminView.EditForm | src/app/admin-dashboard/page.tsx:17 | The form takes the typed values. |
| AdminDashboard.AdminView.HandleCreateUser | src/app/admin-dashboard/page.tsx:73-86 | The form is sent; on success the dialog closes and the form is emptied; on failure the form is kept and the error shown. |
| AddStudentModal.Candidates | src/components/modals/AddStudentModal.js:22-24 | The students not enrolled in the subject, or a failure when the subject has no student list and a student is reached. |
| AddStudentModal.FilteredStudents | src/components/modals/AddStudentModal.js:67-70 | The students whose name or e-mail contains the search, or a failure when a field it reads is missing. |
| AddStudentModal.CandidatesExact | src/components/modals/AddStudentModal.js:22-24 | Candidates are exactly the students not enrolled in the subject; with no subject, all students. A subject without a student list fails as soon as it reaches a student. |
| AddStudentModal.FilteredStudentsExact | src/components/modals/AddStudentModal.js:67-70 | The search fails exactly when some student lacks the field it reads; otherwise it keeps exactly the students whose name or e-mail matches. |
| AddStudentModal.AddStudentView.constructor | src/components/modals/AddStudentModal.js:9-13 | Empty list, search and selection, loading, not adding. |
| AddStudentModal.AddStudentView.OnOpen | src/components/modals/AddStudentModal.js:15-33 | The candidates of the loaded users become the list; a failed load or a throwing filter keeps the old list; loading ends. |
| AddStudentModal.AddStudentView.OnClose | src/components/modals/AddStudentModal.js:34-39 | Closing empties the search, the selection and the list. |
| AddStudentModal.AddStudentView.SetSearch | src/components/modals/AddStudentModal.js:42-44 | The search term changes and nothing else. |
| AddStudentModal.AddStudentView.Select | src/components/modals/AddStudentModal.js:46-48 | The selection changes and nothing else. |
| AddStudentModal.AddStudentView.HandleAddStudent | src/components/modals/AddStudentModal.js:50-64 | `onAddStudent(subject.id, selectedId)` is called exactly when a student is selected and a subject is given, and otherwise nothing happens. |
| RegisterPage.Validate | src/app/register/page.tsx:40-63 | Registration is submitted exactly when the passwords agree, have at least 6 characters, and name and e-mail are filled. |
| RegisterPage.ValidateOrder | src/app/register/page.tsx:40-63 | A mismatch is reported first (length unchecked), then a short password, then missing fields. |
| RegisterPage.EnabledButtonNeverMissingFields | src/app/register/page.tsx:166 | Through the enabled button the missing-fields message cannot appear. |
| RegisterPage.RegisterError | src/app/register/page.tsx:57 | The server's error, else the exception message, else "Ошибка регистрации"; never empty. |
| RegisterPage.Redirect | src/app/register/page.tsx:22-34 | A signed-in user is redirected exactly for the roles admin, teacher and student. |
| RegisterPage.RedirectInjective | src/app/register/page.tsx:22-34 | Different roles go to different dashboards. |
| RegisterPage.RegisterForm.constructor | src/app/register/page.tsx:12-17 | Empty fields, no error, not loading. |
| RegisterPage.RegisterForm.EditFields | src/app/register/page.tsx:12-15 | The four inputs take the typed values. |
| RegisterPage.RegisterForm.HandleSubmit | src/app/register/page.tsx:37-64 | `register` is called with the three fields exactly when validation passes; a rejection shows its message; a failed call shows the register error. |
| ChangePasswordModal.Check | src/components/modals/ChangePasswordModal.js:18-26 | Any empty field gives "fill all fields" first; then new and confirm differing gives "do not match"; otherwise success. The current password is never compared. |
| ChangePasswordModal.ChangePasswordView.constructor | src/components/modals/ChangePasswordModal.js:7-11 | Empty fields, no error, no success, no pending close. |
| ChangePasswordModal.ChangePasswordView.EditFields | src/components/modals/ChangePasswordModal.js:7-9 | The three inputs take the typed values. |
| ChangePasswordModal.ChangePasswordView.HandleSubmit | src/components/modals/ChangePasswordModal.js:14-29 | The error is reset; a failed check shows its message; otherwise success and one close is scheduled. |
| ChangePasswordModal.ChangePasswordView.Elapse | src/components/modals/ChangePasswordModal.js:30-36 | The scheduled close asks the parent to close, clears success and all three fields. |
| TwoFactorAuthModal.Sanitise | src/components/modals/TwoFactorAuthModal.js:83 | The code is the first (at most) 6 digits of the input, in order. |
| TwoFactorAuthModal.SanitiseKeepsCodes | src/components/modals/TwoFactorAuthModal.js:83 | A code of at most 6 digits is kept as typed. |
| TwoFactorAuthModal.SanitiseIdempotent | src/components/modals/TwoFactorAuthModal.js:83 | Sanitising twice is sanitising once. |
| TwoFactorAuthModal.SanitiseKeepsEveryDigit | src/components/modals/TwoFactorAuthModal.js:83 | When the input has at most 6 digits, none is lost. |
| TwoFactorAuthModal.TwoFactorView.constructor | src/components/modals/TwoFactorAuthModal.js:7-10 | Step 1, empty code, no error, no success. |
| TwoFactorAuthModal.TwoFactorView.Next | src/components/modals/TwoFactorAuthModal.js:65 | Next goes from step 1 to step 2. |
| TwoFactorAuthModal.TwoFactorView.Back | src/components/modals/TwoFactorAuthModal.js:91 | Back goes from step 2 to step 1. |
| TwoFactorAuthModal.TwoFactorView.OnInput | src/components/modals/TwoFactorAuthModal.js:83 | The code becomes the sanitised input. |
| TwoFactorAuthModal.TwoFactorView.HandleVerify | src/components/modals/TwoFactorAuthModal.js:16-26 | An empty code sets the error and no success; otherwise success and one close is scheduled. |
| TwoFactorAuthModal.TwoFactorView.Elapse | src/components/modals/TwoFactorAuthModal.js:27-32 | The scheduled close resets to step 1 with an empty code and no success. |
| ProgressBar.SafePercent | src/components/ui/ProgressBar.tsx:11 | The bar is within 0..100: the percent itself when in range, 0 below, 100 above. |
| ProgressBar.SafePercentMonotone | src/components/ui/ProgressBar.tsx:11 | The clamp is monotone and idempotent. |

## Left out

- Rendering, styling and the presentational components are not modelled. Only what a view derives from its state (filtered lists, labels, banners, disabled buttons) is.
- Network requests, `axios` interceptors and the OpenAI, weather, news and exchange-rate services are not modelled. Each request's outcome is a method parameter: an `ok` flag, an `Option` answer or a `BotOutcome`. The weather, news and exchange-rate lookups are abstract string functions (`Assistant.Lookups`).
- Timers are not modelled. The 1000 ms assistant delay becomes a `PendingBot` request that `ChatWindow.ChatView.ReceiveBotReply` completes later. The 1500 ms modal closes become `Elapse` methods with a counter of pending closes. The 3 s notification timeout is left out. The race between concurrent sends is concurrency, not modelled.
- Audio capture (`MediaRecorder`, `getUserMedia`) is device I/O. A recording is represented only by its size.
- The clock is a parameter (`now: nat`, an ISO string, a locale time string). Dates are integers, and `createdAt` ordering compares integers.
- JSON-server and Express plumbing (CORS, rewriter, static files, listen) is left out. So are the JSON-server routes the code falls through to and the admin statistics: the statistics are floating point.
- `createToken` uses `Math.random`, so the token is a parameter.
- Server.RepairChats: keys the uploads by the raw `file` string. `path.join` normalises it, so "x" and "./x" name one file on disk but two keys here. Whether a placeholder can be written is the `canWrite` parameter, not a model of the filesystem. A truthy `file` that is not a string, or `messages` that is not an array, also throws into the `catch {}`. Those cases cannot occur in the model, because `Message.file` is an optional string and a chat's messages are a sequence.
- Server.NewGrade, Server.UpdateGrades: a grade is a map from field names to strings. A JSON grade with a number or other non-string value, such as a numeric `value` kept by `{ ...req.body }` or a numeric `id` that `g.id === req.params.gradeId` never matches, is not represented. The site's own grade forms send strings.
- Profile, schedule and subject CRUD routes other than enrolment are not part of this model.
- The users page's `handleEditUserSave` and `handleResetPassword` are not modelled, nor the admin dashboard's `fetchData` or its editing. These are form plumbing over requests. The refetch after a successful role change, block toggle or user creation is a separate `FetchUsers` call.
- Translation keys (`t('...')`) stand for their messages: `FillAll`, `NoMatch`, `EnterCode`.
- Text.Lower: lowers ASCII, Latin-1 and Cyrillic capitals only, not full Unicode case mapping (a Greek capital, for one, stays as it is).
- ChatWindow.FirstMatchFrom: approximates the `gi` regex split's case folding by character-wise `toLowerCase`. The escaping of regex metacharacters is assumed correct, so the query is matched literally.
- Strings are sequences of characters, not UTF-16 code units. Lengths such as the 6-character password minimum count characters, and `Text.Less` compares characters, which orders an astral character against U+E000..U+FFFF differently from JavaScript.
- Testing.FormatDuration: takes a natural number of minutes. Negative and fractional durations are not modelled.
- ProgressBar.SafePercent: works on Dafny `real`. `NaN` and infinities are not modelled.
- Materials.TypeOf: a file entry whose `type` is missing reads as the empty string, where the page would throw on `toLowerCase`.
- The assistant's regexes are modelled as substring predicates over their literal alternatives. The city capture is the maximal run after the first "в " or "В ".
- `BOT_CHAT`'s display-only fields (`online`, `lastMessage`) and the bot user's avatar are not modelled.
- The users page's `PATCH /users/:id` is answered by the json-server router behind `server.use(router)`, which is not part of this model. The request's outcome is the `ok` parameter.
