# Nexus-Chat web client: a Dafny model of its client-side logic

Nexus-Chat is a real-time chat application. Its browser client is a
Next.js/React app written in TypeScript. This project models in Dafny the
part of that client that holds state and makes decisions:

- The **query cache** shared by all components, and how each real-time
  socket event changes it.
  - The chat layout marks cache entries stale by key prefix.
  - The chat window patches its cached message list directly when a
    reaction or a read receipt arrives.
- The **chat window's** rules:
  - the send guard and the request it builds;
  - the typing list;
  - the header's chat name;
  - the reply previews;
  - when a message bubble asks to mark itself read;
  - which read receipts a bubble lists.
- The **user list**: a presence update patches the user by id, and each
  status maps to a colour and a label.
- The **tag input**: Enter adds the trimmed text once; a tag's button
  removes it.
- The **session store**: the user and the token.
- The **sidebar rows**: title, avatar, fallback letter, link and
  highlighting.
- The **group settings dialog**: who may remove participants, and the
  requests it sends.
- The **profile form**: change detection and submit.
- The **registration form**: the password guard and the button rule.
- The **listener table** of the one socket that three components share.
  Findings about its cleanup, and about the sidebar highlight, are
  recorded below.

How the model is built:

- Pure logic becomes functions and lemmas.
- Components and the store that keep state become classes. Their methods
  change the fields and state the new state.
- The pieces of JavaScript semantics the code depends on are written out
  in `JsValues`, `JsStrings` and `JsArrays`:
  - `||` on optional strings;
  - `String.prototype.trim`;
  - `parseInt`;
  - number-to-string conversion;
  - `substring`;
  - `encodeURIComponent`;
  - `Array.prototype.map`, `filter` and `some`.
- A property read on `undefined` that throws a `TypeError` is modelled as
  the `TypeError` case of `JsValues.Outcome`.

The model differs from the code's declared types in these ways:

- **Ids are integers.** The store's `User.id` is declared a string, but
  the code compares it with numeric ids.
- **Nullable fields are `Option`s.** This includes fields such as `bio`
  and `presenceStatus` that are declared non-null but handled as possibly
  missing.
- **The chat window's conversation is optional.** The layout
  (`src/components/ChatLayout.tsx:114`) renders the chat window without
  its `conversation` prop. The model keeps it optional, and so shows what
  the header and the settings dialog then do.

## Model

| member | source | states |
|---|---|---|
| JsValues.OrElse | src/components/ChatWindow.tsx:236 | `o \|\| d` on an optional string: the default exactly unless the value is present and non-empty |
| JsStrings.Trim | src/components/ChatWindow.tsx:193 | `trim()`: all leading and all trailing whitespace removed (a prefix of the left-trimmed text, followed there only by whitespace); empty exactly for all-whitespace input; otherwise starts and ends with non-whitespace |
| JsStrings.ParseInt | src/components/ConversationList.tsx:37 | `parseInt`: `NaN` (None) unless the text holds some (hexadecimal) digit |
| JsStrings.ParseIntReadsDecimalPrefix | src/components/ConversationList.tsx:37 | `parseInt` of optional whitespace, an optional sign, a decimal digit run and any text not continuing it: the run's value, negated after '-'; the trailing text is ignored |
| JsStrings.ParseIntNoDigits | src/components/ConversationList.tsx:37 | `parseInt` is `NaN` when no digit follows the optional whitespace and sign |
| JsStrings.IntToDecimal | src/components/ChatWindow.tsx:81 | `id.toString()` / template literal: non-empty, starts with '-' or a digit, and holds nothing but '-' and digits |
| JsStrings.ParseIntOfDecimal | src/components/ChatWindow.tsx:112 | `parseInt` of a number's decimal text gives back that number, for every integer |
| JsStrings.Preview | src/components/ChatWindow.tsx:351-352 | `substring(0, n)` plus "..." exactly when longer than n: short text unchanged; long text becomes its first n characters followed by "..." |
| JsStrings.ToUpper | src/components/ConversationList.tsx:65 | `toUpperCase` of one character: ASCII lower-case letters move to upper case, every other character is unchanged |
| JsStrings.EncodeURIComponent | src/components/RegisterForm.tsx:32 | the output holds only unreserved characters and '%'; text made of unreserved characters is unchanged; empty exactly for empty input |
| JsStrings.EncodeConcat | src/components/RegisterForm.tsx:32 | encoding works character by character: it distributes over concatenation |
| JsStrings.Utf8RoundTrip | src/components/RegisterForm.tsx:32 | the UTF-8 bytes of a code point announce their own length in the first byte and decode back to the code point |
| JsStrings.UnescapePercentBytes | src/components/RegisterForm.tsx:32 | reading the `%XY` escapes back gives exactly the bytes that were escaped |
| JsStrings.EncodeCharPrefixFree | src/components/RegisterForm.tsx:32 | one character's encoding is never a proper prefix of another's, and equal encodings come from equal characters |
| JsStrings.EncodeInjective | src/components/RegisterForm.tsx:32 | `encodeURIComponent` is injective: equal encodings come from equal strings |
| JsArrays.Map | src/components/OnlineUsers.tsx:35-37 | `map`: same length, each element is `f` of the element at the same index |
| JsArrays.Filter | src/components/ui/multi-select.tsx:37 | `filter`: no longer than the input; holds exactly the input's elements that pass |
| Types.FindOther | src/components/ChatWindow.tsx:238-240 | `participants.find(p => p.user.id !== user?.id)`: none exactly when every participant is the current user; otherwise the first one who is not |
| QueryCache.MarkStale | src/components/ChatWindow.tsx:90 | `invalidateQueries(key)` under the key-prefix reading of the array argument (see Left out): same keys and data; an entry is stale iff it was or the key is a prefix of its key |
| QueryCache.AsFiltersObject | src/components/ChatWindow.tsx:90 | under the filters-object reading, an array argument filters nothing out: it matches every key |
| QueryCache.MarkStaleAll | src/components/ChatLayout.tsx:44-48 | several invalidations in turn: stale iff stale before or some filter is a prefix of the key |
| QueryCache.MessagesAt | src/components/ChatWindow.tsx:135-136 | the updater's `oldMessages`: defined exactly when a message list is cached under the key, and then that list |
| QueryCache.WriteMessages | src/components/ChatWindow.tsx:133-141 | `setQueryData`: an `undefined` updater result leaves the cache as it was; otherwise the key holds the new list, fresh, and other entries are untouched |
| QueryCache.Cache.Invalidate | src/components/ChatLayout.tsx:48 | the cache becomes `MarkStale` of the old cache |
| QueryCache.Cache.SetMessages | src/components/ChatWindow.tsx:133 | the cache becomes `WriteMessages` of the old cache |
| ChatLayout.InvalidatedKeys | src/components/ChatLayout.tsx:43-98 | each handled event invalidates at most two filters |
| ChatLayout.InvalidatedKeysMeaning | src/components/ChatLayout.tsx:43-98 | some filter of the event's handler matches a key iff the event affects that key's resource: message changes hit the numeric-id message list, new messages and membership/conversation events hit `["conversations"]`, presence hits `["onlineUsers"]` |
| ChatLayout.InvalidationIsolation | src/components/ChatLayout.tsx:43-98 | under the key-prefix reading: edits and deletions never touch the conversation or user lists; conversation events never touch a message list; presence touches only the user list; a new message touches both its message list and the conversation list |
| ChatLayout.DistinctResources | src/components/ChatLayout.tsx:44-96 | the three resource keys are not prefixes of one another |
| ChatLayout.LayoutMissesWindowKey | src/components/ChatLayout.tsx:44-67 | under the key-prefix reading: no layout event ever invalidates the chat window's string-keyed `["messages", id]` entry, since the layout builds the key with a numeric id |
| ChatLayout.HandleEvent | src/components/ChatLayout.tsx:43-98 | one `invalidateQueries` per filter of the event's table, in order |
| ChatLayout.HandleEventEffect | src/components/ChatLayout.tsx:43-98 | under the key-prefix reading: after handling an event an entry is stale iff it was stale or the event affects it; data is untouched |
| ChatLayout.HandleEventAsFiltersObjects | src/components/ChatLayout.tsx:43-98 | under the filters-object reading: an event the layout handles marks every cached entry stale, an unhandled one changes nothing; data is untouched |
| ChatLayout.JoinOnConnect | src/components/ChatLayout.tsx:33-41 | on connect, the emitted room list is exactly the loaded conversations' ids in order; nothing when the list is not loaded |
| ChatLayout.SocketAuth | src/components/ChatLayout.tsx:28-31 | a socket is created iff the token is truthy, with that token as its auth payload |
| ChatWindow.ReactionPatchSpec | src/components/ChatWindow.tsx:132-142 | an absent list stays absent; the messages with the payload's id are replaced by it, all others kept, length and order kept |
| ChatWindow.ReactionPatchIdempotent | src/components/ChatWindow.tsx:137-139 | applying a reaction update twice equals once; an id not in the list changes nothing |
| ChatWindow.OtherReadersCount | src/components/ChatWindow.tsx:154 | the filter drops every receipt of the reader and keeps every other reader's count |
| ChatWindow.MarkReadSpec | src/components/ChatWindow.tsx:149-158 | the reader's new receipt is last; before it are the other readers' receipts in order; the reader has exactly one receipt, others keep their counts; no other field changes |
| ChatWindow.MarkReadKeepsOneReceiptPerReader | src/components/ChatWindow.tsx:153-156 | "at most one receipt per reader" is preserved by the read patch |
| ChatWindow.ReadPatchSpec | src/components/ChatWindow.tsx:144-162 | an absent list stays absent; messages with the id are marked read, all others kept, length and order kept |
| ChatWindow.ShouldMarkReadSettles | src/components/ChatWindow.tsx:483-490 | a bubble asks to mark read iff the message is not the user's and no receipt is theirs; after the user's receipt is patched in it stops asking; with nobody logged in it always asks |
| ChatWindow.ReceiptNames | src/components/ChatWindow.tsx:502 | one name per displayed receipt |
| ChatWindow.DisplayedReceiptsSpec | src/components/ChatWindow.tsx:492-496 | the sender never appears among the listed readers, every other reader does, and a message read only by its sender lists nobody |
| ChatWindow.EditedBadgeStable | src/components/ChatWindow.tsx:531 | the "Edited" badge (update time differs from send time) is never turned on or off by the read patch; after a reaction update a replaced message shows the payload's badge |
| ChatWindow.ComposerReplyPreview | src/components/ChatWindow.tsx:351-352 | text of at most 50 characters unchanged; longer text becomes its first 50 characters followed by "..." (53 in all) |
| ChatWindow.BubbleReplyPreview | src/components/ChatWindow.tsx:551-552 | a parent of at most 30 characters unchanged; longer becomes its first 30 characters followed by "..." (33 in all) |
| ChatWindow.ChatNameSpec | src/components/ChatWindow.tsx:233-243 | "Chat" without a conversation; a group's non-empty name else "Group Chat"; else the first non-current participant's username, or "Chat" when there is none |
| ChatWindow.WindowRefreshesOwnConversation | src/components/ChatWindow.tsx:111-130 | a window opened on conversation c invalidates its list exactly on message changes in c |
| ChatWindow.CanSendSpec | src/components/ChatWindow.tsx:193 | a send is allowed iff a file is attached or the text has a non-whitespace character |
| ChatWindow.ChatWindowState.constructor | src/components/ChatWindow.tsx:47-53 | the composer starts empty, with no file, no reply and nobody typing |
| ChatWindow.ChatWindowState.OnTypingUpdate | src/components/ChatWindow.tsx:102-109 | for this conversation the typing list becomes the payload's usernames in order; for another it is unchanged |
| ChatWindow.ChatWindowState.OnReactionUpdate | src/components/ChatWindow.tsx:132-142 | the cache gets the reaction patch of the window's cached list |
| ChatWindow.ChatWindowState.OnMessageRead | src/components/ChatWindow.tsx:144-162 | the cache gets the read patch of the window's cached list |
| ChatWindow.ChatWindowState.OnMessageChange | src/components/ChatWindow.tsx:111-130 | the window's list is invalidated iff the event's conversation is `parseInt(conversationId)` |
| ChatWindow.ChatWindowState.SetMessage | src/components/ChatWindow.tsx:362 | the composer text is replaced |
| ChatWindow.ChatWindowState.SetFile | src/components/ChatWindow.tsx:402 | the attached file is replaced |
| ChatWindow.ChatWindowState.SetReplyingTo | src/components/ChatWindow.tsx:216-218 | the replied-to message is replaced |
| ChatWindow.ChatWindowState.HandleSendMessage | src/components/ChatWindow.tsx:192-196 | a request is issued iff the guard holds; it posts to `/messages/<id>` the untrimmed text, the file, and the replied-to id as decimal text (lines 74-83) |
| ChatWindow.ChatWindowState.OnSendSuccess | src/components/ChatWindow.tsx:89-94 | the list is invalidated and the composer, file and reply are cleared; the typing list is kept |
| ChatWindow.ChatWindowState.OnMutationSuccess | src/components/ChatWindow.tsx:198-231 | a reaction, delete, edit or mark-read success invalidates the window's list |
| OnlineUsers.SetPresenceSpec | src/components/OnlineUsers.tsx:33-39 | users with the id get the status, no other field of theirs changes, every other user is unchanged, length and order kept |
| OnlineUsers.SetPresenceIdempotent | src/components/OnlineUsers.tsx:35-37 | an update for an absent id changes nothing; the same update twice equals once |
| OnlineUsers.StatusColor | src/components/OnlineUsers.tsx:53-64 | ONLINE→green, AWAY→yellow, BUSY→red, each iff; every other status→gray |
| OnlineUsers.StatusText | src/components/OnlineUsers.tsx:66-77 | ONLINE→"Online", AWAY→"Away", BUSY→"Busy", each iff; every other status→"Offline" |
| OnlineUsers.StatusDisplayAgrees | src/components/OnlineUsers.tsx:136-158 | a missing or empty status shows as offline in gray, and colour and label always name the same state |
| OnlineUsers.OnlineUsersState.constructor | src/components/OnlineUsers.tsx:18 | the list starts empty |
| OnlineUsers.OnlineUsersState.OnFetched | src/components/OnlineUsers.tsx:21-30 | the list becomes the fetched users |
| OnlineUsers.OnlineUsersState.OnPresenceUpdate | src/components/OnlineUsers.tsx:33-39 | the list becomes the presence patch of the old list; matched users then show the new status (or OFFLINE for "") |
| MultiSelect.AddValueSpec | src/components/ui/multi-select.tsx:26-34 | the trimmed input ends up a tag, appended at the end exactly when new; a duplicate-free list stays duplicate-free |
| MultiSelect.RemoveValueSpec | src/components/ui/multi-select.tsx:36-38 | the removed value is gone, every other tag stays, relative order is kept, an absent value changes nothing |
| MultiSelect.MultiSelectState.constructor | src/components/ui/multi-select.tsx:20 | the input starts empty |
| MultiSelect.MultiSelectState.SetInput | src/components/ui/multi-select.tsx:22-24 | the input text is replaced |
| MultiSelect.MultiSelectState.KeyDown | src/components/ui/multi-select.tsx:26-34 | Enter with non-blank input: `onChange` gets the list with the trimmed text appended unless it is already a tag, and the input is cleared either way; otherwise nothing changes |
| AuthStore.AuthState.constructor | src/store/authStore.ts:26-27 | user and token start null |
| AuthStore.AuthState.SetUser | src/store/authStore.ts:28 | the user is replaced, the token kept |
| AuthStore.AuthState.SetToken | src/store/authStore.ts:29 | the token is replaced, the user kept |
| AuthStore.AuthState.Logout | src/store/authStore.ts:30 | both become null, whatever they held |
| AuthStore.LoginLogoutScenario | src/store/authStore.ts:26-30 | after a login and two logouts the state is the initial one (logout is idempotent) |
| ConversationList.RowShowsOtherParticipant | src/components/ConversationList.tsx:44-74 | a group row shows its name and picture; a one-to-one row's title and avatar both come from the first participant who is not the current user, and the title is missing iff there is none |
| ConversationList.FallbackLetter | src/components/ConversationList.tsx:60-66 | nothing for a missing title, the upper-cased first character otherwise; an empty title throws a TypeError |
| ConversationList.Href | src/components/ConversationList.tsx:35 | the link starts with "/chat/" and has no query string |
| ConversationList.SelectedByOwnId | src/components/ConversationList.tsx:35-39 | a row would be highlighted if the `conversationId` query parameter held its id in decimal (no link supplies one, see Findings); the id in its link parses back to the row's id |
| ConversationList.SelectionUnique | src/components/ConversationList.tsx:37-39 | without the parameter no row is highlighted; among rows with distinct ids, any parameter highlights at most one row |
| ConversationList.SearchParam | src/components/ConversationList.tsx:19-20 | `searchParams.get(name)`: `null` exactly when the query string lacks the parameter |
| ConversationList.RouteParam | src/components/ChatLayout.tsx:19-20 | the `[conversationId]` segment: present exactly for a `/chat/...` path, and the path is "/chat/" followed by it |
| ConversationList.LinkNeverHighlightsAsWritten | src/components/ConversationList.tsx:19-37 | as written, after following any row's link no row is highlighted |
| ConversationList.LinkHighlightsItsRow | src/components/ConversationList.tsx:35-37 | reading the route segment instead, following a row's link highlights exactly that row |
| ConversationSettings.FindByUserId | src/components/ConversationSettings.tsx:97-99 | `find(p => p.userId === currentUserId)`: none iff no participant has the id, else the first that has it |
| ConversationSettings.RemoveButtonSpec | src/components/ConversationSettings.tsx:187 | Remove shows iff the current user's first membership is admin and the participant is someone else; never for oneself; for nobody when one is not a participant |
| ConversationSettings.ConversationPath | src/components/ConversationSettings.tsx:39 | `/conversations/${conversation.id}...`, a TypeError exactly when the conversation is missing |
| ConversationSettings.SettingsState.constructor | src/components/ConversationSettings.tsx:31-32 | the name input starts as the conversation's name or "", the participant input as "" |
| ConversationSettings.SettingsState.SetConversation | src/components/ConversationSettings.tsx:31 | a new conversation prop does not reset the name input |
| ConversationSettings.SettingsState.SetName | src/components/ConversationSettings.tsx:113 | the name input is replaced |
| ConversationSettings.SettingsState.SetNewParticipant | src/components/ConversationSettings.tsx:150 | the participant input is replaced |
| ConversationSettings.SettingsState.HandleAddParticipant | src/components/ConversationSettings.tsx:84-87 | posts exactly `{ username: newParticipant }` to the participants path; throws without a conversation |
| ConversationSettings.SettingsState.HandleUpdateConversation | src/components/ConversationSettings.tsx:74-82 | puts the name and, only when picked, the picture; throws without a conversation |
| ConversationSettings.SettingsState.HandleRemoveParticipant | src/components/ConversationSettings.tsx:56-59 | deletes `/conversations/<id>/participants/<userId>`; throws without a conversation |
| ConversationSettings.SettingsState.HandleLeave | src/components/ConversationSettings.tsx:66 | posts to `/conversations/<id>/leave`; throws without a conversation |
| ConversationSettings.SettingsState.OnAddParticipantSuccess | src/components/ConversationSettings.tsx:49-52 | `["conversations"]` is invalidated and the participant input cleared; the name input kept |
| ConversationSettings.SettingsState.OnOtherSuccess | src/components/ConversationSettings.tsx:40-42 | `["conversations"]` is invalidated |
| ProfileForm.IsChangedSpec | src/components/ProfileForm.tsx:60-67 | with a loaded profile, changed iff username, email or bio differs or a picture is picked |
| ProfileForm.LoadedFormChangedOnlyForNullBio | src/components/ProfileForm.tsx:52-67 | right after loading, the form counts as changed iff the profile's bio is null |
| ProfileForm.ProfileFormState.constructor | src/components/ProfileForm.tsx:41-45 | inputs start from the session user (or ""), no picture; before the profile loads the form counts as changed |
| ProfileForm.ProfileFormState.OnProfileLoaded | src/components/ProfileForm.tsx:52-58 | inputs take the profile's values (a null bio as ""), the flag stays in step; with no picture the flag is set iff the bio is null |
| ProfileForm.ProfileFormState.SetUsername | src/components/ProfileForm.tsx:189 | replaces the username only; the change flag stays in step |
| ProfileForm.ProfileFormState.SetEmail | src/components/ProfileForm.tsx:201 | replaces the email only; the change flag stays in step |
| ProfileForm.ProfileFormState.SetBio | src/components/ProfileForm.tsx:215 | replaces the bio only; the change flag stays in step |
| ProfileForm.ProfileFormState.SetProfileImage | src/components/ProfileForm.tsx:229 | replaces the picture; picking one always marks the form changed |
| ProfileForm.ProfileFormState.HandleSubmit | src/components/ProfileForm.tsx:90-107 | no update iff the form is unchanged; otherwise username, email and bio, and the picture only when picked |
| ProfileForm.ProfileFormState.UpdateDisabled | src/components/ProfileForm.tsx:238 | the button is enabled iff the form is changed and no update is pending |
| ProfileForm.ProfileFormState.OnUpdateSuccess | src/components/ProfileForm.tsx:71-73 | the session store's user becomes the returned user; the token is kept |
| ProfileForm.ProfileFormState.HandleLogout | src/components/ProfileForm.tsx:109-112 | the session store is cleared |
| RegisterForm.Submit | src/components/RegisterForm.tsx:36-42 | a request iff the passwords match, carrying exactly username, email and password |
| RegisterForm.SubmitGating | src/components/RegisterForm.tsx:169-173 | the handler ignores the terms box; the button is enabled iff not pending, terms agreed and the handler would send |
| RegisterForm.VerifyEmailPathSpec | src/components/RegisterForm.tsx:32 | after the fixed prefix the path holds no '&', '=', '#', '?' or '+', so the email stays one query value; plain emails pass verbatim |
| RegisterForm.VerifyEmailPathInjective | src/components/RegisterForm.tsx:32 | distinct emails give distinct verification paths |
| SocketListeners.Socket.On | src/components/ChatWindow.tsx:102 | the listener is appended |
| SocketListeners.Socket.Off | src/components/ChatWindow.tsx:167 | every listener of the event is dropped, whoever attached it |
| SocketListeners.Socket.OffListener | src/components/ChatWindow.tsx:165-174 | `off(event, handler)`, the call the corrected cleanups use: only the first registration of that handler is dropped |
| SocketListeners.LayoutSetup | src/components/ChatLayout.tsx:27-98 | a new socket holding the layout's nine listeners |
| SocketListeners.WindowSetup | src/components/ChatWindow.tsx:100-163 | the window's six listeners are appended |
| SocketListeners.WindowCleanup | src/components/ChatWindow.tsx:165-174 | every listener of the six names passed to `off`, "messagesRead" included, is dropped |
| SocketListeners.OnlineListSetup | src/components/OnlineUsers.tsx:32-40 | the user list's listener is appended |
| SocketListeners.OnlineListCleanup | src/components/OnlineUsers.tsx:42-46 | every "presenceUpdate" listener is dropped |
| SocketListeners.WindowCycleLeaksMessageRead | src/components/ChatWindow.tsx:144-172 | one run of the window's effect and its cleanup adds one "messageRead" listener |
| SocketListeners.WindowCycleKeepsOnlyMessageRead | src/components/ChatWindow.tsx:144-172 | after the cleanup the window's "messageRead" listener is still attached and its five others are gone |
| SocketListeners.WindowRunsLeak | src/components/ChatWindow.tsx:100-175 | if the window's effect runs and cleans up n times on one live socket (conversation id changing while the layout stays mounted), n extra "messageRead" listeners remain |
| SocketListeners.CleanupsDropLayoutListeners | src/components/ChatWindow.tsx:165-174 | the window's cleanup drops the layout's newMessage, messageUpdated and messageDeleted listeners; the user list's cleanup drops the layout's presenceUpdate listener |
| SocketListeners.WindowCleanupOwn | src/components/ChatWindow.tsx:165-174 | corrected cleanup: the window's own six listeners are removed by reference |
| SocketListeners.OnlineListCleanupOwn | src/components/OnlineUsers.tsx:42-46 | corrected cleanup: only the user list's own listener is removed |
| SocketListeners.WindowCycleOwnRestores | src/components/ChatWindow.tsx:165-174 | with the corrected cleanup an effect run restores the table exactly, and never changes another owner's listeners |
| SocketListeners.WindowRunsOwnRestore | src/components/ChatWindow.tsx:100-175 | with the corrected cleanups any number of visits leaves the table as it was, and the user list's cleanup keeps all other listeners |

## Left out

- Rendering, styling, animation, toasts and routing are not modelled.
  Navigation targets appear only as the paths the model computes.
- Network requests are not modelled. The model returns the request a
  handler would send, and its success callbacks are methods the caller
  invokes. Error callbacks only log or toast.
- Refetching after invalidation, `enabled`, loading flags and
  `isPending` are not modelled. `isPending` enters only as a parameter of
  the button rules.
- The cache rows that speak of key prefixes hold under the key-prefix
  reading of `invalidateQueries`. The code passes the key array
  positionally, cast with `as any`. The code uses TanStack Query v5 names
  such as `isPending` (`src/components/ChatWindow.tsx:386`,
  `src/components/ProfileForm.tsx:238`, `src/components/RegisterForm.tsx:170`).
  The cast is needed only because v5 takes a filters object. Under v5
  an array has no `queryKey` property, so each call invalidates every
  query. This filters-object reading is stated by
  `QueryCache.AsFiltersObject` and `ChatLayout.HandleEventAsFiltersObjects`.
  Under it, `ChatLayout.InvalidationIsolation` and
  `ChatLayout.LayoutMissesWindowKey` no longer hold. The same reading
  applies to the chat window's and the dialogs' invalidations; they
  are stated only under the key-prefix reading. Which library version
  is installed is not part of this model.
- Socket connection, reconnection, `disconnect`, and the `typing` and
  `startPrivateChat` emissions are not modelled. `handleTyping` also
  depends on a 3-second timer.
- Calling the effects without a socket does nothing, so the listener
  methods take a socket.
- The layout's effect re-runs whenever the conversation list changes, and
  then creates a new socket. The model does not follow which socket a
  closure holds.
- Zustand's persistence of the session store is browser storage and is
  not modelled.
- `useIsAuthenticated` and `useUser` are imported but are not defined in
  the session store, so nothing is derived from them. The profile form's
  constructor takes the session user as a parameter.
- JsStrings.ParseInt: the result is an unbounded integer. Floating-point
  precision loss beyond 2^53 is not modelled.
- JsStrings.ToUpper: only ASCII letters are mapped. Unicode case mapping,
  including one character becoming several, is not modelled.
- Strings are sequences of code points. JavaScript's UTF-16 lengths, used
  by `substring`, `length` and `[0]`, differ for characters outside the
  Basic Multilingual Plane.
- JsStrings.EncodeURIComponent: a lone surrogate, which makes the
  JavaScript function throw, cannot occur in a Dafny string and is not
  modelled.
- The profile form refetches `["profile"]` after an update; that step is
  not modelled.
- The message bubble's local editing state is not modelled. The
  `["onlineUsers"]` query that the layout invalidates is not defined in
  the code shown; the user list keeps its own local list.
- Browser form validation (`required` inputs) is not modelled. It is
  outside the handlers.
- The read receipt that the read patch inserts carries only the reader's
  id and name. Its nested `user` object is flattened to `username`, and
  the receipt's back-reference to its message is omitted.
- ChatLayout.InvalidatedKeys: its own contract only bounds the number of
  filters. Its meaning is stated by `InvalidatedKeysMeaning` and
  `InvalidationIsolation`.
- ChatWindow.ReceiptNames: its own contract only fixes the length. Which
  receipts it lists is stated by `DisplayedReceiptsSpec`.

## Findings

| source | as written | input that shows it | evidently intended | confidence | as-written member | corrected member |
|---|---|---|---|---|---|---|
| src/components/ChatWindow.tsx:172 | the cleanup detaches "messagesRead", but the effect attached its handler as "messageRead" (line 144) | a socket with no chat-window listeners; the window is opened on "1", then on "2": one stale "messageRead" handler of "1" remains, and after n visits n of them | the cleanup detaches every handler the effect attached | not executed; latent: shows only if the window's effect re-runs on a live socket, i.e. the conversation id changes while the layout stays mounted. The page renders the layout (`src/app/chat/[conversationId]/page.tsx:22`), so a new id normally remounts it and creates a new socket | SocketListeners.WindowRunsLeak | SocketListeners.WindowRunsOwnRestore |
| src/components/ChatWindow.tsx:167-171 | `socket.off(event)` without a handler drops every handler of that event on the shared socket, including the layout's | the layout's nine listeners plus the window's six; after the window's cleanup, the layout's "newMessage", "messageUpdated" and "messageDeleted" handlers are gone, so a new message no longer refreshes `["conversations"]` | each component detaches only its own handlers (`off(event, handler)`) | not executed; latent: shows only if the window's effect re-runs on a live socket (its dependencies are the socket, the conversation id and the client, line 175); on unmount or a socket change the layout has already disconnected that socket (`src/components/ChatLayout.tsx:102-106`) | SocketListeners.CleanupsDropLayoutListeners | SocketListeners.WindowCycleOwnRestores |
| src/components/ConversationList.tsx:37 | the row is highlighted when its id equals `parseInt` of the `conversationId` query parameter (lines 19-20), but every link to a conversation carries the id in the path `/chat/<id>` (line 35; also `src/components/NewChatModal.tsx:37`) | following the link of the row with id 5 opens `/chat/5` with no query string; `get("conversationId")` is `null`, `parseInt("null")` is NaN, and no row is highlighted | the open conversation's row is highlighted, with the id read from the route segment as the layout reads it (`src/components/ChatLayout.tsx:20`) | not executed; nothing in the client sets a `conversationId` query parameter | ConversationList.LinkNeverHighlightsAsWritten | ConversationList.LinkHighlightsItsRow |
| src/components/OnlineUsers.tsx:44 | `socket.off("presenceUpdate")` also drops the layout's "presenceUpdate" handler | the table alone: the layout's listeners plus the user list's on one socket; the user list's cleanup then removes the layout's handler as well | the user list detaches only its own handler | not executed; latent: the effect depends only on the socket (line 47), so its cleanup runs only on a socket the layout has already disconnected (`src/components/ChatLayout.tsx:102-106`); not observable in the app as it is | SocketListeners.CleanupsDropLayoutListeners | SocketListeners.WindowRunsOwnRestore |

The corrected cleanups are `SocketListeners.WindowCleanupOwn` and
`SocketListeners.OnlineListCleanupOwn`. They remove each handler by
reference, which is `SocketListeners.Socket.OffListener`.

The profile form's handling of a `null` bio is stated as it is written,
in `ProfileForm.LoadedFormChangedOnlyForNullBio`: the update button is
enabled right after loading such a profile. This is not listed as a
finding, because an empty bio might be meant to be sent.
