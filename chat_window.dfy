/** The chat window: the patches it applies to its cached message list
    when reactions and read receipts arrive, the typing list, the send
    guard, and the per-message display rules of a message bubble. */
module ChatWindow {
  import opened JsValues
  import opened JsStrings
  import opened JsArrays
  import opened Types
  import opened QueryCache
  import opened Events

  // ---------------------------------------------------------------------
  // Reaction patch
  // ---------------------------------------------------------------------

  /** `oldMessages.map((msg) => msg.id === updated.id ? updated : msg)`. */
  function ReplaceById(ms: seq<Message>, updated: Message): seq<Message>
  {
    Map(ms, (m: Message) => if m.id == updated.id then updated else m)
  }

  /** The updater given to `setQueryData` on `messageReactionUpdate`: an
      absent list stays absent. */
  function ReactionPatch(cached: Option<seq<Message>>, updated: Message): Option<seq<Message>>
  {
    if cached.None? then None else Some(ReplaceById(cached.value, updated))
  }

  /** The reaction patch replaces exactly the messages with the payload's
      id, keeps every other message, and keeps length and order. */
  lemma ReactionPatchSpec(cached: Option<seq<Message>>, updated: Message)
    ensures cached.None? ==> ReactionPatch(cached, updated).None?
    ensures cached.Some? ==>
              var r := ReactionPatch(cached, updated).value;
              && |r| == |cached.value|
              && (forall i :: 0 <= i < |r| && cached.value[i].id == updated.id ==> r[i] == updated)
              && (forall i :: 0 <= i < |r| && cached.value[i].id != updated.id ==> r[i] == cached.value[i])
  {
  }

  /** Applying the same reaction update twice is the same as once, and an
      update whose id is not cached changes nothing. */
  lemma ReactionPatchIdempotent(ms: seq<Message>, updated: Message)
    ensures ReplaceById(ReplaceById(ms, updated), updated) == ReplaceById(ms, updated)
    ensures (forall i :: 0 <= i < |ms| ==> ms[i].id != updated.id) ==> ReplaceById(ms, updated) == ms
  {
  }

  // ---------------------------------------------------------------------
  // Read patch
  // ---------------------------------------------------------------------

  /** `readBy.filter((rb) => rb.userId !== userId)`. */
  function OtherReaders(rs: seq<ReadReceipt>, userId: int): seq<ReadReceipt>
  {
    Filter(rs, (rb: ReadReceipt) => rb.userId != userId)
  }

  /** The receipt the patch appends: `{ userId, user: { username } }`. */
  function NewReceipt(userId: int, username: string): ReadReceipt
  {
    ReadReceipt(None, None, userId, None, Some(username))
  }

  /** `{ ...msg, readBy: [...msg.readBy.filter(...), { userId, user: { username } }] }`. */
  function MarkRead(m: Message, userId: int, username: string): Message
  {
    m.(readBy := OtherReaders(m.readBy, userId) + [NewReceipt(userId, username)])
  }

  /** The updater given to `setQueryData` on `messageRead`. */
  function ReadPatch(cached: Option<seq<Message>>, messageId: int, userId: int, username: string): Option<seq<Message>>
  {
    if cached.None? then None
    else Some(Map(cached.value, (m: Message) => if m.id == messageId then MarkRead(m, userId, username) else m))
  }

  /** The number of receipts from `userId`. */
  function ReceiptCount(rs: seq<ReadReceipt>, userId: int): nat
  {
    if rs == [] then 0 else (if rs[0].userId == userId then 1 else 0) + ReceiptCount(rs[1..], userId)
  }

  lemma {:induction false} ReceiptCountConcat(a: seq<ReadReceipt>, b: seq<ReadReceipt>, userId: int)
    ensures ReceiptCount(a + b, userId) == ReceiptCount(a, userId) + ReceiptCount(b, userId)
  {
    if a == [] {
      assert a + b == b;
    } else {
      assert (a + b)[0] == a[0];
      assert (a + b)[1..] == a[1..] + b;
      ReceiptCountConcat(a[1..], b, userId);
    }
  }

  /** Dropping one reader's receipts removes all of theirs and keeps every
      other reader's count. */
  lemma {:induction false} OtherReadersCount(rs: seq<ReadReceipt>, userId: int, v: int)
    ensures ReceiptCount(OtherReaders(rs, userId), v) == if v == userId then 0 else ReceiptCount(rs, v)
  {
    if rs != [] {
      var p := (rb: ReadReceipt) => rb.userId != userId;
      assert rs == [rs[0]] + rs[1..];
      FilterConcat([rs[0]], rs[1..], p);
      assert Filter([rs[0]], p) == if p(rs[0]) then [rs[0]] else [];
      ReceiptCountConcat(Filter([rs[0]], p), Filter(rs[1..], p), v);
      OtherReadersCount(rs[1..], userId, v);
    }
  }

  /** After the read patch the message holds exactly one receipt for the
      reader, as its last receipt; the other readers' receipts keep their
      counts and relative order; every field but `readBy` is unchanged. */
  lemma MarkReadSpec(m: Message, userId: int, username: string, v: int)
    ensures var r := MarkRead(m, userId, username).readBy;
            && |r| > 0 && r[|r| - 1] == NewReceipt(userId, username)
            && r[..|r| - 1] == OtherReaders(m.readBy, userId)
            && ReceiptCount(r, v) == (if v == userId then 1 else ReceiptCount(m.readBy, v))
    ensures MarkRead(m, userId, username).(readBy := m.readBy) == m
  {
    var others := OtherReaders(m.readBy, userId);
    var r := MarkRead(m, userId, username).readBy;
    assert r[..|r| - 1] == others;
    ReceiptCountConcat(others, [NewReceipt(userId, username)], v);
    OtherReadersCount(m.readBy, userId, v);
  }

  /** At most one receipt per reader. */
  ghost predicate OneReceiptPerReader(rs: seq<ReadReceipt>)
  {
    forall v :: ReceiptCount(rs, v) <= 1
  }

  /** The read patch keeps "one receipt per reader". */
  lemma MarkReadKeepsOneReceiptPerReader(m: Message, userId: int, username: string)
    requires OneReceiptPerReader(m.readBy)
    ensures OneReceiptPerReader(MarkRead(m, userId, username).readBy)
  {
    forall v ensures ReceiptCount(MarkRead(m, userId, username).readBy, v) <= 1 {
      MarkReadSpec(m, userId, username, v);
    }
  }

  /** The read patch on a list: an absent list stays absent; the messages
      with the addressed id are marked read, every other message is kept,
      and length and order are preserved. */
  lemma ReadPatchSpec(cached: Option<seq<Message>>, messageId: int, userId: int, username: string)
    ensures cached.None? ==> ReadPatch(cached, messageId, userId, username).None?
    ensures cached.Some? ==>
              var r := ReadPatch(cached, messageId, userId, username).value;
              && |r| == |cached.value|
              && (forall i :: 0 <= i < |r| && cached.value[i].id == messageId ==>
                                r[i] == MarkRead(cached.value[i], userId, username))
              && (forall i :: 0 <= i < |r| && cached.value[i].id != messageId ==> r[i] == cached.value[i])
  {
  }

  // ---------------------------------------------------------------------
  // Message bubble rules
  // ---------------------------------------------------------------------

  /** Some receipt of `m` is from the given user (`currentUser?.id`, which is
      `undefined` when nobody is logged in and then equals no user id). */
  predicate ReadByUser(m: Message, currentUserId: Option<int>)
  {
    Any(m.readBy, (rb: ReadReceipt) => Some(rb.userId) == currentUserId)
  }

  /** The bubble's effect calls `markAsRead(message.id)` exactly when the
      message is not the current user's and no receipt is theirs. */
  predicate ShouldMarkRead(m: Message, currentUserId: Option<int>)
  {
    Some(m.senderId) != currentUserId && !ReadByUser(m, currentUserId)
  }

  /** Once the current user's receipt has been patched in, the bubble stops
      asking to mark the message read; with nobody logged in it always
      asks. */
  lemma ShouldMarkReadSettles(m: Message, u: int, username: string)
    ensures !ShouldMarkRead(MarkRead(m, u, username), Some(u))
    ensures ShouldMarkRead(m, None)
    ensures ShouldMarkRead(m, Some(u)) <==> m.senderId != u && forall i :: 0 <= i < |m.readBy| ==> m.readBy[i].userId != u
  {
    var r := MarkRead(m, u, username).readBy;
    assert r[|r| - 1].userId == u;
  }

  /** The receipts the bubble lists: every reader but the sender, in order. */
  function DisplayedReceipts(m: Message): seq<ReadReceipt>
  {
    OtherReaders(m.readBy, m.senderId)
  }

  /** `rb?.user?.username` for each displayed receipt. */
  function ReceiptNames(m: Message): (names: seq<Option<string>>)
    ensures |names| == |DisplayedReceipts(m)|
  {
    Map(DisplayedReceipts(m), (rb: ReadReceipt) => rb.username)
  }

  /** The sender never appears among the displayed readers, every other
      reader does, and a message read only by its sender shows no receipt
      line. */
  lemma DisplayedReceiptsSpec(m: Message)
    ensures forall i :: 0 <= i < |DisplayedReceipts(m)| ==> DisplayedReceipts(m)[i].userId != m.senderId
    ensures forall rb :: rb in m.readBy && rb.userId != m.senderId ==> rb in DisplayedReceipts(m)
    ensures (forall i :: 0 <= i < |m.readBy| ==> m.readBy[i].userId == m.senderId) ==> DisplayedReceipts(m) == []
  {
    var d := DisplayedReceipts(m);
    assert forall i :: 0 <= i < |d| ==> d[i] in d;
    assert d != [] ==> d[0] in m.readBy && d[0].userId != m.senderId;
  }

  /** The "Edited" badge: shown when the message's update time differs
      from its send time. */
  predicate IsEdited(m: Message)
  {
    m.updatedAt != m.timestamp
  }

  /** Read receipts never turn the badge on or off: after the read patch
      every cached message shows the badge exactly when it did before. A
      reaction update shows the badge of the payload it puts in place. */
  lemma EditedBadgeStable(cached: Option<seq<Message>>, messageId: int, userId: int, username: string, updated: Message)
    ensures cached.Some? ==>
              var r := ReadPatch(cached, messageId, userId, username).value;
              forall i :: 0 <= i < |r| ==> (IsEdited(r[i]) <==> IsEdited(cached.value[i]))
    ensures cached.Some? ==>
              var r := ReactionPatch(cached, updated).value;
              forall i :: 0 <= i < |r| && cached.value[i].id == updated.id ==> (IsEdited(r[i]) <==> IsEdited(updated))
  {
    ReadPatchSpec(cached, messageId, userId, username);
    ReactionPatchSpec(cached, updated);
  }

  /** The reply preview above the composer (50 characters). */
  function ComposerReplyPreview(replyingTo: Message): (r: string)
    ensures |replyingTo.content| <= 50 ==> r == replyingTo.content
    ensures |replyingTo.content| > 50 ==> |r| == 53 && r[..50] == replyingTo.content[..50] && r[50..] == "..."
  {
    Preview(replyingTo.content, 50)
  }

  /** The reply preview inside a bubble (30 characters of the parent). */
  function BubbleReplyPreview(parent: Message): (r: string)
    ensures |parent.content| <= 30 ==> r == parent.content
    ensures |parent.content| > 30 ==> |r| == 33 && r[..30] == parent.content[..30] && r[30..] == "..."
  {
    Preview(parent.content, 30)
  }

  // ---------------------------------------------------------------------
  // Header
  // ---------------------------------------------------------------------

  /** `getChatName()`. */
  function ChatName(conversation: Option<Conversation>, currentUserId: Option<int>): string
  {
    if conversation.None? then "Chat"
    else if conversation.value.isGroup then OrElse(conversation.value.name, "Group Chat")
    else
      var other := FindOther(conversation.value.participants, currentUserId);
      if other.Some? then other.value.user.username else "Chat"
  }

  /** No conversation: "Chat". A group: its name, or "Group Chat" when the
      name is missing or empty. Otherwise: the username of the first
      participant who is not the current user, or "Chat" if there is none. */
  lemma ChatNameSpec(conversation: Option<Conversation>, currentUserId: Option<int>)
    ensures conversation.None? ==> ChatName(conversation, currentUserId) == "Chat"
    ensures conversation.Some? && conversation.value.isGroup ==>
              ChatName(conversation, currentUserId) ==
                if conversation.value.name.Some? && conversation.value.name.value != ""
                then conversation.value.name.value else "Group Chat"
    ensures conversation.Some? && !conversation.value.isGroup ==>
              var ps := conversation.value.participants;
              && ((forall i :: 0 <= i < |ps| ==> Some(ps[i].user.id) == currentUserId) ==>
                    ChatName(conversation, currentUserId) == "Chat")
              && (forall k :: 0 <= k < |ps| && Some(ps[k].user.id) != currentUserId
                                && (forall j :: 0 <= j < k ==> Some(ps[j].user.id) == currentUserId) ==>
                    ChatName(conversation, currentUserId) == ps[k].user.username)
  {
    if conversation.Some? && !conversation.value.isGroup {
      var ps := conversation.value.participants;
      var other := FindOther(ps, currentUserId);
      forall k | 0 <= k < |ps| && Some(ps[k].user.id) != currentUserId
                 && (forall j :: 0 <= j < k ==> Some(ps[j].user.id) == currentUserId)
        ensures ChatName(conversation, currentUserId) == ps[k].user.username
      {
        var k' :| 0 <= k' < |ps| && ps[k'] == other.value && Some(other.value.user.id) != currentUserId
                  && forall j :: 0 <= j < k' ==> Some(ps[j].user.id) == currentUserId;
        assert k' == k;
      }
    }
  }

  // ---------------------------------------------------------------------
  // Socket-driven invalidation inside the window
  // ---------------------------------------------------------------------

  /** The window's own listeners for `newMessage`, `messageUpdated` and
      `messageDeleted` invalidate its string-keyed list when the event's
      conversation equals `parseInt(conversationId)`. */
  function WindowInvalidatedKeys(conversationId: string, e: Event): seq<QueryKey>
  {
    if IsMessageChange(e) && ParseInt(conversationId) == Some(ChangedConversation(e))
    then [MessagesKeyStr(conversationId)]
    else []
  }

  /** A window opened from the link of conversation `c` refreshes its list
      on every message change in `c`, and on no other event. */
  lemma WindowRefreshesOwnConversation(c: int, e: Event)
    ensures WindowInvalidatedKeys(IntToDecimal(c), e) != [] <==> IsMessageChange(e) && ChangedConversation(e) == c
  {
    ParseIntOfDecimal(c);
  }

  // ---------------------------------------------------------------------
  // Sending
  // ---------------------------------------------------------------------

  /** `handleSendMessage`'s guard: `message.trim() || file`. */
  predicate CanSend(message: string, file: Option<FileRef>)
  {
    Trim(message) != "" || file.Some?
  }

  /** The multipart request `sendMessageMutation` posts. */
  datatype SendRequest = SendRequest(path: string, content: string, file: Option<FileRef>, parentId: Option<string>)

  /** The guard allows a send exactly when the text has a non-whitespace
      character or a file is attached. */
  lemma CanSendSpec(message: string, file: Option<FileRef>)
    ensures CanSend(message, file) <==> file.Some? || exists i :: 0 <= i < |message| && !IsWhitespace(message[i])
  {
  }

  /** The chat window's state: the composer fields, the typing list, and the
      shared cache holding its message list under
      `["messages", conversationId]`. */
  class ChatWindowState {
    const conversationId: string
    const cache: Cache
    var message: string
    var file: Option<FileRef>
    var replyingTo: Option<Message>
    var typingUsers: seq<string>

    /** The key the window queries and patches. */
    function Key(): QueryKey
    {
      MessagesKeyStr(conversationId)
    }

    constructor (conversationId: string, cache: Cache)
      ensures this.conversationId == conversationId && this.cache == cache
      ensures message == "" && file == None && replyingTo == None && typingUsers == []
    {
      this.conversationId := conversationId;
      this.cache := cache;
      message := "";
      file := None;
      replyingTo := None;
      typingUsers := [];
    }

    /** `typingUpdate`: the list becomes the payload's usernames, in order,
        only when the payload's conversation is this one. */
    method OnTypingUpdate(typingConversationId: int, users: seq<User>)
      modifies this`typingUsers
      ensures ParseInt(conversationId) == Some(typingConversationId) ==>
                |typingUsers| == |users| && forall i :: 0 <= i < |users| ==> typingUsers[i] == users[i].username
      ensures ParseInt(conversationId) != Some(typingConversationId) ==> typingUsers == old(typingUsers)
    {
      if ParseInt(conversationId) == Some(typingConversationId) {
        typingUsers := Map(users, (u: User) => u.username);
      }
    }

    /** `messageReactionUpdate`: `setQueryData` with the reaction patch. */
    method OnReactionUpdate(updated: Message)
      modifies cache
      ensures cache.entries == WriteMessages(old(cache.entries), Key(), ReactionPatch(MessagesAt(old(cache.entries), Key()), updated))
    {
      cache.SetMessages(Key(), ReactionPatch(MessagesAt(cache.entries, Key()), updated));
    }

    /** `messageRead`: `setQueryData` with the read patch. */
    method OnMessageRead(messageId: int, userId: int, username: string)
      modifies cache
      ensures cache.entries ==
                WriteMessages(old(cache.entries), Key(), ReadPatch(MessagesAt(old(cache.entries), Key()), messageId, userId, username))
    {
      cache.SetMessages(Key(), ReadPatch(MessagesAt(cache.entries, Key()), messageId, userId, username));
    }

    /** The window's `newMessage`, `messageUpdated` and `messageDeleted`
        listeners. */
    method OnMessageChange(e: Event)
      requires IsMessageChange(e)
      modifies cache
      ensures cache.entries == MarkStaleAll(old(cache.entries), WindowInvalidatedKeys(conversationId, e))
    {
      if ParseInt(conversationId) == Some(ChangedConversation(e)) {
        cache.Invalidate(Key());
      }
    }

    method SetMessage(text: string)
      modifies this`message
      ensures message == text
    {
      message := text;
    }

    method SetFile(f: Option<FileRef>)
      modifies this`file
      ensures file == f
    {
      file := f;
    }

    /** `handleReply` and the composer's cancel button. */
    method SetReplyingTo(m: Option<Message>)
      modifies this`replyingTo
      ensures replyingTo == m
    {
      replyingTo := m;
    }

    /** `handleSendMessage`: the request issued, if any. The text is sent as
        typed (untrimmed), with the file and the replied-to id when present. */
    method HandleSendMessage() returns (request: Option<SendRequest>)
      ensures request.Some? <==> CanSend(message, file)
      ensures request.Some? ==>
                && request.value.path == "/messages/" + conversationId
                && request.value.content == message
                && request.value.file == file
                && request.value.parentId == (if replyingTo.Some? then Some(IntToDecimal(replyingTo.value.id)) else None)
    {
      if Trim(message) != "" || file.Some? {
        var parentId := if replyingTo.Some? then Some(IntToDecimal(replyingTo.value.id)) else None;
        request := Some(SendRequest("/messages/" + conversationId, message, file, parentId));
      } else {
        request := None;
      }
    }

    /** `onSuccess` of the send: the list is invalidated and the composer is
        cleared. */
    method OnSendSuccess()
      modifies this`message, this`file, this`replyingTo, cache
      ensures message == "" && file == None && replyingTo == None
      ensures typingUsers == old(typingUsers)
      ensures cache.entries == MarkStale(old(cache.entries), Key())
    {
      cache.Invalidate(Key());
      message := "";
      file := None;
      replyingTo := None;
    }

    /** The reaction, delete, edit and mark-as-read requests each invalidate
        the window's list once they succeed. */
    method OnMutationSuccess()
      modifies cache
      ensures cache.entries == MarkStale(old(cache.entries), Key())
    {
      cache.Invalidate(Key());
    }
  }
}
