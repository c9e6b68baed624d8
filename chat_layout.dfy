/** The layout's socket set-up: which cache keys each real-time event
    invalidates, the room list joined on connect, and the auth payload of
    a new socket. */
module ChatLayout {
  import opened JsValues
  import opened Types
  import opened QueryCache
  import opened Events
  import opened JsArrays

  /** The filters the layout's handler for `e` passes to
      `invalidateQueries`, in call order. Events the layout does not listen
      for invalidate nothing. */
  function InvalidatedKeys(e: Event): (keys: seq<QueryKey>)
    ensures |keys| <= 2
  {
    match e
    case NewMessage(m) => [MessagesKeyNum(m.conversationId), ConversationsKey]
    case MessageUpdated(m) => [MessagesKeyNum(m.conversationId)]
    case MessageDeleted(_, c) => [MessagesKeyNum(c)]
    case NewConversation(_) => [ConversationsKey]
    case ConversationUpdated(_) => [ConversationsKey]
    case ParticipantAdded(_, _) => [ConversationsKey]
    case ParticipantRemoved(_, _) => [ConversationsKey]
    case PresenceUpdate(_, _) => [OnlineUsersKey]
    case _ => []
  }

  /** Which cached keys an event makes stale, stated by resource: message
      lists of the changed conversation (numeric id), the conversation list,
      and the online-user list. */
  predicate Affects(e: Event, key: QueryKey)
  {
    || (IsMessageChange(e) && MessagesKeyNum(ChangedConversation(e)) <= key)
    || (IsConversationListChange(e) && ConversationsKey <= key)
    || (e.PresenceUpdate? && OnlineUsersKey <= key)
  }

  /** Every filter of the table is one of the resources `Affects` names,
      and every resource it names is in the table. */
  lemma InvalidatedKeysMeaning(e: Event, key: QueryKey)
    ensures (exists i :: 0 <= i < |InvalidatedKeys(e)| && Matches(InvalidatedKeys(e)[i], key)) <==> Affects(e, key)
  {
    var keys := InvalidatedKeys(e);
    if Affects(e, key) {
      if IsMessageChange(e) && MessagesKeyNum(ChangedConversation(e)) <= key {
        assert Matches(keys[0], key);
      } else if IsConversationListChange(e) && ConversationsKey <= key {
        assert Matches(keys[|keys| - 1], key);
      } else {
        assert Matches(keys[0], key);
      }
    }
  }

  /** A message event never invalidates the conversation list unless it is
      a new message, and a conversation event never invalidates a message
      list: the handlers are disjoint by resource. */
  lemma InvalidationIsolation(e: Event, c: int)
    ensures (e.MessageUpdated? || e.MessageDeleted?) ==> !Affects(e, ConversationsKey) && !Affects(e, OnlineUsersKey)
    ensures IsConversationListChange(e) && !e.NewMessage? ==> !Affects(e, MessagesKeyNum(c)) && !Affects(e, OnlineUsersKey)
    ensures e.PresenceUpdate? ==> !Affects(e, MessagesKeyNum(c)) && !Affects(e, ConversationsKey)
    ensures e.NewMessage? ==> Affects(e, MessagesKeyNum(e.message.conversationId)) && Affects(e, ConversationsKey)
  {
    DistinctResources(c);
  }

  /** The three resource filters are pairwise unrelated by prefix. */
  lemma DistinctResources(c: int)
    ensures !(ConversationsKey <= MessagesKeyNum(c)) && !(OnlineUsersKey <= MessagesKeyNum(c))
    ensures !(OnlineUsersKey <= ConversationsKey) && !(ConversationsKey <= OnlineUsersKey)
    ensures forall d :: !(MessagesKeyNum(d) <= ConversationsKey) && !(MessagesKeyNum(d) <= OnlineUsersKey)
  {
    assert ConversationsKey[0].s[0] != MessagesKeyNum(c)[0].s[0];
    assert OnlineUsersKey[0].s[0] != MessagesKeyNum(c)[0].s[0];
    assert OnlineUsersKey[0].s[0] != ConversationsKey[0].s[0];
  }

  /** The layout's invalidations use numeric conversation ids, so they never
      reach the chat window's string-keyed message list, whatever the ids. */
  lemma LayoutMissesWindowKey(e: Event, conversationId: string)
    ensures !Affects(e, MessagesKeyStr(conversationId))
  {
    var key := MessagesKeyStr(conversationId);
    assert ConversationsKey[0].s[0] != key[0].s[0];
    assert OnlineUsersKey[0].s[0] != key[0].s[0];
    if IsMessageChange(e) {
      assert MessagesKeyNum(ChangedConversation(e))[1] != key[1];
    }
  }

  /** Handling `e`: one `invalidateQueries` call per filter of the table. */
  method HandleEvent(cache: Cache, e: Event)
    modifies cache
    ensures cache.entries == MarkStaleAll(old(cache.entries), InvalidatedKeys(e))
  {
    ghost var entries := cache.entries;
    match e
    case NewMessage(m) =>
      cache.Invalidate(MessagesKeyNum(m.conversationId));
      cache.Invalidate(ConversationsKey);
      MarkStaleAllTwo(entries, MessagesKeyNum(m.conversationId), ConversationsKey);
      assert InvalidatedKeys(e) == [MessagesKeyNum(m.conversationId), ConversationsKey];
    case MessageUpdated(m) =>
      cache.Invalidate(MessagesKeyNum(m.conversationId));
      MarkStaleAllOne(entries, MessagesKeyNum(m.conversationId));
      assert InvalidatedKeys(e) == [MessagesKeyNum(m.conversationId)];
    case MessageDeleted(_, c) =>
      cache.Invalidate(MessagesKeyNum(c));
      MarkStaleAllOne(entries, MessagesKeyNum(c));
      assert InvalidatedKeys(e) == [MessagesKeyNum(c)];
    case NewConversation(_) =>
      cache.Invalidate(ConversationsKey);
      MarkStaleAllOne(entries, ConversationsKey);
      assert InvalidatedKeys(e) == [ConversationsKey];
    case ConversationUpdated(_) =>
      cache.Invalidate(ConversationsKey);
      MarkStaleAllOne(entries, ConversationsKey);
      assert InvalidatedKeys(e) == [ConversationsKey];
    case ParticipantAdded(_, _) =>
      cache.Invalidate(ConversationsKey);
      MarkStaleAllOne(entries, ConversationsKey);
      assert InvalidatedKeys(e) == [ConversationsKey];
    case ParticipantRemoved(_, _) =>
      cache.Invalidate(ConversationsKey);
      MarkStaleAllOne(entries, ConversationsKey);
      assert InvalidatedKeys(e) == [ConversationsKey];
    case PresenceUpdate(_, _) =>
      cache.Invalidate(OnlineUsersKey);
      MarkStaleAllOne(entries, OnlineUsersKey);
      assert InvalidatedKeys(e) == [OnlineUsersKey];
    case _ =>
      assert InvalidatedKeys(e) == [];
  }

  /** After handling `e`, a cached entry is stale exactly when it was stale
      before or `e` affects its key; data is untouched. */
  lemma {:induction false} HandleEventEffect(entries: map<QueryKey, Entry>, e: Event, key: QueryKey)
    requires key in entries
    ensures var r := MarkStaleAll(entries, InvalidatedKeys(e));
            key in r && r[key].data == entries[key].data && (r[key].stale <==> entries[key].stale || Affects(e, key))
  {
    InvalidatedKeysMeaning(e, key);
  }

  /** Read with the filters-object signature, each handler call matches
      every query: an event the layout handles marks every cached entry
      stale, and one it does not handle changes nothing. */
  lemma HandleEventAsFiltersObjects(entries: map<QueryKey, Entry>, e: Event, key: QueryKey)
    requires key in entries
    ensures var r := MarkStaleAll(entries, Map(InvalidatedKeys(e), AsFiltersObject));
            key in r && r[key].data == entries[key].data
            && (r[key].stale <==> entries[key].stale || InvalidatedKeys(e) != [])
  {
    var filters := Map(InvalidatedKeys(e), AsFiltersObject);
    if InvalidatedKeys(e) != [] {
      assert Matches(filters[0], key);
    }
  }

  /** On connect: `joinConversations` is emitted with the ids of the loaded
      conversation list, in list order; nothing is emitted while the list is
      not loaded. */
  function JoinOnConnect(conversations: Option<seq<Conversation>>): (join: Option<seq<int>>)
    ensures join.Some? <==> conversations.Some?
    ensures join.Some? ==> |join.value| == |conversations.value|
                           && forall i :: 0 <= i < |join.value| ==> join.value[i] == conversations.value[i].id
  {
    if conversations.Some? then Some(Map(conversations.value, (c: Conversation) => c.id)) else None
  }

  /** The options of `io(url, { auth: { token } })`: a socket is created only
      when the token is truthy, and its auth payload is that token. */
  function SocketAuth(token: Option<string>): (auth: Option<string>)
    ensures auth.Some? <==> token.Some? && token.value != ""
    ensures auth.Some? ==> auth == token
  {
    if Truthy(token) then token else None
  }
}
