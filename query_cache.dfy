/** The shared query cache as this client uses it: entries under composite
    keys, each with a stale flag. Invalidation marks entries stale; a
    direct patch (`setQueryData`) rewrites one entry's data. Refetching is
    the library's business and is not modelled. */
module QueryCache {
  import opened JsValues
  import opened Types

  /** One element of a query key. Keys are arrays of strings and numbers,
      and the string "5" and the number 5 are different elements. */
  datatype KeyPart = Str(s: string) | Num(n: int)

  type QueryKey = seq<KeyPart>

  /** `["messages", id]` with a numeric id, as the layout builds it from a
      message's `conversationId`. */
  function MessagesKeyNum(conversationId: int): QueryKey
  {
    [Str("messages"), Num(conversationId)]
  }

  /** `["messages", id]` with the string id taken from the route, as the
      chat window queries and patches it. */
  function MessagesKeyStr(conversationId: string): QueryKey
  {
    [Str("messages"), Str(conversationId)]
  }

  const ConversationsKey: QueryKey := [Str("conversations")]

  const OnlineUsersKey: QueryKey := [Str("onlineUsers")]

  /** What an entry holds. */
  datatype Data =
    | MessageList(messages: seq<Message>)
    | ConversationList(conversations: seq<Conversation>)
    | UserList(users: seq<User>)

  datatype Entry = Entry(data: Data, stale: bool)

  /** An invalidation filter matches every cached key it is a prefix of. */
  predicate Matches(filter: QueryKey, key: QueryKey)
  {
    filter <= key
  }

  /** The filter an array argument amounts to when `invalidateQueries`
      takes a filters object (the signature of TanStack Query v5): the
      array has no `queryKey` property, so nothing is filtered out and the
      filter behaves like the empty prefix. */
  function AsFiltersObject(key: QueryKey): (filter: QueryKey)
    ensures forall k :: Matches(filter, k)
  {
    []
  }

  /** The cache after one `invalidateQueries(filter)`: matching entries
      become stale, nothing else changes. */
  function MarkStale(entries: map<QueryKey, Entry>, filter: QueryKey): (r: map<QueryKey, Entry>)
    ensures r.Keys == entries.Keys
    ensures forall k :: k in r ==> r[k].data == entries[k].data
    ensures forall k :: k in r ==> (r[k].stale <==> entries[k].stale || Matches(filter, k))
  {
    map k | k in entries :: if Matches(filter, k) then entries[k].(stale := true) else entries[k]
  }

  /** The cache after invalidating each filter of `filters` in turn. */
  function MarkStaleAll(entries: map<QueryKey, Entry>, filters: seq<QueryKey>): (r: map<QueryKey, Entry>)
    ensures r.Keys == entries.Keys
    ensures forall k :: k in r ==> r[k].data == entries[k].data
    ensures forall k :: k in r ==>
              (r[k].stale <==> entries[k].stale || exists i :: 0 <= i < |filters| && Matches(filters[i], k))
  {
    if filters == [] then entries
    else
      var r := MarkStaleAll(MarkStale(entries, filters[0]), filters[1..]);
      assert forall k :: k in r ==>
               (r[k].stale <==> entries[k].stale || exists i :: 0 <= i < |filters| && Matches(filters[i], k))
      by {
        forall k | k in r
          ensures r[k].stale <==> entries[k].stale || exists i :: 0 <= i < |filters| && Matches(filters[i], k)
        {
          if exists i :: 0 <= i < |filters| && Matches(filters[i], k) {
            var i :| 0 <= i < |filters| && Matches(filters[i], k);
            if i > 0 { assert Matches(filters[1..][i - 1], k); }
          }
          if exists i :: 0 <= i < |filters[1..]| && Matches(filters[1..][i], k) {
            var i :| 0 <= i < |filters[1..]| && Matches(filters[1..][i], k);
            assert Matches(filters[i + 1], k);
          }
        }
      }
      r
  }

  /** Invalidating the filters of a one-element list is one invalidation. */
  lemma MarkStaleAllOne(entries: map<QueryKey, Entry>, f: QueryKey)
    ensures MarkStaleAll(entries, [f]) == MarkStale(entries, f)
  {
    assert [f][1..] == [];
  }

  /** Invalidating the filters of a two-element list is two invalidations
      in turn. */
  lemma MarkStaleAllTwo(entries: map<QueryKey, Entry>, f: QueryKey, g: QueryKey)
    ensures MarkStaleAll(entries, [f, g]) == MarkStale(MarkStale(entries, f), g)
  {
    assert [f, g][1..] == [g];
    MarkStaleAllOne(MarkStale(entries, f), g);
  }

  /** The message list an updater passed to `setQueryData` receives:
      `undefined` unless a message list is cached under `key`. */
  function MessagesAt(entries: map<QueryKey, Entry>, key: QueryKey): (r: Option<seq<Message>>)
    ensures r.Some? <==> key in entries && entries[key].data.MessageList?
    ensures r.Some? ==> r.value == entries[key].data.messages
  {
    if key in entries && entries[key].data.MessageList? then Some(entries[key].data.messages) else None
  }

  /** The cache after `setQueryData(key, updater)` whose updater returned
      `data`: an `undefined` result leaves the cache as it was; otherwise the
      entry holds the new list and counts as fresh. */
  function WriteMessages(entries: map<QueryKey, Entry>, key: QueryKey, data: Option<seq<Message>>): (r: map<QueryKey, Entry>)
    ensures data.None? ==> r == entries
    ensures data.Some? ==> r.Keys == entries.Keys + {key} && MessagesAt(r, key) == data && !r[key].stale
    ensures forall k :: k in entries && k != key ==> k in r && r[k] == entries[k]
  {
    if data.None? then entries else entries[key := Entry(MessageList(data.value), false)]
  }

  /** The client's query cache. */
  class Cache {
    var entries: map<QueryKey, Entry>

    constructor ()
      ensures entries == map[]
    {
      entries := map[];
    }

    /** `queryClient.invalidateQueries(filter)`. */
    method Invalidate(filter: QueryKey)
      modifies this
      ensures entries == MarkStale(old(entries), filter)
    {
      entries := MarkStale(entries, filter);
    }

    /** `queryClient.setQueryData(key, updater)` once the updater has
        produced `data` from `MessagesAt(entries, key)`. */
    method SetMessages(key: QueryKey, data: Option<seq<Message>>)
      modifies this
      ensures entries == WriteMessages(old(entries), key, data)
    {
      entries := WriteMessages(entries, key, data);
    }
  }
}
