/** The records the client receives from the server and caches: users,
    conversations with their participants, messages with their reactions
    and read receipts. Optional fields are `Option`s; ids are integers. */
module Types {
  import opened JsValues

  /** A user as the server sends it. `presenceStatus` is declared as one of
      "ONLINE", "AWAY", "BUSY", "OFFLINE", but the components treat it as an
      arbitrary string that may be missing, so it is kept as such. */
  datatype User = User(
    id: int,
    username: string,
    email: string,
    profileImage: Option<string>,
    bio: string,
    presenceStatus: Option<string>)

  /** Membership of a user in a conversation. */
  datatype Participant = Participant(
    id: int,
    userId: int,
    conversationId: int,
    joinedAt: string,
    leftAt: Option<string>,
    isAdmin: bool,
    user: User,
    unreadCount: int)

  datatype ContentType = Text | Image | File | Audio | Video

  /** A reaction of one user to one message. */
  datatype MessageReaction = MessageReaction(
    id: int,
    messageId: int,
    userId: int,
    reaction: string,
    user: User)

  /** A read receipt. Receipts fetched from the server carry every field;
      the one the `messageRead` patch inserts carries only the reader's id
      and username, so everything else is optional. The back-reference to
      the message is left out. */
  datatype ReadReceipt = ReadReceipt(
    id: Option<int>,
    messageId: Option<int>,
    userId: int,
    readAt: Option<string>,
    username: Option<string>)

  /** A chat message; `parent` is the message it replies to. */
  datatype Message = Message(
    id: int,
    conversationId: int,
    senderId: int,
    content: string,
    contentType: ContentType,
    timestamp: string,
    updatedAt: string,
    sender: User,
    reactions: seq<MessageReaction>,
    parentId: Option<int>,
    parent: Option<Message>,
    readBy: seq<ReadReceipt>)

  /** A one-to-one or group conversation. */
  datatype Conversation = Conversation(
    id: int,
    name: Option<string>,
    isGroup: bool,
    lastMessage: Option<Message>,
    participants: seq<Participant>,
    inviteCode: Option<string>,
    groupProfile: Option<string>)

  /** A file picked in a file input; only its identity matters here. */
  datatype FileRef = FileRef(name: string)

  /** `participants.find((p) => p.user.id !== currentUserId)`: the first
      participant whose user differs from the current one. When there is no
      current user, `user?.id` is `undefined`, which differs from every id. */
  function FindOther(ps: seq<Participant>, currentUserId: Option<int>): (r: Option<Participant>)
    ensures r.None? <==> forall i :: 0 <= i < |ps| ==> Some(ps[i].user.id) == currentUserId
    ensures r.Some? ==> exists k :: 0 <= k < |ps| && ps[k] == r.value && Some(r.value.user.id) != currentUserId
                                    && forall j :: 0 <= j < k ==> Some(ps[j].user.id) == currentUserId
  {
    if ps == [] then None
    else if Some(ps[0].user.id) != currentUserId then Some(ps[0])
    else
      var r := FindOther(ps[1..], currentUserId);
      assert r.Some? ==> exists k :: 0 <= k < |ps| && ps[k] == r.value
                                   && forall j :: 0 <= j < k ==> Some(ps[j].user.id) == currentUserId
      by {
        if r.Some? {
          var k :| 0 <= k < |ps[1..]| && ps[1..][k] == r.value
                   && forall j :: 0 <= j < k ==> Some(ps[1..][j].user.id) == currentUserId;
          assert ps[k + 1] == r.value;
        }
      }
      r
  }
}
