/** The group settings dialog: who may remove participants, and the
    requests the dialog issues with the cache invalidation that follows
    each of them. The dialog is opened from the chat window with a
    conversation that may still be loading, so the conversation is an
    `Option`; a request that reads `conversation.id` then throws. */
module ConversationSettings {
  import opened JsValues
  import opened JsStrings
  import opened Types
  import opened QueryCache

  /** `participants.find((p) => p.userId === currentUserId)`. */
  function FindByUserId(ps: seq<Participant>, userId: int): (r: Option<Participant>)
    ensures r.None? <==> forall i :: 0 <= i < |ps| ==> ps[i].userId != userId
    ensures r.Some? ==> exists k :: 0 <= k < |ps| && ps[k] == r.value && r.value.userId == userId
                                    && forall j :: 0 <= j < k ==> ps[j].userId != userId
  {
    if ps == [] then None
    else if ps[0].userId == userId then Some(ps[0])
    else
      var r := FindByUserId(ps[1..], userId);
      assert r.Some? ==> exists k :: 0 <= k < |ps| && ps[k] == r.value
                                   && forall j :: 0 <= j < k ==> ps[j].userId != userId
      by {
        if r.Some? {
          var k :| 0 <= k < |ps[1..]| && ps[1..][k] == r.value
                   && forall j :: 0 <= j < k ==> ps[1..][j].userId != userId;
          assert ps[k + 1] == r.value;
        }
      }
      r
  }

  /** `conversation?.participants.find(...)?.isAdmin`: `undefined` when the
      conversation is missing or the current user is not a participant. */
  function IsAdmin(conversation: Option<Conversation>, currentUserId: int): Option<bool>
  {
    if conversation.None? then None
    else match FindByUserId(conversation.value.participants, currentUserId)
      case None => None
      case Some(p) => Some(p.isAdmin)
  }

  /** `isAdmin && participant.userId !== currentUserId`. */
  predicate ShowRemove(isAdmin: Option<bool>, p: Participant, currentUserId: int)
  {
    isAdmin == Some(true) && p.userId != currentUserId
  }

  /** The Remove button appears for a participant exactly when the current
      user's own (first) membership is an admin one and the participant is
      someone else; never for the current user, and for nobody when the
      current user is not a participant. */
  lemma RemoveButtonSpec(conversation: Option<Conversation>, currentUserId: int, p: Participant)
    ensures ShowRemove(IsAdmin(conversation, currentUserId), p, currentUserId) <==>
              && conversation.Some?
              && p.userId != currentUserId
              && exists k :: 0 <= k < |conversation.value.participants|
                             && conversation.value.participants[k].userId == currentUserId
                             && conversation.value.participants[k].isAdmin
                             && forall j :: 0 <= j < k ==> conversation.value.participants[j].userId != currentUserId
    ensures (conversation.Some? && forall i :: 0 <= i < |conversation.value.participants| ==>
                                      conversation.value.participants[i].userId != currentUserId)
            ==> !ShowRemove(IsAdmin(conversation, currentUserId), p, currentUserId)
  {
    if conversation.Some? {
      var ps := conversation.value.participants;
      var me := FindByUserId(ps, currentUserId);
      if me.Some? {
        var k :| 0 <= k < |ps| && ps[k] == me.value && me.value.userId == currentUserId
                 && forall j :: 0 <= j < k ==> ps[j].userId != currentUserId;
      }
    }
  }

  /** The body of the add-participant request. */
  datatype AddParticipantBody = AddParticipantBody(username: string)

  /** The form data of the update-profile request: the name and, when a
      file is picked, the picture. */
  datatype GroupProfileForm = GroupProfileForm(name: string, groupProfile: Option<FileRef>)

  /** A request issued by the dialog. */
  datatype Request =
    | UpdateProfile(path: string, form: GroupProfileForm)
    | AddParticipant(path: string, body: AddParticipantBody)
    | RemoveParticipant(path: string)
    | Leave(path: string)

  /** `/conversations/${conversation.id}` followed by `suffix`, or a thrown
      `TypeError` when the conversation is missing. */
  function ConversationPath(conversation: Option<Conversation>, suffix: string): (r: Outcome<string>)
    ensures r.TypeError? <==> conversation.None?
    ensures r.Ok? ==> r.value == "/conversations/" + IntToDecimal(conversation.value.id) + suffix
  {
    if conversation.None? then TypeError
    else Ok("/conversations/" + IntToDecimal(conversation.value.id) + suffix)
  }

  /** `conversation?.name`. */
  function NameOf(conversation: Option<Conversation>): Option<string>
  {
    if conversation.None? then None else conversation.value.name
  }

  class SettingsState {
    /** The `conversation` prop of the current render. */
    var conversation: Option<Conversation>
    const currentUserId: int
    const cache: Cache
    /** The group-name input. */
    var name: string
    /** The add-participant input. */
    var newParticipant: string

    /** Mounting: the name input starts from the conversation's name, or ""
        when there is none (`conversation?.name || ""`). */
    constructor (conversation: Option<Conversation>, currentUserId: int, cache: Cache)
      ensures this.conversation == conversation && this.currentUserId == currentUserId && this.cache == cache
      ensures name == OrElse(NameOf(conversation), "") && newParticipant == ""
    {
      this.conversation := conversation;
      this.currentUserId := currentUserId;
      this.cache := cache;
      name := OrElse(NameOf(conversation), "");
      newParticipant := "";
    }

    /** A re-render with a new `conversation` prop; the `useState`
        initialiser does not run again, so the name input keeps its value. */
    method SetConversation(c: Option<Conversation>)
      modifies this
      ensures conversation == c && name == old(name) && newParticipant == old(newParticipant)
    {
      conversation := c;
    }

    method SetName(text: string)
      modifies this
      ensures name == text && newParticipant == old(newParticipant) && conversation == old(conversation)
    {
      name := text;
    }

    method SetNewParticipant(text: string)
      modifies this
      ensures newParticipant == text && name == old(name) && conversation == old(conversation)
    {
      newParticipant := text;
    }

    /** `handleAddParticipant`: posts exactly `{ username: newParticipant }`. */
    method HandleAddParticipant() returns (r: Outcome<Request>)
      ensures r.TypeError? <==> conversation.None?
      ensures r.Ok? ==> r.value == AddParticipant("/conversations/" + IntToDecimal(conversation.value.id) + "/participants",
                                                   AddParticipantBody(newParticipant))
    {
      var path := ConversationPath(conversation, "/participants");
      if path.TypeError? {
        r := TypeError;
      } else {
        r := Ok(AddParticipant(path.value, AddParticipantBody(newParticipant)));
      }
    }

    /** `handleUpdateConversation`: the name always, the picked file only
        when there is one. */
    method HandleUpdateConversation(picked: Option<FileRef>) returns (r: Outcome<Request>)
      ensures r.TypeError? <==> conversation.None?
      ensures r.Ok? ==> r.value == UpdateProfile("/conversations/" + IntToDecimal(conversation.value.id) + "/profile",
                                                 GroupProfileForm(name, picked))
    {
      var path := ConversationPath(conversation, "/profile");
      if path.TypeError? {
        r := TypeError;
      } else {
        r := Ok(UpdateProfile(path.value, GroupProfileForm(name, picked)));
      }
    }

    /** `handleRemoveParticipant`, called with the participant's user id. */
    method HandleRemoveParticipant(participantUserId: int) returns (r: Outcome<Request>)
      ensures r.TypeError? <==> conversation.None?
      ensures r.Ok? ==> r.value == RemoveParticipant("/conversations/" + IntToDecimal(conversation.value.id)
                                                     + "/participants/" + IntToDecimal(participantUserId))
    {
      var path := ConversationPath(conversation, "/participants/" + IntToDecimal(participantUserId));
      if path.TypeError? {
        r := TypeError;
      } else {
        r := Ok(RemoveParticipant(path.value));
      }
    }

    /** `handleLeaveConversation`. */
    method HandleLeave() returns (r: Outcome<Request>)
      ensures r.TypeError? <==> conversation.None?
      ensures r.Ok? ==> r.value == Leave("/conversations/" + IntToDecimal(conversation.value.id) + "/leave")
    {
      var path := ConversationPath(conversation, "/leave");
      if path.TypeError? {
        r := TypeError;
      } else {
        r := Ok(Leave(path.value));
      }
    }

    /** Success of the add-participant request: the conversations query is
        marked stale and the input is cleared; the name input is kept. */
    method OnAddParticipantSuccess()
      modifies this, cache
      ensures cache.entries == MarkStale(old(cache.entries), ConversationsKey)
      ensures newParticipant == "" && name == old(name) && conversation == old(conversation)
    {
      cache.Invalidate(ConversationsKey);
      newParticipant := "";
    }

    /** Success of the update, remove and leave requests: the conversations
        query is marked stale and the inputs are kept. */
    method OnOtherSuccess()
      modifies cache
      ensures cache.entries == MarkStale(old(cache.entries), ConversationsKey)
    {
      cache.Invalidate(ConversationsKey);
    }
  }
}
