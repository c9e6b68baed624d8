/** The user list panel: its local list of users, patched by presence
    updates, and the two mappings from a presence status to a badge colour
    and a label. */
module OnlineUsers {
  import opened JsValues
  import opened JsArrays
  import opened Types

  /** `prevUsers.map((user) => user.id === userId ? { ...user, presenceStatus: status } : user)`. */
  function SetPresence(users: seq<User>, userId: int, status: string): seq<User>
  {
    Map(users, (u: User) => if u.id == userId then u.(presenceStatus := Some(status)) else u)
  }

  /** A presence update sets the status of the users with that id and
      touches no other field and no other user; length and order are kept. */
  lemma SetPresenceSpec(users: seq<User>, userId: int, status: string)
    ensures var r := SetPresence(users, userId, status);
            && |r| == |users|
            && (forall i :: 0 <= i < |r| && users[i].id == userId ==>
                  r[i].presenceStatus == Some(status) && r[i].(presenceStatus := users[i].presenceStatus) == users[i])
            && (forall i :: 0 <= i < |r| && users[i].id != userId ==> r[i] == users[i])
  {
  }

  /** An update for an id not in the list changes nothing, and applying the
      same update twice is the same as once. */
  lemma SetPresenceIdempotent(users: seq<User>, userId: int, status: string)
    ensures (forall i :: 0 <= i < |users| ==> users[i].id != userId) ==> SetPresence(users, userId, status) == users
    ensures SetPresence(SetPresence(users, userId, status), userId, status) == SetPresence(users, userId, status)
  {
  }

  /** `getStatusColor`: a total mapping, gray for every unknown status. */
  function StatusColor(status: string): (color: string)
    ensures color == "bg-green-500" <==> status == "ONLINE"
    ensures color == "bg-yellow-500" <==> status == "AWAY"
    ensures color == "bg-red-500" <==> status == "BUSY"
    ensures color == "bg-gray-500" <==> status != "ONLINE" && status != "AWAY" && status != "BUSY"
  {
    match status
    case "ONLINE" => "bg-green-500"
    case "AWAY" => "bg-yellow-500"
    case "BUSY" => "bg-red-500"
    case _ => "bg-gray-500"
  }

  /** `getStatusText`: a total mapping, "Offline" for every unknown status. */
  function StatusText(status: string): (text: string)
    ensures text == "Online" <==> status == "ONLINE"
    ensures text == "Away" <==> status == "AWAY"
    ensures text == "Busy" <==> status == "BUSY"
    ensures text == "Offline" <==> status != "ONLINE" && status != "AWAY" && status != "BUSY"
  {
    match status
    case "ONLINE" => "Online"
    case "AWAY" => "Away"
    case "BUSY" => "Busy"
    case _ => "Offline"
  }

  /** `user.presenceStatus || "OFFLINE"`, the status both mappings receive. */
  function ShownStatus(presenceStatus: Option<string>): string
  {
    OrElse(presenceStatus, "OFFLINE")
  }

  /** A missing or empty status is shown as offline, and the colour and the
      label always agree on which of the four states a user is in. */
  lemma StatusDisplayAgrees(presenceStatus: Option<string>)
    ensures presenceStatus.None? || presenceStatus.value == "" ==>
              StatusText(ShownStatus(presenceStatus)) == "Offline" && StatusColor(ShownStatus(presenceStatus)) == "bg-gray-500"
    ensures var s := ShownStatus(presenceStatus);
            && (StatusText(s) == "Online" <==> StatusColor(s) == "bg-green-500")
            && (StatusText(s) == "Away" <==> StatusColor(s) == "bg-yellow-500")
            && (StatusText(s) == "Busy" <==> StatusColor(s) == "bg-red-500")
            && (StatusText(s) == "Offline" <==> StatusColor(s) == "bg-gray-500")
  {
  }

  /** The panel's state: its own list of users. */
  class OnlineUsersState {
    var onlineUsers: seq<User>

    constructor ()
      ensures onlineUsers == []
    {
      onlineUsers := [];
    }

    /** The initial fetch of `/profile/online` succeeded. */
    method OnFetched(users: seq<User>)
      modifies this
      ensures onlineUsers == users
    {
      onlineUsers := users;
    }

    /** `presenceUpdate`. */
    method OnPresenceUpdate(userId: int, status: string)
      modifies this
      ensures onlineUsers == SetPresence(old(onlineUsers), userId, status)
      ensures forall i :: 0 <= i < |onlineUsers| && old(onlineUsers)[i].id == userId ==>
                ShownStatus(onlineUsers[i].presenceStatus) == (if status == "" then "OFFLINE" else status)
    {
      onlineUsers := SetPresence(onlineUsers, userId, status);
    }
  }
}
