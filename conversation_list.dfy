/** The sidebar rows: for each conversation, the link target, whether the
    row is highlighted, the title, the avatar image and the avatar's
    fallback letter. A group row shows the group's own name and picture; a
    one-to-one row shows the first participant who is not the current user. */
module ConversationList {
  import opened JsValues
  import opened JsStrings
  import opened Types

  /** The row title: `conversation.name` for a group, else the other
      participant's username (`undefined` when there is none). */
  function Title(c: Conversation, currentUserId: Option<int>): Option<string>
  {
    if c.isGroup then c.name
    else match FindOther(c.participants, currentUserId)
      case None => None
      case Some(p) => Some(p.user.username)
  }

  /** The avatar image: `groupProfile` for a group, else the other
      participant's `profileImage`. */
  function AvatarSource(c: Conversation, currentUserId: Option<int>): Option<string>
  {
    if c.isGroup then c.groupProfile
    else match FindOther(c.participants, currentUserId)
      case None => None
      case Some(p) => p.user.profileImage
  }

  /** Title and avatar of a one-to-one row come from one and the same
      participant: the first one whose user is not the current user. */
  lemma RowShowsOtherParticipant(c: Conversation, currentUserId: Option<int>)
    ensures c.isGroup ==> Title(c, currentUserId) == c.name && AvatarSource(c, currentUserId) == c.groupProfile
    ensures !c.isGroup ==>
              (Title(c, currentUserId).None? <==>
                 forall i :: 0 <= i < |c.participants| ==> Some(c.participants[i].user.id) == currentUserId)
    ensures !c.isGroup && Title(c, currentUserId).Some? ==>
              exists k :: 0 <= k < |c.participants|
                          && Some(c.participants[k].user.id) != currentUserId
                          && (forall j :: 0 <= j < k ==> Some(c.participants[j].user.id) == currentUserId)
                          && Title(c, currentUserId) == Some(c.participants[k].user.username)
                          && AvatarSource(c, currentUserId) == c.participants[k].user.profileImage
  {
    if !c.isGroup && Title(c, currentUserId).Some? {
      var k :| 0 <= k < |c.participants| && c.participants[k] == FindOther(c.participants, currentUserId).value
               && Some(c.participants[k].user.id) != currentUserId
               && forall j :: 0 <= j < k ==> Some(c.participants[j].user.id) == currentUserId;
    }
  }

  /** The avatar fallback, `title?.[0].toUpperCase()`: nothing for a missing
      title, the first character upper-cased otherwise; an empty title reads
      `""[0]`, which is `undefined`, and calling `toUpperCase` on it throws. */
  function FallbackLetter(title: Option<string>): (r: Outcome<Option<string>>)
    ensures r.TypeError? <==> title == Some("")
    ensures r == Ok(None) <==> title.None?
    ensures r.Ok? && r.value.Some? ==> title.Some? && |title.value| > 0 && r.value.value == [ToUpper(title.value[0])]
  {
    match title
    case None => Ok(None)
    case Some(s) => if s == "" then TypeError else Ok(Some([ToUpper(s[0])]))
  }

  /** The text `parseInt` receives for the `conversationId` query
      parameter: `searchParams.get` yields `null` for a missing parameter,
      which `parseInt` converts to the string "null". */
  function ParamText(param: Option<string>): string
  {
    if param.None? then "null" else param.value
  }

  /** `conversation.id === parseInt(conversationId as string)`; `NaN` (here
      `None`) equals no id. */
  predicate IsSelected(c: Conversation, param: Option<string>)
  {
    ParseInt(ParamText(param)) == Some(c.id)
  }

  /** The row's link, `/chat/${conversation.id}`: a path with no query
      string. */
  function Href(c: Conversation): (href: string)
    ensures |href| > 6 && href[..6] == "/chat/"
    ensures '?' !in href
  {
    "/chat/" + IntToDecimal(c.id)
  }

  /** A row is highlighted for the parameter that is its own id written in
      decimal, and the id in a row's link reads back as that row's id. */
  lemma SelectedByOwnId(c: Conversation)
    ensures IsSelected(c, Some(IntToDecimal(c.id)))
    ensures ParseInt(Href(c)[6..]) == Some(c.id)
  {
    ParseIntOfDecimal(c.id);
    assert Href(c)[6..] == IntToDecimal(c.id);
  }

  /** No two rows share an id. */
  predicate DistinctIds(cs: seq<Conversation>)
  {
    forall i, j :: 0 <= i < |cs| && 0 <= j < |cs| && i != j ==> cs[i].id != cs[j].id
  }

  /** Without the parameter no row is highlighted, and among rows with
      distinct ids at most one is highlighted for any parameter. */
  lemma SelectionUnique(cs: seq<Conversation>, param: Option<string>)
    ensures forall i :: 0 <= i < |cs| ==> !IsSelected(cs[i], None)
    ensures DistinctIds(cs) ==>
              forall i, j :: 0 <= i < |cs| && 0 <= j < |cs| && IsSelected(cs[i], param) && IsSelected(cs[j], param) ==> i == j
  {
    var s := ParamText(None);
    assert s == "null";
    assert forall k :: 0 <= k < |s| ==> !IsHexDigit(s[k]);
  }

  // ---------------------------------------------------------------------
  // Where the highlighted id comes from
  // ---------------------------------------------------------------------

  /** The address the browser shows: the path and the parameters of the
      query string. */
  datatype Location = Location(path: string, query: map<string, string>)

  /** `useSearchParams().get(name)`: `null` (here `None`) when the query
      string has no such parameter. */
  function SearchParam(loc: Location, name: string): (r: Option<string>)
    ensures r.Some? <==> name in loc.query
  {
    if name in loc.query then Some(loc.query[name]) else None
  }

  /** Where following a link without a query string leads. */
  function Follow(href: string): (loc: Location)
    requires '?' !in href
    ensures loc.path == href && loc.query == map[]
  {
    Location(href, map[])
  }

  /** The `[conversationId]` segment of a `/chat/[conversationId]` path, as
      `useParams()` gives it to the chat layout. */
  function RouteParam(path: string): (r: Option<string>)
    ensures r.Some? <==> |path| > 6 && path[..6] == "/chat/"
    ensures r.Some? ==> path == "/chat/" + r.value
  {
    if |path| > 6 && path[..6] == "/chat/" then Some(path[6..]) else None
  }

  /** The highlight as written: it reads the `conversationId` query
      parameter. */
  predicate HighlightedAsWritten(c: Conversation, loc: Location)
  {
    IsSelected(c, SearchParam(loc, "conversationId"))
  }

  /** The highlight as intended: it reads the id from the route segment the
      row links put it in. */
  predicate Highlighted(c: Conversation, loc: Location)
  {
    IsSelected(c, RouteParam(loc.path))
  }

  /** As written, following any row's link leaves every row unhighlighted:
      the links carry the id in the path, so the query parameter is
      missing and `parseInt` gives NaN. */
  lemma LinkNeverHighlightsAsWritten(cs: seq<Conversation>, k: int)
    requires 0 <= k < |cs|
    ensures forall j :: 0 <= j < |cs| ==> !HighlightedAsWritten(cs[j], Follow(Href(cs[k])))
  {
    SelectionUnique(cs, None);
  }

  /** With the route segment, following a row's link highlights that row
      and no other one (rows have distinct ids). */
  lemma LinkHighlightsItsRow(cs: seq<Conversation>, k: int)
    requires DistinctIds(cs)
    requires 0 <= k < |cs|
    ensures forall j :: 0 <= j < |cs| ==> (Highlighted(cs[j], Follow(Href(cs[k]))) <==> j == k)
  {
    var loc := Follow(Href(cs[k]));
    assert Href(cs[k])[6..] == IntToDecimal(cs[k].id);
    assert RouteParam(loc.path) == Some(IntToDecimal(cs[k].id));
    ParseIntOfDecimal(cs[k].id);
  }
}
