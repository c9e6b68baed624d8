/** The event listeners that the chat layout, the chat window and the user
    list attach to their one shared socket, and how the effects' cleanups
    detach them. A listener is identified by the component (and, for the
    chat window, the conversation) that attached it and by its event name.
    `socket.off(event)` with no handler drops every listener of that event,
    whoever attached it; `socket.off(event, handler)` drops the first
    registration of that one handler. */
module SocketListeners {
  import opened JsArrays

  datatype Owner = Layout | Window(conversationId: string) | OnlineList

  /** The event names the three components pass to `socket.on` and
      `socket.off`, one constructor per name: `Connect` is "connect",
      `NewMessage` is "newMessage", and so on. `MessagesRead` is the name
      "messagesRead", which no component listens for; `MessageRead` is
      "messageRead". */
  datatype EventName =
    | Connect | NewMessage | MessageUpdated | MessageDeleted | NewConversation | ConversationUpdated
    | ParticipantAdded | ParticipantRemoved | PresenceUpdate | TypingUpdate | MessageReactionUpdate
    | MessageRead | MessagesRead

  datatype Listener = Listener(owner: Owner, event: EventName)

  /** The events the layout listens to on a new socket. */
  const LayoutEvents: seq<EventName> := [Connect, NewMessage, MessageUpdated, MessageDeleted, NewConversation,
                                         ConversationUpdated, ParticipantAdded, ParticipantRemoved, PresenceUpdate]

  /** The events the chat window's effect listens to. */
  const WindowEvents: seq<EventName> := [TypingUpdate, NewMessage, MessageUpdated, MessageDeleted,
                                         MessageReactionUpdate, MessageRead]

  /** The event names the chat window's cleanup passes to `socket.off`. */
  const WindowCleanupEvents: seq<EventName> := [TypingUpdate, NewMessage, MessageUpdated, MessageDeleted,
                                                MessageReactionUpdate, MessagesRead]

  /** The listeners one owner attaches, in order. */
  function ListenersOf(owner: Owner, events: seq<EventName>): (r: seq<Listener>)
    ensures |r| == |events| && forall i :: 0 <= i < |r| ==> r[i].owner == owner && r[i].event == events[i]
  {
    Map(events, (e: EventName) => Listener(owner, e))
  }

  /** What is left after `socket.off(e)` for every `e` in `events`. */
  function WithoutEvents(ls: seq<Listener>, events: seq<EventName>): (r: seq<Listener>)
    ensures forall l :: l in r <==> l in ls && l.event !in events
  {
    Filter(ls, (l: Listener) => l.event !in events)
  }

  /** What is left after `socket.off(x.event, x)`. */
  function RemoveFirst(ls: seq<Listener>, x: Listener): seq<Listener>
  {
    if ls == [] then []
    else if ls[0] == x then ls[1..]
    else [ls[0]] + RemoveFirst(ls[1..], x)
  }

  /** What is left after `socket.off(x.event, x)` for every `x` in `xs`, in
      order. */
  function RemoveEach(ls: seq<Listener>, xs: seq<Listener>): seq<Listener>
    decreases |xs|
  {
    if xs == [] then ls
    else RemoveEach(RemoveFirst(ls, xs[0]), xs[1..])
  }

  /** Removing `x` takes away one occurrence of it when there is one, and
      changes nothing otherwise. */
  lemma {:induction false} RemoveFirstRemovesOne(ls: seq<Listener>, x: Listener)
    ensures x in ls ==> multiset(RemoveFirst(ls, x))[x] == multiset(ls)[x] - 1
    ensures x !in ls ==> RemoveFirst(ls, x) == ls
  {
    if ls != [] {
      assert ls == [ls[0]] + ls[1..];
      if ls[0] != x {
        RemoveFirstRemovesOne(ls[1..], x);
      }
    }
  }

  /** Removing `x` leaves every other listener as often as it was. */
  lemma {:induction false} RemoveFirstKeeps(ls: seq<Listener>, x: Listener, y: Listener)
    requires y != x
    ensures multiset(RemoveFirst(ls, x))[y] == multiset(ls)[y]
  {
    if ls != [] {
      assert ls == [ls[0]] + ls[1..];
      if ls[0] != x {
        RemoveFirstKeeps(ls[1..], x, y);
      }
    }
  }

  /** Removing the listeners of `xs` leaves every listener not among them
      as often as it was. */
  lemma {:induction false} RemoveEachKeeps(ls: seq<Listener>, xs: seq<Listener>, y: Listener)
    requires y !in xs
    ensures multiset(RemoveEach(ls, xs))[y] == multiset(ls)[y]
    decreases |xs|
  {
    if xs != [] {
      RemoveFirstKeeps(ls, xs[0], y);
      RemoveEachKeeps(RemoveFirst(ls, xs[0]), xs[1..], y);
    }
  }

  /** The socket's listener table. */
  class Socket {
    var listeners: seq<Listener>

    constructor ()
      ensures listeners == []
    {
      listeners := [];
    }

    /** `socket.on(event, handler)`. */
    method On(owner: Owner, event: EventName)
      modifies this
      ensures listeners == old(listeners) + [Listener(owner, event)]
    {
      listeners := listeners + [Listener(owner, event)];
    }

    /** `socket.off(event)`. */
    method Off(event: EventName)
      modifies this
      ensures listeners == WithoutEvents(old(listeners), [event])
    {
      listeners := WithoutEvents(listeners, [event]);
    }

    /** `socket.off(event, handler)`. */
    method OffListener(owner: Owner, event: EventName)
      modifies this
      ensures listeners == RemoveFirst(old(listeners), Listener(owner, event))
    {
      listeners := RemoveFirst(listeners, Listener(owner, event));
    }
  }

  /** Dropping the first `k` events of `events` and then the next one drops
      the first `k + 1`. */
  lemma WithoutEventsStep(ls: seq<Listener>, events: seq<EventName>, k: nat)
    requires k < |events|
    ensures WithoutEvents(WithoutEvents(ls, events[..k]), [events[k]]) == WithoutEvents(ls, events[..k + 1])
  {
    assert events[..k + 1] == events[..k] + [events[k]];
    FilterFilter(ls, (l: Listener) => l.event !in events[..k], (l: Listener) => l.event !in [events[k]],
                 (l: Listener) => l.event !in events[..k + 1]);
  }

  /** Removing the first `k` listeners of `xs` and then the next one removes
      the first `k + 1`. */
  lemma {:induction false} RemoveEachStep(ls: seq<Listener>, xs: seq<Listener>, k: nat)
    requires k < |xs|
    ensures RemoveFirst(RemoveEach(ls, xs[..k]), xs[k]) == RemoveEach(ls, xs[..k + 1])
    decreases k
  {
    if k > 0 {
      assert xs[..k][0] == xs[0] && xs[..k + 1][0] == xs[0];
      assert xs[..k][1..] == xs[1..][..k - 1];
      assert xs[..k + 1][1..] == xs[1..][..k];
      RemoveEachStep(RemoveFirst(ls, xs[0]), xs[1..], k - 1);
    } else {
      assert xs[..1] == [xs[0]];
    }
  }

  /** Attaching one more owner listener extends the first `k` listeners of
      `events` to the first `k + 1`. */
  lemma ListenersOfStep(owner: Owner, events: seq<EventName>, k: nat)
    requires k < |events|
    ensures ListenersOf(owner, events[..k]) + [Listener(owner, events[k])] == ListenersOf(owner, events[..k + 1])
  {
    var a := ListenersOf(owner, events[..k]) + [Listener(owner, events[k])];
    var b := ListenersOf(owner, events[..k + 1]);
    assert |a| == |b|;
    forall i | 0 <= i < |a|
      ensures a[i] == b[i]
    {
      if i < k {
        assert a[i] == ListenersOf(owner, events[..k])[i];
      }
    }
  }

  /** The layout's effect on a truthy token: a new socket carrying the
      layout's listeners, attached one `socket.on` at a time. */
  method LayoutSetup() returns (s: Socket)
    ensures fresh(s) && s.listeners == ListenersOf(Layout, LayoutEvents)
  {
    ghost var ev := LayoutEvents;
    s := new Socket();
    assert ev[..0] == [];
    s.On(Layout, Connect);
    ListenersOfStep(Layout, ev, 0);
    s.On(Layout, NewMessage);
    ListenersOfStep(Layout, ev, 1);
    s.On(Layout, MessageUpdated);
    ListenersOfStep(Layout, ev, 2);
    s.On(Layout, MessageDeleted);
    ListenersOfStep(Layout, ev, 3);
    s.On(Layout, NewConversation);
    ListenersOfStep(Layout, ev, 4);
    s.On(Layout, ConversationUpdated);
    ListenersOfStep(Layout, ev, 5);
    s.On(Layout, ParticipantAdded);
    ListenersOfStep(Layout, ev, 6);
    s.On(Layout, ParticipantRemoved);
    ListenersOfStep(Layout, ev, 7);
    s.On(Layout, PresenceUpdate);
    ListenersOfStep(Layout, ev, 8);
    assert ev[..9] == ev;
  }

  /** The chat window's effect for `conversationId` (with a socket; without
      one the effect does nothing). */
  method WindowSetup(s: Socket, conversationId: string)
    modifies s
    ensures s.listeners == old(s.listeners) + ListenersOf(Window(conversationId), WindowEvents)
  {
    var w := Window(conversationId);
    ghost var ls := s.listeners;
    ghost var ev := WindowEvents;
    assert ev[..0] == [];
    s.On(w, TypingUpdate);
    ListenersOfStep(w, ev, 0);
    s.On(w, NewMessage);
    ListenersOfStep(w, ev, 1);
    s.On(w, MessageUpdated);
    ListenersOfStep(w, ev, 2);
    s.On(w, MessageDeleted);
    ListenersOfStep(w, ev, 3);
    s.On(w, MessageReactionUpdate);
    ListenersOfStep(w, ev, 4);
    s.On(w, MessageRead);
    ListenersOfStep(w, ev, 5);
    assert ev[..6] == ev;
  }

  /** The chat window's cleanup as written: six `socket.off(event)` calls,
      the last one for "messagesRead". */
  method WindowCleanup(s: Socket)
    modifies s
    ensures s.listeners == WithoutEvents(old(s.listeners), WindowCleanupEvents)
  {
    ghost var ls := s.listeners;
    ghost var names := WindowCleanupEvents;
    s.Off(TypingUpdate);
    assert names[..1] == [names[0]];
    s.Off(NewMessage);
    WithoutEventsStep(ls, names, 1);
    s.Off(MessageUpdated);
    WithoutEventsStep(ls, names, 2);
    s.Off(MessageDeleted);
    WithoutEventsStep(ls, names, 3);
    s.Off(MessageReactionUpdate);
    WithoutEventsStep(ls, names, 4);
    s.Off(MessagesRead);
    WithoutEventsStep(ls, names, 5);
    assert names[..6] == names;
  }

  /** The chat window's cleanup as intended: each of its own six handlers
      detached by reference. */
  method WindowCleanupOwn(s: Socket, conversationId: string)
    modifies s
    ensures s.listeners == RemoveEach(old(s.listeners), ListenersOf(Window(conversationId), WindowEvents))
  {
    var w := Window(conversationId);
    ghost var ls := s.listeners;
    ghost var own := ListenersOf(w, WindowEvents);
    assert own[..0] == [];
    s.OffListener(w, TypingUpdate);
    RemoveEachStep(ls, own, 0);
    s.OffListener(w, NewMessage);
    RemoveEachStep(ls, own, 1);
    s.OffListener(w, MessageUpdated);
    RemoveEachStep(ls, own, 2);
    s.OffListener(w, MessageDeleted);
    RemoveEachStep(ls, own, 3);
    s.OffListener(w, MessageReactionUpdate);
    RemoveEachStep(ls, own, 4);
    s.OffListener(w, MessageRead);
    RemoveEachStep(ls, own, 5);
    assert own[..6] == own;
  }

  /** The user list's effect (with a socket). */
  method OnlineListSetup(s: Socket)
    modifies s
    ensures s.listeners == old(s.listeners) + [Listener(OnlineList, PresenceUpdate)]
  {
    s.On(OnlineList, PresenceUpdate);
  }

  /** The user list's cleanup as written: `socket.off("presenceUpdate")`. */
  method OnlineListCleanup(s: Socket)
    modifies s
    ensures s.listeners == WithoutEvents(old(s.listeners), [PresenceUpdate])
  {
    s.Off(PresenceUpdate);
  }

  /** The user list's cleanup as intended: its own handler by reference. */
  method OnlineListCleanupOwn(s: Socket)
    modifies s
    ensures s.listeners == RemoveFirst(old(s.listeners), Listener(OnlineList, PresenceUpdate))
  {
    s.OffListener(OnlineList, PresenceUpdate);
  }

  /** One run of the chat window's effect followed by its cleanup, as
      written and as intended. */
  function WindowCycle(ls: seq<Listener>, conversationId: string): seq<Listener>
  {
    WithoutEvents(ls + ListenersOf(Window(conversationId), WindowEvents), WindowCleanupEvents)
  }

  function WindowCycleOwn(ls: seq<Listener>, conversationId: string): seq<Listener>
  {
    RemoveEach(ls + ListenersOf(Window(conversationId), WindowEvents), ListenersOf(Window(conversationId), WindowEvents))
  }

  /** The chat window's effect run and cleaned up once per conversation the
      user opens, in order. */
  function WindowRuns(ls: seq<Listener>, visits: seq<string>): seq<Listener>
    decreases |visits|
  {
    if visits == [] then ls else WindowRuns(WindowCycle(ls, visits[0]), visits[1..])
  }

  function WindowRunsOwn(ls: seq<Listener>, visits: seq<string>): seq<Listener>
    decreases |visits|
  {
    if visits == [] then ls else WindowRunsOwn(WindowCycleOwn(ls, visits[0]), visits[1..])
  }

  predicate IsMessageRead(l: Listener)
  {
    l.event == MessageRead
  }

  /** How many "messageRead" handlers the socket holds. */
  function MessageReadCount(ls: seq<Listener>): nat
  {
    |Filter(ls, IsMessageRead)|
  }

  /** An owner attaching a list of events whose only "messageRead" is the
      last one attaches exactly one "messageRead" handler. */
  lemma LastOnlyMessageRead(owner: Owner, events: seq<EventName>)
    requires |events| > 0 && events[|events| - 1] == MessageRead
    requires forall i :: 0 <= i < |events| - 1 ==> events[i] != MessageRead
    ensures MessageReadCount(ListenersOf(owner, events)) == 1
  {
    var own := ListenersOf(owner, events);
    var n := |own| - 1;
    assert own == own[..n] + [own[n]];
    FilterConcat(own[..n], [own[n]], IsMessageRead);
    FilterNone(own[..n], IsMessageRead);
    FilterAll([own[n]], IsMessageRead);
  }

  /** Of the chat window's own listeners, exactly one is for "messageRead". */
  lemma OwnMessageReadCount(conversationId: string)
    ensures MessageReadCount(ListenersOf(Window(conversationId), WindowEvents)) == 1
  {
    LastOnlyMessageRead(Window(conversationId), WindowEvents);
  }

  /** Each run of the chat window's effect leaves its "messageRead" handler
      attached after cleanup. */
  lemma WindowCycleLeaksMessageRead(ls: seq<Listener>, conversationId: string)
    ensures MessageReadCount(WindowCycle(ls, conversationId)) == MessageReadCount(ls) + 1
  {
    var own := ListenersOf(Window(conversationId), WindowEvents);
    var keep := (l: Listener) => l.event !in WindowCleanupEvents;
    assert forall l: Listener :: IsMessageRead(l) ==> keep(l);
    FilterFilter(ls + own, keep, IsMessageRead, IsMessageRead);
    FilterConcat(ls, own, IsMessageRead);
    OwnMessageReadCount(conversationId);
  }

  /** After a run and its cleanup, of the chat window's handlers only the
      "messageRead" one is still attached. */
  lemma WindowCycleKeepsOnlyMessageRead(ls: seq<Listener>, conversationId: string)
    ensures Listener(Window(conversationId), MessageRead) in WindowCycle(ls, conversationId)
    ensures forall i :: 0 <= i < 5 ==> Listener(Window(conversationId), WindowEvents[i]) !in WindowCycle(ls, conversationId)
  {
    var own := ListenersOf(Window(conversationId), WindowEvents);
    assert own[5] in ls + own;
    assert MessageRead !in WindowCleanupEvents;
    assert forall i :: 0 <= i < 5 ==> WindowEvents[i] == WindowCleanupEvents[i];
  }

  /** Opening `n` conversations in turn leaves `n` stale "messageRead"
      handlers on the socket. */
  lemma {:induction false} WindowRunsLeak(ls: seq<Listener>, visits: seq<string>)
    ensures MessageReadCount(WindowRuns(ls, visits)) == MessageReadCount(ls) + |visits|
    decreases |visits|
  {
    if visits != [] {
      WindowCycleLeaksMessageRead(ls, visits[0]);
      WindowRunsLeak(WindowCycle(ls, visits[0]), visits[1..]);
    }
  }

  /** The chat window's cleanup also detaches the layout's "newMessage",
      "messageUpdated" and "messageDeleted" handlers, and the user list's
      cleanup detaches the layout's "presenceUpdate" handler, although
      they were attached right before. */
  lemma CleanupsDropLayoutListeners(conversationId: string)
    ensures var mounted := ListenersOf(Layout, LayoutEvents) + ListenersOf(Window(conversationId), WindowEvents);
            && Listener(Layout, NewMessage) in mounted
            && Listener(Layout, MessageUpdated) in mounted
            && Listener(Layout, MessageDeleted) in mounted
            && Listener(Layout, NewMessage) !in WithoutEvents(mounted, WindowCleanupEvents)
            && Listener(Layout, MessageUpdated) !in WithoutEvents(mounted, WindowCleanupEvents)
            && Listener(Layout, MessageDeleted) !in WithoutEvents(mounted, WindowCleanupEvents)
    ensures var mounted := ListenersOf(Layout, LayoutEvents) + [Listener(OnlineList, PresenceUpdate)];
            && Listener(Layout, PresenceUpdate) in mounted
            && Listener(Layout, PresenceUpdate) !in WithoutEvents(mounted, [PresenceUpdate])
  {
    var layout := ListenersOf(Layout, LayoutEvents);
    assert layout[1] == Listener(Layout, NewMessage);
    assert layout[2] == Listener(Layout, MessageUpdated);
    assert layout[3] == Listener(Layout, MessageDeleted);
    assert layout[8] == Listener(Layout, PresenceUpdate);
  }

  /** Removing the first occurrence of a listener that sits right after a
      prefix without it. */
  lemma {:induction false} RemoveFirstAfter(a: seq<Listener>, x: Listener, rest: seq<Listener>)
    requires x !in a
    ensures RemoveFirst(a + [x] + rest, x) == a + rest
  {
    var l := a + [x] + rest;
    if a == [] {
      assert l == [x] + rest && l[0] == x;
      assert l[1..] == rest;
    } else {
      assert l[0] == a[0] && a[0] != x;
      assert l[1..] == a[1..] + [x] + rest;
      assert RemoveFirst(l, x) == [a[0]] + RemoveFirst(l[1..], x);
      RemoveFirstAfter(a[1..], x, rest);
      assert a + rest == [a[0]] + (a[1..] + rest);
    }
  }

  /** Removing, in order, the listeners that were appended last restores
      the table, when none of them was there before. */
  lemma {:induction false} RemoveEachAppended(a: seq<Listener>, xs: seq<Listener>)
    requires forall i :: 0 <= i < |xs| ==> xs[i] !in a
    ensures RemoveEach(a + xs, xs) == a
  {
    if xs != [] {
      RemoveFirstAfter(a, xs[0], xs[1..]);
      assert a + xs == a + [xs[0]] + xs[1..];
      RemoveEachAppended(a, xs[1..]);
    }
  }

  /** With the intended cleanup, a run of the chat window's effect leaves
      the table as it found it whenever no chat window handler was attached
      before; in every case it never touches a listener of another owner. */
  lemma WindowCycleOwnRestores(ls: seq<Listener>, conversationId: string, x: Listener)
    ensures (forall i :: 0 <= i < |ls| ==> !ls[i].owner.Window?) ==> WindowCycleOwn(ls, conversationId) == ls
    ensures x.owner != Window(conversationId) ==>
              multiset(RemoveEach(ls, ListenersOf(Window(conversationId), WindowEvents)))[x] == multiset(ls)[x]
  {
    var own := ListenersOf(Window(conversationId), WindowEvents);
    if forall i :: 0 <= i < |ls| ==> !ls[i].owner.Window? {
      RemoveEachAppended(ls, own);
    }
    if x.owner != Window(conversationId) {
      assert x !in own;
      RemoveEachKeeps(ls, own, x);
    }
  }

  /** With the intended cleanups, opening any number of conversations leaves
      a table without chat window handlers exactly as it was, and the user
      list's cleanup keeps every listener but its own. */
  lemma {:induction false} WindowRunsOwnRestore(ls: seq<Listener>, visits: seq<string>, x: Listener)
    requires forall i :: 0 <= i < |ls| ==> !ls[i].owner.Window?
    ensures WindowRunsOwn(ls, visits) == ls
    ensures x != Listener(OnlineList, PresenceUpdate) ==>
              multiset(RemoveFirst(ls, Listener(OnlineList, PresenceUpdate)))[x] == multiset(ls)[x]
  {
    if visits != [] {
      WindowCycleOwnRestores(ls, visits[0], x);
      WindowRunsOwnRestore(ls, visits[1..], x);
    }
    if x != Listener(OnlineList, PresenceUpdate) {
      RemoveFirstKeeps(ls, Listener(OnlineList, PresenceUpdate), x);
    }
  }
}
