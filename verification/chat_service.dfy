/** The chat service (`chatService`): conversation listing, the conversation
    change feed, and the thin wrappers around the message table and the
    get-or-create procedure. Every backend reply is an input. */
module ChatService {
  import opened Gateway

  /** The profile columns joined into a conversation row. */
  datatype Profile = Profile(id: string, fullName: Option<string>, avatarUrl: Option<string>, email: string)

  datatype MessageRow = MessageRow(id: string, conversationId: string, senderId: string, content: string, createdAt: string)

  /** A conversation row as the list query returns it, with its joins: the last
      message and both participants' profiles, each absent when the join found nothing. */
  datatype ConversationRow = ConversationRow(
    id: string,
    participant1Id: string,
    participant2Id: string,
    lastMessageId: Option<string>,
    updatedAt: string,
    lastMessage: Option<MessageRow>,
    participant1: Option<Profile>,
    participant2: Option<Profile>)

  /** `other_user`: every field is `None` when undefined; the name and avatar are
      themselves nullable columns. */
  datatype OtherUser = OtherUser(id: Option<string>, fullName: Option<Option<string>>,
                                 avatarUrl: Option<Option<string>>, email: Option<string>)

  /** A row spread into the view, with `other_user` and `unread_count` added. */
  datatype ConversationView = ConversationView(row: ConversationRow, otherUser: OtherUser, unreadCount: int)

  /** The joined profile of the participant that is not the viewer: the second one
      when the viewer sits in the first slot, the first one otherwise. */
  function Counterpart(row: ConversationRow, userId: string): Option<Profile> {
    if row.participant1Id == userId then row.participant2 else row.participant1
  }

  /** `{ id: otherUser?.id, full_name: otherUser?.full_name, ... }`. */
  function Snapshot(p: Option<Profile>): (u: OtherUser)
    ensures p.None? ==> u == OtherUser(None, None, None, None)
    ensures p.Some? ==> u.id == Some(p.value.id) && u.email == Some(p.value.email)
                        && u.fullName == Some(p.value.fullName) && u.avatarUrl == Some(p.value.avatarUrl)
  {
    match p
    case None => OtherUser(None, None, None, None)
    case Some(q) => OtherUser(Some(q.id), Some(q.fullName), Some(q.avatarUrl), Some(q.email))
  }

  function ProjectRow(row: ConversationRow, userId: string): (v: ConversationView)
    ensures v.row == row && v.unreadCount == 0
  {
    ConversationView(row, Snapshot(Counterpart(row, userId)), 0)
  }

  /** `getConversations`: a query error is rethrown unchanged; otherwise every row,
      in the order the query returned them, becomes one view. */
  method GetConversations(userId: string, reply: Outcome<seq<ConversationRow>>)
    returns (r: Outcome<seq<ConversationView>>)
    ensures reply.Err? ==> r == Err(reply.message)
    ensures reply.Ok? ==> r.Ok? && |r.value| == |reply.value|
    ensures reply.Ok? ==> forall i :: 0 <= i < |reply.value| ==>
              && r.value[i].row == reply.value[i]
              && r.value[i].unreadCount == 0
              && r.value[i].otherUser == Snapshot(Counterpart(reply.value[i], userId))
  {
    match reply
    case Err(msg) => return Err(msg);
    case Ok(rows) =>
      var views: seq<ConversationView> := [];
      var i := 0;
      while i < |rows|
        invariant 0 <= i <= |rows|
        invariant |views| == i
        invariant forall k :: 0 <= k < i ==> views[k] == ProjectRow(rows[k], userId)
      {
        views := views + [ProjectRow(rows[i], userId)];
        i := i + 1;
      }
      return Ok(views);
  }

  /** The joined profiles belong to the participants named in the row. */
  predicate JoinsMatch(row: ConversationRow) {
    && (row.participant1.Some? ==> row.participant1.value.id == row.participant1Id)
    && (row.participant2.Some? ==> row.participant2.value.id == row.participant2Id)
  }

  /** For a viewer who is one of two distinct participants and whose counterpart's
      profile was found, `other_user` is the counterpart, never the viewer. */
  lemma OtherUserIsCounterpart(row: ConversationRow, userId: string)
    requires JoinsMatch(row)
    requires row.participant1Id != row.participant2Id
    requires userId == row.participant1Id || userId == row.participant2Id
    requires Counterpart(row, userId).Some?
    ensures var other := ProjectRow(row, userId).otherUser;
            && other.id.Some? && other.id.value != userId
            && other.id.value == (if userId == row.participant1Id then row.participant2Id else row.participant1Id)
  {
  }

  /** A missing counterpart profile gives an `other_user` whose fields are all
      undefined rather than an error. */
  lemma MissingProfileIsUndefined(row: ConversationRow, userId: string)
    requires Counterpart(row, userId).None?
    ensures ProjectRow(row, userId).otherUser == OtherUser(None, None, None, None)
  {
  }

  // ---------------------------------------------------------------------------
  // Conversation change feed

  /** The closure state of `subscribeToConversations`: the liveness flag, whether
      setup produced a channel, and how often the channel was told to unsubscribe. */
  datatype Listener = Listener(isMounted: bool, channel: bool, unsubscribes: nat)

  /** The call itself: setup runs to completion before the disposer is returned,
      and leaves no channel if it threw. */
  function Subscribe(setupSucceeds: bool): (l: Listener)
    ensures l.isMounted && l.channel == setupSucceeds && l.unsubscribes == 0
  {
    Listener(true, setupSucceeds, 0)
  }

  /** A change on the channel reaches the callback. */
  predicate Forwards(l: Listener) {
    l.channel && l.isMounted
  }

  /** The disposer: clear the liveness flag, and unsubscribe if there is a channel. */
  function Dispose(l: Listener): (d: Listener)
    ensures !Forwards(d) && d.channel == l.channel
    ensures d.unsubscribes == l.unsubscribes + (if l.channel then 1 else 0)
  {
    Listener(false, l.channel, if l.channel then l.unsubscribes + 1 else l.unsubscribes)
  }

  datatype FeedEvent<P> = Change(payload: P) | Disposed

  datatype Replay<P> = Replay(listener: Listener, delivered: seq<P>)

  /** The listener after a sequence of events, and the payloads the callback saw. */
  function Run<P>(l: Listener, events: seq<FeedEvent<P>>): Replay<P>
    decreases |events|
  {
    if |events| == 0 then Replay(l, [])
    else
      match events[0]
      case Disposed => Run(Dispose(l), events[1..])
      case Change(p) =>
        var rest := Run(l, events[1..]);
        Replay(rest.listener, (if Forwards(l) then [p] else []) + rest.delivered)
  }

  /** The events up to the first disposal. */
  function BeforeDispose<P>(events: seq<FeedEvent<P>>): seq<FeedEvent<P>>
    decreases |events|
  {
    if |events| == 0 || events[0].Disposed? then [] else [events[0]] + BeforeDispose(events[1..])
  }

  function Payloads<P>(events: seq<FeedEvent<P>>): seq<P>
    decreases |events|
  {
    if |events| == 0 then []
    else (if events[0].Change? then [events[0].payload] else []) + Payloads(events[1..])
  }

  /** Once a listener stops forwarding, nothing in the future makes it forward again. */
  lemma {:induction false} SilentStaysSilent<P>(l: Listener, events: seq<FeedEvent<P>>)
    requires !Forwards(l)
    ensures Run(l, events).delivered == []
    decreases |events|
  {
    if |events| > 0 {
      SilentStaysSilent(if events[0].Disposed? then Dispose(l) else l, events[1..]);
    }
  }

  /** The callback sees exactly the changes that arrive before the first disposal,
      in order, and none at all if setup failed. */
  lemma {:induction false} DeliveredBeforeDispose<P>(l: Listener, events: seq<FeedEvent<P>>)
    requires Forwards(l)
    ensures Run(l, events).delivered == Payloads(BeforeDispose(events))
    decreases |events|
  {
    if |events| > 0 {
      if events[0].Disposed? {
        SilentStaysSilent(Dispose(l), events[1..]);
      } else {
        DeliveredBeforeDispose(l, events[1..]);
        assert ([events[0]] + BeforeDispose(events[1..]))[1..] == BeforeDispose(events[1..]);
      }
    }
  }

  /** The subscription as a whole: what the callback sees for a run of events. */
  lemma SubscriptionDelivers<P>(setupSucceeds: bool, events: seq<FeedEvent<P>>)
    ensures Run(Subscribe(setupSucceeds), events).delivered ==
              if setupSucceeds then Payloads(BeforeDispose(events)) else []
  {
    if setupSucceeds {
      DeliveredBeforeDispose(Subscribe(true), events);
    } else {
      SilentStaysSilent(Subscribe(false), events);
    }
  }

  /** The number of disposals among `events`. */
  function Disposals<P>(events: seq<FeedEvent<P>>): nat
    decreases |events|
  {
    if |events| == 0 then 0 else (if events[0].Disposed? then 1 else 0) + Disposals(events[1..])
  }

  /** The disposer is not guarded: every call unsubscribes the channel again. */
  lemma {:induction false} UnsubscribePerDispose<P>(l: Listener, events: seq<FeedEvent<P>>)
    ensures Run(l, events).listener.unsubscribes ==
              l.unsubscribes + (if l.channel then Disposals(events) else 0)
    ensures Run(l, events).listener.channel == l.channel
    decreases |events|
  {
    if |events| > 0 {
      UnsubscribePerDispose(if events[0].Disposed? then Dispose(l) else l, events[1..]);
    }
  }

  // ---------------------------------------------------------------------------
  // Thin wrappers

  /** The row `sendMessage` inserts: exactly these three columns. */
  datatype NewMessage = NewMessage(conversationId: string, senderId: string, content: string)

  datatype ChatRequest =
    | CreateConversation(user1Id: string, user2Id: string)
    | ListMessages(conversationId: string)
    | InsertMessage(row: NewMessage)

  /** One backend request and what the wrapper resolves to. */
  datatype Call<T> = Call(request: ChatRequest, result: Outcome<T>)

  /** `getOrCreateConversation`: the procedure gets the two ids in the caller's
      order; its error is rethrown unchanged. */
  function GetOrCreateConversation(user1Id: string, user2Id: string, reply: Outcome<string>): (c: Call<string>)
    ensures c.request == CreateConversation(user1Id, user2Id)
    ensures c.result.Err? <==> reply.Err?
    ensures c.result.Err? ==> c.result.message == reply.message
    ensures c.result.Ok? ==> c.result.value == reply.value
  {
    Call(CreateConversation(user1Id, user2Id), reply)
  }

  /** `getMessages`: the rows as the query ordered them, or its error unchanged. */
  function GetMessages(conversationId: string, reply: Outcome<seq<MessageRow>>): (c: Call<seq<MessageRow>>)
    ensures c.request == ListMessages(conversationId)
    ensures c.result.Err? <==> reply.Err?
    ensures c.result.Err? ==> c.result.message == reply.message
    ensures c.result.Ok? ==> c.result.value == reply.value
  {
    Call(ListMessages(conversationId), reply)
  }

  /** `sendMessage`: one row with exactly these columns, whatever the content
      (even empty), and the stored row back, or the insert's error unchanged. */
  function SendMessage(conversationId: string, senderId: string, content: string,
                       reply: Outcome<MessageRow>): (c: Call<MessageRow>)
    ensures c.request.InsertMessage?
    ensures c.request.row.conversationId == conversationId && c.request.row.senderId == senderId
    ensures c.request.row.content == content
    ensures c.result.Err? <==> reply.Err?
    ensures c.result.Err? ==> c.result.message == reply.message
    ensures c.result.Ok? ==> c.result.value == reply.value
  {
    Call(InsertMessage(NewMessage(conversationId, senderId, content)), reply)
  }
}
