/** The server's hub (`ChatHub`): validates and normalises what a client sends, updates
    the message log and the presence registry, and fans events out. `Clients.All` and
    `Clients.Others` are modelled as an outbox of (target, event) pairs. */
module Hub {
  import opened Wrappers
  import opened Seqs
  import opened Text
  import opened MessageStore
  import opened UserTracker

  /** Who receives a broadcast: every connection, or every connection except the caller. */
  datatype Target = All | Others(caller: string)

  /** The events the hub pushes to clients, with their payloads. */
  datatype HubEvent =
    | ReceiveMessage(user: string, message: string, timestamp: DateTime)
    | UserStartedTyping(user: string)
    | UserStoppedTyping(user: string)
    | UsersOnlineChanged(count: nat, users: seq<string>)

  datatype Broadcast = Broadcast(target: Target, event: HubEvent)

  /** The presence event sent after a registry change: its count is the length of its list.
      The ensures only exposes the fields to callers; `AnnouncesView` states what the
      event means for a registry. */
  function PresenceChanged(users: seq<string>): (b: Broadcast)
    ensures b.target == All && b.event.UsersOnlineChanged?
    ensures b.event.users == users && b.event.count == |b.event.users|
  {
    Broadcast(All, UsersOnlineChanged(|users|, users))
  }

  /** `b` is the presence event for the registry `connections`: a full view sent to all. */
  ghost predicate AnnouncesView(connections: map<string, string>, b: Broadcast) {
    && b.event.UsersOnlineChanged?
    && b == PresenceChanged(b.event.users)
    && IsOnlineView(connections, b.event.users)
  }

  /** The name a connection is registered under: the query value, or "Anonymous" without
      an HTTP context, sanitised by the hub and again by the registry, is the sanitised
      query value. */
  lemma QueryNameRule(queryUser: Option<string>)
    ensures SanitizeName(Some(SanitizeName(Some(queryUser.GetOr(Anonymous))))) == SanitizeName(queryUser)
  {
    SanitizeIdempotent(Some(queryUser.GetOr(Anonymous)));
    if queryUser.None? {
      assert !IsWhiteSpace(Anonymous[0]) && !IsWhiteSpace(Anonymous[|Anonymous| - 1]);
      TrimOfTrimmed(Anonymous);
    }
  }

  class ChatHub {
    const messageStore: ChatMessageStore
    const userTracker: ConnectedUserTracker
    /** Every broadcast sent so far, in order. */
    var outbox: seq<Broadcast>

    ghost predicate Valid()
      reads this, messageStore
    {
      messageStore.Valid()
    }

    constructor (messageStore: ChatMessageStore, userTracker: ConnectedUserTracker)
      requires messageStore.Valid()
      ensures Valid()
      ensures this.messageStore == messageStore && this.userTracker == userTracker
      ensures outbox == []
    {
      this.messageStore := messageStore;
      this.userTracker := userTracker;
      outbox := [];
    }

    /** A blank or null body is dropped. Otherwise the trimmed body is stored under the
        sanitised sender name with the current time, and sent to everyone, the sender
        included. */
    method SendMessage(user: Option<string>, message: Option<string>, timestampUtc: DateTime)
      requires Valid()
      modifies this, messageStore
      ensures Valid()
      ensures IsNullOrWhiteSpace(message) ==>
        && messageStore.arrived == old(messageStore.arrived)
        && messageStore.messages == old(messageStore.messages)
        && outbox == old(outbox)
      ensures !IsNullOrWhiteSpace(message) ==>
        var m := ChatMessage(SanitizeName(user), Trim(message.value), timestampUtc);
        && messageStore.arrived == old(messageStore.arrived) + [m]
        && messageStore.messages == LastN(old(messageStore.arrived) + [m], MaxMessages)
        && outbox == old(outbox) + [Broadcast(All, ReceiveMessage(m.user, m.message, m.timestamp))]
        && m.message != "" && IsTrimmed(m.message) && !IsBlank(m.user)
    {
      if IsNullOrWhiteSpace(message) {
        return;
      }
      var sanitizedUser := SanitizeName(user);
      var sanitizedMessage := Trim(message.value);
      var chatMessage := messageStore.AddMessage(sanitizedUser, sanitizedMessage, timestampUtc);
      outbox := outbox + [Broadcast(All, ReceiveMessage(chatMessage.user, chatMessage.message, chatMessage.timestamp))];
    }

    /** Tells everyone but the caller that the sanitised user started typing. */
    method StartTyping(connectionId: string, user: Option<string>)
      modifies this
      ensures outbox == old(outbox) + [Broadcast(Others(connectionId), UserStartedTyping(SanitizeName(user)))]
      ensures unchanged(messageStore) && unchanged(userTracker)
    {
      var sanitizedUser := SanitizeName(user);
      outbox := outbox + [Broadcast(Others(connectionId), UserStartedTyping(sanitizedUser))];
    }

    /** Tells everyone but the caller that the sanitised user stopped typing. */
    method StopTyping(connectionId: string, user: Option<string>)
      modifies this
      ensures outbox == old(outbox) + [Broadcast(Others(connectionId), UserStoppedTyping(SanitizeName(user)))]
      ensures unchanged(messageStore) && unchanged(userTracker)
    {
      var sanitizedUser := SanitizeName(user);
      outbox := outbox + [Broadcast(Others(connectionId), UserStoppedTyping(sanitizedUser))];
    }

    /** Registers the connection under the name from its `user` query value (`None`: no
        HTTP context, so "Anonymous"; a missing key reads as "") and sends the new view to
        everyone, the new connection included. */
    method OnConnected(connectionId: string, queryUser: Option<string>)
      requires Valid()
      modifies this, userTracker
      ensures Valid()
      ensures userTracker.connections == old(userTracker.connections)[connectionId := SanitizeName(queryUser)]
      ensures |outbox| == |old(outbox)| + 1 && outbox[..|old(outbox)|] == old(outbox)
      ensures AnnouncesView(userTracker.connections, outbox[|outbox| - 1])
      ensures unchanged(messageStore)
    {
      var user := queryUser.GetOr(Anonymous);
      var sanitizedUser := SanitizeName(Some(user));
      QueryNameRule(queryUser);
      var users := userTracker.RegisterConnection(connectionId, Some(sanitizedUser));
      outbox := outbox + [PresenceChanged(users)];
    }

    /** Removes the connection (a no-op when it is not registered) and sends the remaining
        view to everyone. */
    method OnDisconnected(connectionId: string)
      requires Valid()
      modifies this, userTracker
      ensures Valid()
      ensures userTracker.connections == old(userTracker.connections) - {connectionId}
      ensures |outbox| == |old(outbox)| + 1 && outbox[..|old(outbox)|] == old(outbox)
      ensures AnnouncesView(userTracker.connections, outbox[|outbox| - 1])
      ensures unchanged(messageStore)
    {
      var users := userTracker.RemoveConnection(connectionId);
      outbox := outbox + [PresenceChanged(users)];
    }

    /** The history query: a snapshot of the message log. */
    method GetHistory() returns (history: seq<ChatMessage>)
      requires Valid()
      ensures history == LastN(messageStore.arrived, MaxMessages)
    {
      history := messageStore.GetMessages();
    }
  }
}
