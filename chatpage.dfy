/** The chat page (`Chat.tsx`): the local message history with its de-duplication and
    cap, the list of users currently typing with one expiry timer per user, the
    connection status with the "typing already announced" flag, and the gating of the
    calls the page makes to the hub. Timers and transport signals are explicit events. */
module ChatPage {
  import opened Wrappers
  import opened Seqs
  import opened Text
  import opened ChatTypes

  /** The client keeps at most this many messages. */
  const MaxMessages: nat := 50

  // ---- pure helpers ----

  /** Two messages are the same exactly when all three fields agree. */
  function IsSameMessage(a: Message, b: Message): (r: bool)
    ensures r <==> a == b
  {
    a.timestamp == b.timestamp && a.user == b.user && a.message == b.message
  }

  /** `messages.some(m => isSameMessage(m, incoming))`. */
  function AnySame(messages: seq<Message>, incoming: Message): (r: bool)
    ensures r <==> incoming in messages
  {
    messages != [] && (IsSameMessage(messages[0], incoming) || AnySame(messages[1..], incoming))
  }

  /** Adds a live message: a copy of one already held is dropped; otherwise it is appended
      and the oldest message is evicted once there are more than fifty. */
  function AppendUniqueMessage(current: seq<Message>, incoming: Message): (r: seq<Message>)
    ensures incoming in current ==> r == current
    ensures incoming !in current ==> r == LastN(current + [incoming], MaxMessages)
    ensures incoming !in current ==> |r| == Min(|current| + 1, MaxMessages) && r[|r| - 1] == incoming
  {
    if AnySame(current, incoming) then current
    else
      var next := current + [incoming];
      if |next| > MaxMessages then next[|next| - MaxMessages..] else next
  }

  /** Receiving the same message twice has the effect of receiving it once. */
  lemma AppendUniqueIdempotent(current: seq<Message>, incoming: Message)
    ensures AppendUniqueMessage(AppendUniqueMessage(current, incoming), incoming)
         == AppendUniqueMessage(current, incoming)
  {
    var once := AppendUniqueMessage(current, incoming);
    assert incoming in once by {
      if incoming !in current {
        assert once[|once| - 1] == incoming;
      }
    }
  }

  /** A duplicate-free history of at most fifty messages stays so. */
  lemma AppendUniqueKeepsInvariant(current: seq<Message>, incoming: Message)
    requires NoDuplicates(current) && |current| <= MaxMessages
    ensures NoDuplicates(AppendUniqueMessage(current, incoming))
    ensures |AppendUniqueMessage(current, incoming)| <= MaxMessages
  {
    if incoming !in current {
      var next := current + [incoming];
      assert NoDuplicates(next) by {
        forall i, j | 0 <= i < j < |next| ensures next[i] != next[j] {
          if j == |next| - 1 {
            assert next[i] in current;
          }
        }
      }
      LastNNoDuplicates(next, MaxMessages);
    }
  }

  /** The same broadcast received twice (say, once live and once more after a reconnect)
      is shown once. */
  lemma DuplicateDeliveryShownOnce()
    ensures AppendUniqueMessage(AppendUniqueMessage([], Message("Ana", "oi", "T1")), Message("Ana", "oi", "T1"))
         == [Message("Ana", "oi", "T1")]
  {
    AppendUniqueIdempotent([], Message("Ana", "oi", "T1"));
  }

  /** The first occurrence of each message of `h`, in order of first occurrence: the
      reference definition of what the history normaliser keeps before capping. */
  function Dedup(h: seq<Message>): (r: seq<Message>)
    ensures NoDuplicates(r)
    ensures forall x :: x in r <==> x in h
  {
    if h == [] then []
    else
      var d := Dedup(h[..|h| - 1]);
      var last := h[|h| - 1];
      assert forall x :: x in h <==> x in h[..|h| - 1] || x == last;
      if last in d then d else d + [last]
  }

  /** The position of the first occurrence of `x` in `h`. */
  function FirstIndex(h: seq<Message>, x: Message): (r: nat)
    requires x in h
    ensures r < |h| && h[r] == x && x !in h[..r]
  {
    if h[0] == x then 0 else 1 + FirstIndex(h[1..], x)
  }

  /** Extending a sequence does not move the first occurrence of anything already in it. */
  lemma FirstIndexOfPrefix(h: seq<Message>, n: nat, x: Message)
    requires n <= |h| && x in h[..n]
    ensures FirstIndex(h, x) == FirstIndex(h[..n], x)
  {
    var a := FirstIndex(h, x);
    var b := FirstIndex(h[..n], x);
    assert h[..n][..b] == h[..b];
  }

  /** The normalised history keeps messages in the order of their first occurrence. */
  lemma {:induction false} DedupKeepsFirstOccurrenceOrder(h: seq<Message>)
    ensures forall i, j :: 0 <= i < j < |Dedup(h)| ==>
      FirstIndex(h, Dedup(h)[i]) < FirstIndex(h, Dedup(h)[j])
  {
    if h != [] {
      var p := h[..|h| - 1];
      var last := h[|h| - 1];
      var d := Dedup(p);
      DedupKeepsFirstOccurrenceOrder(p);
      var r := Dedup(h);
      forall i, j | 0 <= i < j < |r|
        ensures FirstIndex(h, r[i]) < FirstIndex(h, r[j])
      {
        assert r[i] == d[i];
        FirstIndexOfPrefix(h, |h| - 1, r[i]);
        assert h[..|h| - 1] == p;
        if j < |d| {
          assert r[j] == d[j];
          FirstIndexOfPrefix(h, |h| - 1, r[j]);
        } else {
          assert r[j] == last && last !in p;
          assert FirstIndex(h, last) == |h| - 1;
        }
      }
    }
  }

  /** Loads fetched history: keeps the first occurrence of each message, then the last
      fifty of those. */
  method NormalizeHistory(history: seq<Message>) returns (r: seq<Message>)
    ensures r == LastN(Dedup(history), MaxMessages)
  {
    var unique: seq<Message> := [];
    var i := 0;
    while i < |history|
      invariant 0 <= i <= |history|
      invariant unique == Dedup(history[..i])
    {
      assert history[..i + 1][..i] == history[..i];
      if !AnySame(unique, history[i]) {
        unique := unique + [history[i]];
      }
      i := i + 1;
    }
    assert history[..i] == history;
    r := if |unique| > MaxMessages then unique[|unique| - MaxMessages..] else unique;
  }

  /** A normalised history satisfies the page's history invariant. */
  lemma NormalizedHistoryValid(history: seq<Message>)
    ensures NoDuplicates(LastN(Dedup(history), MaxMessages))
    ensures |LastN(Dedup(history), MaxMessages)| <= MaxMessages
  {
    LastNNoDuplicates(Dedup(history), MaxMessages);
  }

  /** `prev.includes(user) ? prev : [...prev, user]`. */
  function WithUser(users: seq<string>, user: string): (r: seq<string>)
    ensures forall u :: u in r <==> u in users || u == user
    ensures NoDuplicates(users) ==> NoDuplicates(r)
    ensures user in users ==> r == users
    ensures user !in users ==> r == users + [user]
  {
    if user in users then users
    else
      var r := users + [user];
      assert NoDuplicates(users) ==> NoDuplicates(r) by {
        if NoDuplicates(users) {
          forall i, j | 0 <= i < j < |r| ensures r[i] != r[j] {
            if j == |users| {
              assert r[i] in users;
            }
          }
        }
      }
      r
  }

  /** The invocations the page makes on the hub. */
  datatype Invocation =
    | InvokeSendMessage(user: string, text: string)
    | InvokeStartTyping(user: string)
    | InvokeStopTyping(user: string)

  /** The value `useMemo` computes for the nickname: the stored value, trimmed, or "". */
  function StoredNickname(stored: Option<string>): (r: string)
    ensures IsTrimmed(r)
    ensures stored.Some? ==> r == Trim(stored.value)
    ensures stored.None? ==> r == ""
  {
    if stored.Some? then Trim(stored.value) else ""
  }

  /** The nickname is empty (and the page sends the visitor to the login route and opens
      no connection) exactly when nothing, or only whitespace, is stored. */
  lemma StoredNicknameEmpty(stored: Option<string>)
    ensures StoredNickname(stored) == "" <==> stored.None? || IsBlank(stored.value)
  {
    if stored.Some? {
      assert StoredNickname(stored) == Trim(stored.value);
    }
  }

  class ChatPage {
    const nickname: string
    var messages: seq<Message>
    var status: ConnectionStatus
    var onlineUsers: seq<string>
    var typingUsers: seq<string>
    /** The users with a live expiry timer (the keys of `typingTimeoutsRef`). */
    var typingTimers: set<string>
    /** `typingStateRef`: whether the page last announced "typing" to the hub. */
    var typingSent: bool
    /** Whether a reconnect retry timer is pending. */
    var retryArmed: bool
    /** False once the page's effects have been cleaned up. */
    var mounted: bool
    /** The calls made on the hub, in order. */
    var invocations: seq<Invocation>

    /** The page's invariants: the history is duplicate-free and capped; the typing list
        is duplicate-free, never shows the local user, and only its members have timers;
        while mounted every listed user has a timer, so nobody stays listed forever. */
    ghost predicate Valid()
      reads this
    {
      && NoDuplicates(messages) && |messages| <= MaxMessages
      && NoDuplicates(typingUsers) && nickname !in typingUsers
      && (forall u :: u in typingTimers ==> u in typingUsers)
      && (mounted ==> forall u :: u in typingUsers ==> u in typingTimers)
    }

    /** Mounting: the nickname comes from storage and the status starts as connecting. */
    constructor (stored: Option<string>)
      ensures Valid()
      ensures nickname == StoredNickname(stored)
      ensures messages == [] && onlineUsers == [] && typingUsers == [] && typingTimers == {}
      ensures status == Connecting && !typingSent && !retryArmed && mounted
      ensures invocations == []
    {
      var nick := StoredNickname(stored);
      nickname := nick;
      messages := [];
      status := Connecting;
      onlineUsers := [];
      typingUsers := [];
      typingTimers := {};
      typingSent := false;
      retryArmed := false;
      mounted := true;
      invocations := [];
      new;
      assert nickname !in typingUsers;
      assert NoDuplicates(typingUsers) && NoDuplicates(messages);
    }

    /** The fetched history arrives: it replaces the local list unless the page has been
        cleaned up in the meantime. */
    method HistoryLoaded(data: seq<Message>)
      requires Valid()
      modifies this`messages
      ensures Valid()
      ensures messages == if mounted then LastN(Dedup(data), MaxMessages) else old(messages)
    {
      if mounted {
        messages := NormalizeHistory(data);
        NormalizedHistoryValid(data);
      }
    }

    /** `addTypingUser`: lists the user once and (re)arms their expiry timer. */
    method AddTypingUser(user: string)
      requires Valid() && user != nickname
      modifies this`typingUsers, this`typingTimers
      ensures Valid()
      ensures typingUsers == WithUser(old(typingUsers), user)
      ensures typingTimers == old(typingTimers) + {user}
    {
      typingUsers := WithUser(typingUsers, user);
      typingTimers := typingTimers + {user};
    }

    /** `removeTypingUser`: unlists the user and cancels their timer. */
    method RemoveTypingUser(user: string)
      requires Valid()
      modifies this`typingUsers, this`typingTimers
      ensures Valid()
      ensures typingUsers == Without(old(typingUsers), user)
      ensures typingTimers == old(typingTimers) - {user}
      ensures user !in typingUsers && user !in typingTimers
    {
      typingUsers := Without(typingUsers, user);
      typingTimers := typingTimers - {user};
    }

    /** A live message: appended unless already held, and its sender stops typing. */
    method ReceiveMessage(user: string, content: string, timestamp: string)
      requires Valid()
      modifies this`messages, this`typingUsers, this`typingTimers
      ensures Valid()
      ensures messages == AppendUniqueMessage(old(messages), Message(user, content, timestamp))
      ensures Message(user, content, timestamp) in messages
      ensures typingUsers == Without(old(typingUsers), user)
      ensures typingTimers == old(typingTimers) - {user}
    {
      AppendUniqueKeepsInvariant(messages, Message(user, content, timestamp));
      messages := AppendUniqueMessage(messages, Message(user, content, timestamp));
      RemoveTypingUser(user);
    }

    /** Someone started typing; the page's own user is ignored. */
    method UserStartedTyping(user: string)
      requires Valid()
      modifies this`typingUsers, this`typingTimers
      ensures Valid()
      ensures user == nickname ==> typingUsers == old(typingUsers) && typingTimers == old(typingTimers)
      ensures user != nickname ==>
        typingUsers == WithUser(old(typingUsers), user) && typingTimers == old(typingTimers) + {user}
    {
      if user != nickname {
        AddTypingUser(user);
      }
    }

    /** Someone stopped typing. */
    method UserStoppedTyping(user: string)
      requires Valid()
      modifies this`typingUsers, this`typingTimers
      ensures Valid()
      ensures typingUsers == Without(old(typingUsers), user)
      ensures typingTimers == old(typingTimers) - {user}
    {
      RemoveTypingUser(user);
    }

    /** The user's expiry timer fires: the user is unlisted and the timer forgotten.
        Without a live timer for the user nothing fires. */
    method TypingTimerFired(user: string)
      requires Valid()
      modifies this`typingUsers, this`typingTimers
      ensures Valid()
      ensures user in old(typingTimers) ==>
        typingUsers == Without(old(typingUsers), user) && typingTimers == old(typingTimers) - {user}
      ensures user !in old(typingTimers) ==>
        typingUsers == old(typingUsers) && typingTimers == old(typingTimers)
    {
      if user in typingTimers {
        typingUsers := Without(typingUsers, user);
        typingTimers := typingTimers - {user};
      }
    }

    /** A presence update; a payload without a `users` array shows nobody. */
    method UsersOnlineChanged(users: Option<seq<string>>)
      modifies this`onlineUsers
      ensures onlineUsers == users.GetOr([])
      ensures users.None? ==> onlineUsers == []
    {
      onlineUsers := users.GetOr([]);
    }

    /** The transport lost the connection and is retrying on its own. */
    method OnReconnecting()
      modifies this`status
      ensures status == ConnectionStatus.Reconnecting
    {
      status := ConnectionStatus.Reconnecting;
    }

    /** The transport reconnected: the hub has forgotten the typing announcement. */
    method OnReconnected()
      modifies this`status, this`typingSent
      ensures status == Connected && !typingSent
    {
      status := Connected;
      typingSent := false;
    }

    /** The connection closed for good: a single retry is armed, replacing any pending one. */
    method OnClose()
      modifies this`status, this`typingSent, this`retryArmed
      ensures status == Disconnected && !typingSent && retryArmed
    {
      status := Disconnected;
      typingSent := false;
      retryArmed := true;
    }

    /** A connection attempt begins. */
    method StartConnection()
      modifies this`status
      ensures status == Connecting
    {
      status := Connecting;
    }

    /** The attempt succeeded. */
    method StartSucceeded()
      modifies this`status, this`typingSent
      ensures status == Connected && !typingSent
    {
      status := Connected;
      typingSent := false;
    }

    /** The attempt failed: a retry is armed. */
    method StartFailed()
      modifies this`status, this`retryArmed
      ensures status == Disconnected && retryArmed
    {
      status := Disconnected;
      retryArmed := true;
    }

    /** The retry timer fires and starts a new attempt; without a pending retry nothing fires. */
    method RetryFired()
      modifies this`status, this`retryArmed
      ensures old(retryArmed) ==> status == Connecting && !retryArmed
      ensures !old(retryArmed) ==> status == old(status) && !retryArmed
    {
      if retryArmed {
        retryArmed := false;
        StartConnection();
      }
    }

    /** `sendTypingState`: announces a change of typing state, only while the page still
        holds its connection (it is dropped on cleanup) and that connection is connected,
        and only when the state differs from what was last announced. */
    method SendTypingState(isTyping: bool)
      modifies this`typingSent, this`invocations
      ensures mounted && status == Connected && old(typingSent) != isTyping ==>
        && typingSent == isTyping
        && invocations == old(invocations)
             + [if isTyping then InvokeStartTyping(nickname) else InvokeStopTyping(nickname)]
      ensures !(mounted && status == Connected && old(typingSent) != isTyping) ==>
        typingSent == old(typingSent) && invocations == old(invocations)
    {
      if !mounted || status != Connected || typingSent == isTyping {
        return;
      }
      typingSent := isTyping;
      invocations := invocations + [if isTyping then InvokeStartTyping(nickname) else InvokeStopTyping(nickname)];
    }

    /** `handleSendMessage`: sends only while the page holds a connected connection;
        sending ends the typing state on the hub, so the flag is cleared. */
    method HandleSendMessage(text: string)
      modifies this`typingSent, this`invocations
      ensures mounted && status == Connected ==>
        invocations == old(invocations) + [InvokeSendMessage(nickname, text)] && !typingSent
      ensures !(mounted && status == Connected) ==>
        invocations == old(invocations) && typingSent == old(typingSent)
    {
      if !mounted || status != Connected {
        return;
      }
      invocations := invocations + [InvokeSendMessage(nickname, text)];
      typingSent := false;
    }

    /** Clears the local history only. */
    method HandleClearMessages()
      requires Valid()
      modifies this`messages
      ensures Valid()
      ensures messages == []
    {
      messages := [];
    }

    /** Cleanup on unmount: every typing timer and the retry timer are cancelled. */
    method Teardown()
      requires Valid()
      modifies this`typingTimers, this`retryArmed, this`mounted
      ensures Valid()
      ensures typingTimers == {} && !retryArmed && !mounted
    {
      typingTimers := {};
      retryArmed := false;
      mounted := false;
    }
  }

  /** Once the page has been cleaned up it makes no further calls on the hub, even while
      its status still reads connected. */
  method NoCallsAfterTeardown() returns (calls: seq<Invocation>)
    ensures calls == []
  {
    var page := new ChatPage(Some("ana"));
    page.StartSucceeded();
    page.Teardown();
    page.SendTypingState(true);
    page.HandleSendMessage("oi");
    calls := page.invocations;
  }
}
