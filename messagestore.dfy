/** The server's bounded message log (`ChatMessageStore`): a FIFO queue that keeps the
    50 most recent messages in arrival order. */
module MessageStore {
  import opened Seqs

  /** Server time, as ticks; the hub passes the current time in. */
  type DateTime = int

  /** A stored chat message: sender, body and the UTC time the hub stamped on it. */
  datatype ChatMessage = ChatMessage(user: string, message: string, timestamp: DateTime)

  const MaxMessages: nat := 50

  class ChatMessageStore {
    /** The queue, oldest first. */
    var messages: seq<ChatMessage>
    /** Every message ever added, oldest first. */
    ghost var arrived: seq<ChatMessage>

    /** The queue is always the last `MaxMessages` arrivals. */
    ghost predicate Valid()
      reads this
    {
      messages == LastN(arrived, MaxMessages)
    }

    constructor ()
      ensures Valid()
      ensures messages == [] && arrived == []
    {
      messages := [];
      arrived := [];
    }

    /** Enqueues a new message built from the arguments, trims the queue back to the
        cap, and returns the message. */
    method AddMessage(user: string, message: string, timestampUtc: DateTime) returns (m: ChatMessage)
      requires Valid()
      modifies this
      ensures Valid()
      ensures m.user == user && m.message == message && m.timestamp == timestampUtc
      ensures arrived == old(arrived) + [m]
      ensures |messages| <= MaxMessages
      ensures messages != [] && messages[|messages| - 1] == m
      ensures |old(messages)| < MaxMessages ==> messages == old(messages) + [m]
    {
      m := ChatMessage(user, message, timestampUtc);
      messages := messages + [m];
      arrived := arrived + [m];
      LastNAppend(old(arrived), m, MaxMessages);
      TrimExcess();
      LastNKeepsLast(old(arrived), m, MaxMessages);
    }

    /** Dequeues from the head while the queue is over the cap. */
    method TrimExcess()
      modifies this`messages
      ensures messages == LastN(old(messages), MaxMessages)
    {
      while |messages| > MaxMessages
        invariant LastN(messages, MaxMessages) == LastN(old(messages), MaxMessages)
        decreases |messages|
      {
        messages := messages[1..];
      }
    }

    /** A copy of the queue, oldest first; the store is left as it was. */
    method GetMessages() returns (snapshot: seq<ChatMessage>)
      requires Valid()
      ensures snapshot == LastN(arrived, MaxMessages)
    {
      snapshot := messages;
    }
  }

  /** Fifty-one messages added to a fresh store leave fifty, and the first one is gone. */
  method OverflowScenario() returns (snapshot: seq<ChatMessage>)
    ensures |snapshot| == MaxMessages
    ensures ChatMessage("u", "m", 0) !in snapshot
    ensures ChatMessage("u", "m", 50) in snapshot
  {
    var store := new ChatMessageStore();
    var i := 0;
    while i < 51
      invariant 0 <= i <= 51
      invariant store.Valid()
      invariant |store.arrived| == i
      invariant forall k :: 0 <= k < i ==> store.arrived[k] == ChatMessage("u", "m", k)
    {
      var _ := store.AddMessage("u", "m", i);
      i := i + 1;
    }
    snapshot := store.GetMessages();
    assert snapshot[49] == ChatMessage("u", "m", 50);
    forall k | 0 <= k < |snapshot| ensures snapshot[k] != ChatMessage("u", "m", 0) {
      assert snapshot[k] == store.arrived[k + 1];
    }
  }
}
