# Chat Maneiro: synchronisation core in Dafny

This project models the state that keeps a small real-time chat in sync, on both sides
of the connection.

- **Server.** The hub (`ChatHub`) relies on two stores:
  - a bounded message log (`ChatMessageStore`) that keeps the fifty most recent messages;
  - a presence registry (`ConnectedUserTracker`) from connection id to display name, whose
    online view is trimmed, de-duplicated and sorted ignoring case.

  The hub sanitises names, drops blank messages and broadcasts events. A broadcast goes to
  all connections or to all but the caller.
- **Client.** The chat page (`Chat.tsx`) does the following:
  - reconciles live messages with the fetched history (de-duplicated, capped at fifty);
  - keeps the list of users who are typing, with one expiry timer each;
  - follows the connection status;
  - gates the calls it makes to the hub.

  Three smaller pieces complete the client:
  - the message input (`MessageInput.tsx`) reports real typing transitions only;
  - the typing indicator (`TypingIndicator.tsx`) picks its line of text;
  - `formatTimestamp` (`time.ts`) renders `HH:mm`.

The code is modelled in the form it has:

- **Objects whose fields change are classes.** The two stores, the hub, the chat page
  and the message input each hold their state in fields of type `seq` or `map`. Each
  method states the whole new state.
- **Loops are methods with invariants.** This covers the log's trimming loop, the
  registry's enumeration of its values, and the history normaliser's `forEach`.
- **The pure pipelines are functions with lemmas.** These are the view pipeline
  (`Where`/`Select`/`Distinct`/`OrderBy`), the message helpers, the indicator text and
  the time format.

The hub's `Clients` become an outbox of `(target, event)` pairs, and the page's hub
calls become a list of invocations. Timers and transport signals are methods that the
environment calls (`TypingTimerFired`, `RetryFired`, `OnClose`, …). Clock readings are
parameters.

Modules: `Wrappers`, `Seqs`, `Text`, `IgnoreCase` (shared helpers); `MessageStore`,
`UserTracker`, `Hub` (server); `ChatTypes`, `ChatPage`, `MessageInputComponent`,
`TypingIndicator`, `TimeFormat` (client).

## Model

| member | source | states |
|---|---|---|
| Seqs.LastN | server/Services/ChatMessageStore.cs:24-29 | The cap window: min(n, cap) elements, and they are the last ones of the input, in order |
| Seqs.LastNAppend | server/Services/ChatMessageStore.cs:14-15 | Trimming to the cap before or after an append gives the same window, so the log only needs the last 50 arrivals |
| Seqs.LastNKeepsLast | server/Services/ChatMessageStore.cs:14-15 | The message just appended is never evicted and is the last element |
| Seqs.LastNBelowCapacity | server/Services/ChatMessageStore.cs:26 | Below the cap nothing is evicted |
| Seqs.LastNNoDuplicates | web/src/routes/Chat.tsx:33-36 | A window of a duplicate-free list is duplicate-free |
| Seqs.LastNSubset | web/src/routes/Chat.tsx:47 | Every element of a window is an element of the whole list |
| Seqs.Without | web/src/routes/Chat.tsx:114 | `filter(name => name !== user)` keeps only elements of the input other than `user`, keeps every such element, and never adds a duplicate |
| Seqs.WithoutMultiset | web/src/routes/Chat.tsx:114 | The filter keeps every other element with its multiplicity and drops every copy of `user` |
| Seqs.WithoutAppend | web/src/routes/Chat.tsx:114 | Filtering distributes over concatenation, so the survivors keep their relative order |
| Seqs.WithoutEmpty | web/src/components/TypingIndicator.tsx:7-9 | Nothing survives the filter exactly when every element is the removed one |
| Seqs.WithoutHead | web/src/components/TypingIndicator.tsx:7-13 | The first element left by the filter is the first element that is not the removed one; only copies of it come before |
| Seqs.WithoutAbsent | web/src/components/TypingIndicator.tsx:7 | Filtering out an absent element changes nothing |
| Text.TrimStartCuts | server/Services/ConnectedUserTracker.cs:12 | Leading-whitespace removal keeps a suffix, cuts only whitespace and stops at the first other character |
| Text.TrimEndCuts | server/Services/ConnectedUserTracker.cs:12 | Trailing-whitespace removal keeps a prefix, cuts only whitespace and stops at the last other character |
| Text.Trim | server/Hubs/ChatHub.cs:27 | The trimmed string neither starts nor ends with whitespace, and it is empty exactly when the input is blank |
| Text.TrimOfTrimmed | server/Hubs/ChatHub.cs:26 | Trimming a trimmed string leaves it unchanged |
| Text.TrimIdempotent | web/src/components/MessageInput.tsx:75 | Trimming twice is trimming once |
| Text.SanitizeName | server/Hubs/ChatHub.cs:26 | A null or blank name becomes "Anonymous", any other name is trimmed; the result is never blank and always trimmed |
| Text.SanitizeIdempotent | server/Services/ConnectedUserTracker.cs:12 | Sanitising an already sanitised name returns it unchanged, so the hub's rule and the registry's rule compose to one |
| Text.NatToString | web/src/utils/time.ts:8-9 | `toString()` of a natural number is a non-empty run of digits without a leading zero, and has one digit exactly below 10 |
| Text.ParseNatToString | web/src/utils/time.ts:8-9 | Reading a rendered number back gives the number |
| Text.NatToStringBelow100 | web/src/utils/time.ts:8-9 | Numbers below 100 render with at most two digits |
| Text.PadStart | web/src/utils/time.ts:8-9 | `padStart(width, fill)` reaches the width, ends with the input and fills only with `fill` |
| Text.ParseDecimalLeadingZeros | web/src/utils/time.ts:8-9 | Leading zeros do not change the value of a digit string |
| Text.PadStartParses | web/src/utils/time.ts:8-9 | A zero-padded rendering of `n` still reads back as `n` |
| IgnoreCase.LexLessIrreflexive | server/Services/ConnectedUserTracker.cs:29 | The case-insensitive order is irreflexive |
| IgnoreCase.LexLessTotal | server/Services/ConnectedUserTracker.cs:29 | Any two strings are equal or ordered one way or the other |
| IgnoreCase.LexLessTransitive | server/Services/ConnectedUserTracker.cs:29 | The order is transitive |
| IgnoreCase.SortedIsDistinct | server/Services/ConnectedUserTracker.cs:28-29 | A strictly sorted list never holds two names that are equal ignoring case |
| IgnoreCase.ContainsIgnoreCaseAt | server/Services/ConnectedUserTracker.cs:28 | A list contains a name ignoring case when some entry equals it ignoring case |
| IgnoreCase.ContainsIgnoreCaseIndex | server/Services/ConnectedUserTracker.cs:28 | If a list contains a name ignoring case, some index holds an entry equal to it ignoring case |
| IgnoreCase.DistinctIgnoreCase | server/Services/ConnectedUserTracker.cs:28 | `Distinct(OrdinalIgnoreCase)` keeps only input names, no two equal ignoring case, and leaves every input name represented |
| IgnoreCase.InsertIgnoreCase | server/Services/ConnectedUserTracker.cs:29 | Inserting a new name into a sorted list keeps it sorted and adds exactly that name |
| IgnoreCase.SortIgnoreCase | server/Services/ConnectedUserTracker.cs:29 | `OrderBy(OrdinalIgnoreCase)` of distinct names is sorted ascending and a permutation of its input |
| IgnoreCase.HeadNotInRest | server/Services/ConnectedUserTracker.cs:28-29 | In a list without case-insensitive repeats, the head is not contained in any permutation of the tail |
| MessageStore.ChatMessageStore.constructor | server/Services/ChatMessageStore.cs:9 | A new store is empty and valid |
| MessageStore.ChatMessageStore.AddMessage | server/Services/ChatMessageStore.cs:11-17 | Returns a message holding the arguments and records it as the newest arrival. The queue stays the last 50 arrivals, so its length is at most 50 and the message is last. Below the cap the message is appended without eviction |
| MessageStore.ChatMessageStore.TrimExcess | server/Services/ChatMessageStore.cs:24-29 | Dequeuing from the head while over the cap leaves exactly the last 50 of the old queue |
| MessageStore.ChatMessageStore.GetMessages | server/Services/ChatMessageStore.cs:19-22 | The snapshot is the last min(n, 50) arrivals in arrival order; the store is not modified |
| MessageStore.OverflowScenario | server/Services/ChatMessageStore.cs:8-29 | After 51 appends to a fresh store, 50 entries remain, the first message is gone and the last is present |
| UserTracker.TrimmedNames | server/Services/ConnectedUserTracker.cs:25-27 | `Where(non-blank).Select(Trim)` yields only trimmed forms of non-blank stored names, and includes the trimmed form of every one |
| UserTracker.OnlineView | server/Services/ConnectedUserTracker.cs:23-31 | The pipeline's result is sorted ignoring case (so it has no case-insensitive repeats). Every entry is the trimmed form of a non-blank stored name, and every such name is represented |
| UserTracker.SortKeepsMembers | server/Services/ConnectedUserTracker.cs:29 | Sorting neither adds nor loses a name, nor a case-insensitive match |
| UserTracker.OnlineViewOfOrder | server/Services/ConnectedUserTracker.cs:23-31 | Whatever order the dictionary enumerates its ids in, the pipeline yields a valid online view of the registry |
| UserTracker.ViewEntriesStored | server/Services/ConnectedUserTracker.cs:25-27 | Every view entry is the trimmed form of the name stored for some connection |
| UserTracker.ViewCoversStored | server/Services/ConnectedUserTracker.cs:25-28 | Every connection's non-blank name is represented in the view ignoring case |
| UserTracker.OnlineViewEntries | server/Services/ConnectedUserTracker.cs:25-28 | Every entry of an online view is trimmed and non-blank, and no two entries are equal ignoring case |
| UserTracker.OneNameView | server/Services/ConnectedUserTracker.cs:28 | If every stored name is one name up to case, the view has exactly one entry, and it is one of the stored names |
| UserTracker.ConnectedUserTracker.constructor | server/Services/ConnectedUserTracker.cs:8 | A new registry is empty |
| UserTracker.ConnectedUserTracker.RegisterConnection | server/Services/ConnectedUserTracker.cs:10-15 | Upserts the sanitised name for that connection id, leaves every other entry as it was, and returns the view of the updated registry |
| UserTracker.ConnectedUserTracker.RemoveConnection | server/Services/ConnectedUserTracker.cs:17-21 | Deletes only that id (an absent id leaves the map unchanged) and returns the view of the updated registry |
| UserTracker.ConnectedUserTracker.GetOnlineUsers | server/Services/ConnectedUserTracker.cs:23-31 | Returns an online view of the current registry, for an arbitrary enumeration order |
| UserTracker.SingleNameView | server/Services/ConnectedUserTracker.cs:23-31 | A registry with one connection under a sanitised name shows exactly that name, e.g. `{c1: "bob"}` gives `["bob"]` |
| UserTracker.SecondView | server/Services/ConnectedUserTracker.cs:28 | The view of `{c1: "bob", c2: "Bob"}` has a single entry, in one of the two casings |
| UserTracker.PresenceScenario | server/Services/ConnectedUserTracker.cs:10-21 | Registering c1 as "bob" and then c2 as "Bob" gives a one-entry view; removing c1 then leaves `["Bob"]` |
| UserTracker.RegisterStep | server/Services/ConnectedUserTracker.cs:12-13 | Registering an already sanitised name stores it as given |
| Hub.QueryNameRule | server/Hubs/ChatHub.cs:47-50 | The name a connection is registered under is the sanitised query value. Without an HTTP context it is "Anonymous", even though the hub and the registry both sanitise it |
| Hub.ChatHub.constructor | server/Hubs/ChatHub.cs:13-17 | The hub holds the two stores it is given and has sent nothing |
| Hub.ChatHub.SendMessage | server/Hubs/ChatHub.cs:19-31 | A null or blank body changes neither the log nor the outbox. Otherwise exactly one message is appended: the trimmed, non-empty body, under the sanitised sender and the given time. One `ReceiveMessage` carrying exactly the stored fields then goes to all connections |
| Hub.ChatHub.StartTyping | server/Hubs/ChatHub.cs:33-37 | Sends `UserStartedTyping` with the sanitised name to everyone but the caller, and leaves both stores unchanged |
| Hub.ChatHub.StopTyping | server/Hubs/ChatHub.cs:39-43 | Sends `UserStoppedTyping` with the sanitised name to everyone but the caller, and leaves both stores unchanged |
| Hub.ChatHub.OnConnected | server/Hubs/ChatHub.cs:45-53 | Registers the connection under the sanitised query name ("Anonymous" when missing). It then sends to all connections one `UsersOnlineChanged` whose count is the length of its list and whose list is an online view of the updated registry |
| Hub.ChatHub.OnDisconnected | server/Hubs/ChatHub.cs:55-60 | Removes the connection and sends to all connections one `UsersOnlineChanged` with the remaining view and its length |
| Hub.ChatHub.GetHistory | server/Program.cs:24-27 | The history is the log's last min(n, 50) arrivals |
| ChatPage.IsSameMessage | web/src/routes/Chat.tsx:24-25 | Two messages are the same exactly when timestamp, user and text are all equal |
| ChatPage.AnySame | web/src/routes/Chat.tsx:28 | `some(isSameMessage)` holds exactly when an equal message is present |
| ChatPage.AppendUniqueMessage | web/src/routes/Chat.tsx:27-37 | A message already present leaves the list unchanged. Otherwise the result is the last 50 of `current ++ [incoming]`: its length is min(n + 1, 50) and it ends with the new message |
| ChatPage.AppendUniqueIdempotent | web/src/routes/Chat.tsx:27-37 | Appending the same message twice is appending it once |
| ChatPage.AppendUniqueKeepsInvariant | web/src/routes/Chat.tsx:27-37 | Appending keeps the list duplicate-free and at most 50 long |
| ChatPage.DuplicateDeliveryShownOnce | web/src/routes/Chat.tsx:28-30 | The message Ana/"oi"/T1 received twice is held once |
| ChatPage.Dedup | web/src/routes/Chat.tsx:40-45 | Reference definition: the first occurrence of each message, duplicate-free, holding exactly the messages of the input |
| ChatPage.FirstIndex | web/src/routes/Chat.tsx:42 | Locates the first occurrence of a message: nothing before it is equal |
| ChatPage.FirstIndexOfPrefix | web/src/routes/Chat.tsx:41-44 | Extending the input does not move the first occurrence of a message already seen |
| ChatPage.DedupKeepsFirstOccurrenceOrder | web/src/routes/Chat.tsx:39-48 | The de-duplicated history lists messages in the order of their first occurrence in the input |
| ChatPage.NormalizeHistory | web/src/routes/Chat.tsx:39-48 | The `forEach` loop keeps the first occurrences in input order, then the last 50 of them |
| ChatPage.NormalizedHistoryValid | web/src/routes/Chat.tsx:47 | A normalised history is duplicate-free and at most 50 long |
| ChatPage.WithUser | web/src/routes/Chat.tsx:109 | `includes(user) ? prev : [...prev, user]`: a listed user leaves the list unchanged, a new one is appended at the end; never a duplicate |
| ChatPage.StoredNickname | web/src/routes/Chat.tsx:52 | The nickname is the stored value trimmed, or empty when nothing is stored; it is always trimmed |
| ChatPage.StoredNicknameEmpty | web/src/routes/Chat.tsx:52 | The nickname is empty exactly when nothing, or only whitespace, is stored |
| ChatPage.ChatPage.constructor | web/src/routes/Chat.tsx:52-60 | The page starts with an empty history, no online or typing users and no timers. Its status is connecting and nothing has been announced |
| ChatPage.ChatPage.HistoryLoaded | web/src/routes/Chat.tsx:77-80 | Fetched history replaces the list with its normalised form, unless the page was cleaned up; the page invariant is kept |
| ChatPage.ChatPage.AddTypingUser | web/src/routes/Chat.tsx:108-117 | Adding a user never creates a duplicate and (re)arms that user's timer |
| ChatPage.ChatPage.RemoveTypingUser | web/src/routes/Chat.tsx:119-125 | Removes that user and their timer entry, and nothing else |
| ChatPage.ChatPage.ReceiveMessage | web/src/routes/Chat.tsx:127-130 | A live message is added unless already held, so afterwards it is held, and its sender leaves the typing list together with their timer |
| ChatPage.ChatPage.UserStartedTyping | web/src/routes/Chat.tsx:132-136 | A start event for the local nickname is ignored; any other user is added with a timer |
| ChatPage.ChatPage.UserStoppedTyping | web/src/routes/Chat.tsx:138-140 | A stop event removes that user and their timer entry |
| ChatPage.ChatPage.TypingTimerFired | web/src/routes/Chat.tsx:113-116 | An expiring timer removes its user and its own entry; without a live timer nothing happens |
| ChatPage.ChatPage.UsersOnlineChanged | web/src/routes/Chat.tsx:142-145 | The online list is the payload's users, or empty when the payload has no list |
| ChatPage.ChatPage.OnReconnecting | web/src/routes/Chat.tsx:147-149 | Status becomes reconnecting |
| ChatPage.ChatPage.OnReconnected | web/src/routes/Chat.tsx:151-154 | Status becomes connected and the typing flag is reset |
| ChatPage.ChatPage.OnClose | web/src/routes/Chat.tsx:156-165 | Status becomes disconnected, the typing flag is reset and a single retry is armed |
| ChatPage.ChatPage.StartConnection | web/src/routes/Chat.tsx:168 | A connection attempt sets the status to connecting |
| ChatPage.ChatPage.StartSucceeded | web/src/routes/Chat.tsx:170-172 | A successful start sets the status to connected and resets the typing flag |
| ChatPage.ChatPage.StartFailed | web/src/routes/Chat.tsx:173-178 | A failed start sets the status to disconnected and arms a retry |
| ChatPage.ChatPage.RetryFired | web/src/routes/Chat.tsx:162-164 | A pending retry starts a new attempt and is consumed |
| ChatPage.ChatPage.SendTypingState | web/src/routes/Chat.tsx:198-211 | Invokes `StartTyping`/`StopTyping` with the nickname only while the page still holds its connection (not after cleanup), the status is connected and the value differs from the flag, then sets the flag; otherwise nothing changes |
| ChatPage.ChatPage.HandleSendMessage | web/src/routes/Chat.tsx:213-224 | Invokes `SendMessage` with the nickname and text only while the page still holds its connection (not after cleanup) and the status is connected, then clears the flag; otherwise nothing changes |
| ChatPage.ChatPage.HandleClearMessages | web/src/routes/Chat.tsx:226-228 | Empties the local history only |
| ChatPage.ChatPage.Teardown | web/src/routes/Chat.tsx:184-195 | Cleanup cancels every typing timer and the retry timer |
| ChatPage.NoCallsAfterTeardown | web/src/routes/Chat.tsx:184-224 | After cleanup, with the status still connected, neither a typing change nor a send reaches the hub |
| MessageInputComponent.DisabledInputDisablesSend | web/src/components/MessageInput.tsx:106-134 | A disabled text area (status not connected) always has a disabled send button; while the area is enabled, the button is disabled exactly for blank text |
| MessageInputComponent.SendDisabled | web/src/components/MessageInput.tsx:134 | The send button is disabled exactly when not connected or when the text is blank |
| MessageInputComponent.AlternatingAppend | web/src/components/MessageInput.tsx:56-64 | Announcing the opposite of the last notification keeps the notifications alternating |
| MessageInputComponent.MessageInput.constructor | web/src/components/MessageInput.tsx:13-15 | The input starts empty, not typing, with no timer |
| MessageInputComponent.MessageInput.ResetTypingTimeout | web/src/components/MessageInput.tsx:26-37 | Re-arms the single inactivity timer |
| MessageInputComponent.MessageInput.HandleTypingChange | web/src/components/MessageInput.tsx:53-72 | Afterwards the typing state is "the text is not blank". A notification is made exactly when the state changes, and carries the new state. The timer is re-armed for non-blank text and cancelled for blank text. The notifications stay alternating, starting with `true` |
| MessageInputComponent.MessageInput.Change | web/src/components/MessageInput.tsx:116-120 | The text becomes the new value, with the typing rules above, and the input invariant holds |
| MessageInputComponent.MessageInput.Focus | web/src/components/MessageInput.tsx:121-125 | Focus with non-blank text turns typing on (announcing it if it was off) and re-arms the timer, which sees the typing state from before the focus; blank text changes nothing |
| MessageInputComponent.MessageInput.TypingTimeoutFired | web/src/components/MessageInput.tsx:31-36 | The inactivity timer ends the typing state, announcing `false` only if typing was on; with no timer pending nothing changes and no timer is pending afterwards |
| MessageInputComponent.MessageInput.TypingTimeoutFiredAsWritten | web/src/components/MessageInput.tsx:31-36 | As written: the timer announces `false` only if the render that armed it saw typing on, and otherwise leaves typing as it was; either way no timer is pending afterwards |
| MessageInputComponent.MessageInput.Submit | web/src/components/MessageInput.tsx:74-92 | Blank text does nothing. Otherwise the trimmed text is sent and the value cleared. `false` is announced if typing was on, and the timer is cancelled |
| MessageInputComponent.MessageInput.Unmount | web/src/components/MessageInput.tsx:18-24 | Unmounting cancels the pending timer |
| MessageInputComponent.IdleThenTypeAgain | web/src/components/MessageInput.tsx:53-72 | Keystroke, timeout, keystroke: the notifications are start, stop, start |
| MessageInputComponent.IdleThenTypeAgainAsWritten | web/src/components/MessageInput.tsx:31-36 | As written, the same events produce only one start and leave typing on |
| TypingIndicator.TypingMessage | web/src/components/TypingIndicator.tsx:6-18 | Nothing is shown exactly when every listed user is the viewer |
| TypingIndicator.TypingMessageNames | web/src/components/TypingIndicator.tsx:13-17 | The text names the first listed user who is not the viewer, never the viewer. With one other user it is "<name> esta digitando...", otherwise "<name> e mais <k> pessoa(s) estao digitando..." with k the other users minus one |
| TypingIndicator.IndicatorWithoutViewer | web/src/components/TypingIndicator.tsx:7-17 | When the viewer is not listed, as on the chat page, the text names the first listed user and counts the rest |
| TypingIndicator.TypingMessageOneOther | web/src/components/TypingIndicator.tsx:15-16 | `["Ana"]` seen by Bia gives "Ana esta digitando..." |
| TypingIndicator.TypingMessageTwoOthers | web/src/components/TypingIndicator.tsx:17 | `["Bia", "Ana", "Caio"]` seen by Bia gives "Ana e mais 1 pessoa(s) estao digitando..." |
| TypingIndicator.SkipViewer | web/src/components/TypingIndicator.tsx:7 | The others-filter drops the viewer's entry and keeps the rest in order |
| TimeFormat.TwoDigits | web/src/utils/time.ts:8-9 | A number padded to at least two digits is all digits, and has exactly two digits below 100 |
| TimeFormat.TwoDigitsParses | web/src/utils/time.ts:8-9 | The padded rendering reads back as the number |
| TimeFormat.TwoDigitsOfDigit | web/src/utils/time.ts:8-9 | A one-digit number is padded with a single '0' |
| TimeFormat.TwoDigitsOfPair | web/src/utils/time.ts:8-9 | A two-digit number is rendered as its two digits, without padding |
| TimeFormat.FormatTimestamp | web/src/utils/time.ts:1-12 | Fails with "Invalid date value provided" exactly for an invalid date |
| TimeFormat.FormatShape | web/src/utils/time.ts:8-11 | For a clock time the label is 5 characters with ':' at index 2, and both halves read back as the hours and minutes |
| TimeFormat.FormatMorning | web/src/utils/time.test.ts:5-7 | 9:05 is labelled "09:05" |
| TimeFormat.FormatAfternoon | web/src/utils/time.test.ts:10-11 | 14:45 is labelled "14:45" |

## Left out

- Concurrency is not modelled. `ConcurrentQueue` and `ConcurrentDictionary` are treated as single-threaded stores, and every handler runs to completion before the next event.
- Awaits are atomic. In `handleSendMessage` the flag is cleared after the `await`, and in `submitMessage` the input is cleared after `onSend`. Events that arrive in between are not modelled.
- Transport internals are not modelled: `connection.start`/`stop`/`invoke`, the library's own automatic-reconnect delays (`withAutomaticReconnect`), and the `fetch` of `/api/history`. Transport signals are methods, and outbound calls are appended to the page's `invocations` list.
- A failed `invoke` is not modelled.
- Clocks are parameters: `DateTime.UtcNow` becomes the `timestampUtc` parameter, an integer tick count. Timers are methods that the environment calls. Their delays (2 s for the input, 3 s for typing expiry and for retries) are not modelled.
- `ChatPage.ChatPage.SendTypingState` and `ChatPage.ChatPage.HandleSendMessage`: the gate reads the page's status field and the `mounted` flag rather than the connection object. The status handlers set the status together with the connection's state, and cleanup, which drops the connection reference, clears `mounted`.
- `ChatPage.ChatPage.StartFailed`: a start that fails while a retry is already pending arms a second timer in the source, overwriting the first handle. The model keeps a single pending-retry flag.
- The history fetch's failure path is not modelled: a failed fetch only logs.
- Whitespace is a fixed ASCII set: space and tab through carriage return. .NET's and JavaScript's Unicode whitespace classes are not modelled.
- Case-insensitive comparison upper-cases ASCII letters only. `OrdinalIgnoreCase`'s full Unicode case mapping is not modelled.
- The dictionary's enumeration order is left arbitrary (`GetOnlineUsers` picks ids with `:|`). The view's contract therefore says only that each entry is some stored name; which casing wins is not fixed.
- `formatTimestamp`'s `Date` parsing and local time-zone conversion are not modelled. The input is the local (hours, minutes) of a valid date, or none for an invalid one.
- The textarea auto-height, rendering, the login route, `localStorage` writes and navigation are left out, as are the `Server.Models.ChatMessage` record file, `Program.cs` wiring and CORS. `Server.Models` is not part of this model; its record is the `MessageStore.ChatMessage` datatype here.
- The hub's `GetHistory` stands for the HTTP history endpoint (`/api/history`).
- The empty-nickname path of the chat page is not modelled: with an empty nickname the page navigates to the login route and neither fetches the history nor opens a connection. The model's events are those of a page with a nickname.
- `ChatPage.ChatPage.Teardown`: the cleanup also calls `connection.stop()`, which runs the `onclose` handler and arms a retry after unmount. The model keeps the two separate events, so `Teardown` followed by `OnClose` ends with a retry armed on an unmounted page; nothing stops that retry.
- `MessageInputComponent.MessageInput.TypingTimeoutFired` reads the typing state as it is when the timer fires. The source reads the state its render saw, which `TypingTimeoutFiredAsWritten` models (see Findings).

## Findings

| source | as written | input that shows it | evidently intended | confidence | as-written member | corrected member |
|---|---|---|---|---|---|---|
| web/src/components/MessageInput.tsx:31-36 | The inactivity timer's callback tests the `isTyping` value its render saw. The keystroke that turns typing on arms a timer that saw "not typing", so that timer never announces "stopped" and typing stays on. | Type "a", stay idle past the timeout, then type "b": only one `true` notification is made, no `false`, and no new `true` for the second burst | Inactivity ends the typing state and announces `false`, so the next keystroke announces `true` again | high (not executed) | MessageInputComponent.IdleThenTypeAgainAsWritten | MessageInputComponent.IdleThenTypeAgain |
