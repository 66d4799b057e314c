# Verified models of openstar-ads

These Dafny modules model the parts of openstar-ads, an asynchronous client for Beckhoff's ADS/AMS
protocol, whose correctness is hard to see from the code: the request and teardown protocol, the
framing of the byte stream, notifications, the type inventory and the two decoders of symbol data.
`dafny verify dfyconfig.toml` checks everything.

## Layout

| files | what they model |
|---|---|
| `Outcome`, `Bytes`, `Strings`, `IndexMaps`, `Formats` | results (success, error, panic), little-endian integers and cursors, split and join, insertion-ordered maps, byte formats with their round trips |
| `Pending`, `Subscriptions`, `Shared`, `Protocol`, `Liveness` | the maps a client shares with its reader task, as a transition system with one shared access a step, and as whole methods; what every run keeps, and that teardowns finish |
| `Frames`, `Exchange`, `Fanout`, `FrameBytes` | the reader's framing, requests and replies, the bounded queues of subscribers, and where on the wire everything of a frame is |
| `Notification` | the validator of notification messages and the unchecked iterator |
| `TypeInfo`, `TypeSections`, `RpcMethods`, `TypeEntries`, `TypeInventory`, `TypeReader` | the type inventory: its layout, the bulk decoder, the decoder by name, and both as imperative code |
| `EntryMembers`, `EntryBytes` | what is read from an entry, member by member and byte by byte |
| `ShortLayouts`, `ShortEntries`, `TypeReplies` | entries that are cut short, and the reply to a query by name |
| `PayloadBytes` | what a payload's bytes are read as, by the number of the base type |
| `TypeTree`, `SymbolTree`, `SymbolMap`, `Flattening`, `Meaning`, `LeafKeys` | type trees, the recursive decoder, the flattened decoder, that they are the same reading, and the keys of trees with any names |
| `NetId`, `Session` | the text form of addresses, and the session with its cache of symbol handles |

Code that works step by step is modelled as methods over classes, arrays and cursors; each is proved
equal to a specification function, and the results about the repository are lemmas about those
functions. A failed slice, `expect`, `assert_eq!` or arithmetic overflow check is the outcome `Panic`,
so that every operation is total and "does not panic" is a theorem and not an assumption.

## Main results

* **No request is lost.** Registrations, the reader, guard drops, timeouts and any number of teardown
  attempts interleave at the granularity of lock, test of `closed`, insert, unlock, set `closed`, drain,
  fail one, clear. In every run each sender is in exactly one place, the maps stay empty after the first
  teardown, `closed` keeps its first reason, and under any schedule that is fair to lock holders and to the
  teardown, the teardown finishes.
* **Replies are isolated under wrap-around**, exactly as long as fewer than 2^32 requests are made during
  the life of one, and from a request to its late reply.
* **The reader stays in step** on every stream of well-formed frames. Every run of it is a run of acceptable
  frames, and the ways it can lose the frame boundaries or panic are characterised exactly.
* **The validator justifies the unchecked iterator**, and accepted bodies and stamp lists are in bijection.
* **The type inventory's layout is inverted exactly**: what is laid out is read back, whatever is accepted is
  a layout, and the bulk decoder refines the decoder by name, with the exact condition for the converse. For an
  entry cut at any byte it is known whether it is read, rejected or panics.
* **Every value comes from its bytes.** For headers, requests, samples, entries of the inventory and payloads of every
  base type it is stated, by absolute positions and by the protocol's own numbers, what is read and written where.
* **Flattening preserves meaning**: for every tree from a well-formed inventory and every payload that covers
  it, the flattened map and the recursive tree are the same reading, path by path, and neither reads out of range.

## Where the code does less than one may expect

Each of these comes with the exact condition under which it happens and with an input for which it does.

* A router note is skipped before its two length fields are compared; when they disagree the reader leaves the
  frame boundaries (`Frames.InStepIff`, `Frames.NoteLeavesStep`).
* A notification frame for us with fewer than four payload bytes panics in the reader, and a reply with fewer in
  its caller (`Frames.RoundPanicsIff`, `Frames.EmptyNotificationPanics`; `Exchange.CheckReplyIff`,
  `Exchange.BareReplyPanics`).
* A reply 2^32 or more requests later reaches whichever live request has taken over its invoke ID
  (`Pending.ReplyIsolation`, `Protocol.LateReplyReachesAnother`).
* `lower + total - 1` overflows for an array whose upper bound is the largest 32-bit number, although the
  bound itself can be represented (`TypeEntries.BoundsAreReadIff`). Builds without overflow checks wrap and get it right.
* A reply to a query by name panics when it announces fewer than four bytes, when the bytes it covers end inside
  a field or a method, as they can for a type that does not fit the 4096-byte buffer, and when the device reports
  more bytes than the buffer has (`TypeReplies.ReplyPanicsIff`, `TypeReplies.ReportedReply`;
  `TypeReplies.ShortReplyPanics`, `TypeReplies.CutReplyPanics`).
* That every field's declared size fits its struct does not bound the reads, because the width of a number
  comes from its base type and the size of a nested struct from its own type; the condition needed is on
  those (`TypeTrees.BuildInBounds`, `TypeTrees.InBoundsNeedsFits`, `TypeTrees.DeclaredSizesAreNotEnough`).
* A struct with the eight names of a time structure but a field that is not a placed UINT is missing from the
  flattened map altogether, and no other leaf is (`Meaning.BadTimeVanishes`, `Meaning.KeyIffReached`,
  `Meaning.BytesAsTimeVanish`).
* A comment in the tree decoder promises that a wide text with too few bytes is malformed; the slice in front of
  that check panics first (`PayloadBytes.ShortSizedRead`). So does the flattened decoder's, for a word of a time structure
  behind the payload's end, while one that starts inside it is malformed (`PayloadBytes.ShortTimeRead`).
* The key of a leaf leads back to it in the tree only if no name on its path has a dot
  (`LeafKeys.KeyLeadsBackIff`, `LeafKeys.DotsHideLeaves`); a root that is itself a leaf has the empty key, which
  `get_child` never finds (`Meaning.RootIsNotFound`). Leaves whose keys coincide share one entry
  (`LeafKeys.KeysHoldLastLeaf`, `LeafKeys.EntryPerLeafIff`).
* The handle cache goes stale exactly when a session is opened over a cache that is not empty, or a handle of
  another session is cached while one is open (`Sessions.RunAgreesIff`). Three interleavings do that: a loss
  between the two tests of the connection in `Ads::connect`, a handle cached after a reconnection, and one cached
  while `Ads::connect` is opening the session (`Sessions.LossInsideConnect`, `Sessions.LateInsert`,
  `Sessions.InsertInsideConnect`).
* The documentation of `AmsNetId` asks for six bytes in the form `1.2.3.4.5.6`; the parser also takes plus
  signs and leading zeros (`NetIds.NetIdWrittenAsReadIff`, `NetIds.OddNetIdsAreAccepted`).

## Model

| member | source | states |
|---|---|---|
| `Protocol.NoRequestIsLost` | src/core/client.rs:735-804 | After any interleaving of any number of requests, subscriptions, teardown attempts, guard drops and reader steps, every registered sender is in exactly one place: pending map, reader's hand, teardown's hand, completed or dropped; an error it got is the closing reason, a reply it got bears its own invoke ID |
| `Protocol.ClosedForGood` | src/core/client.rs:763-788 | In every interleaving `closed` is set once and never changes; from the first teardown's drain on the pending map is empty for good, and from its end on so is the subscriber map, although `closed` is set outside both locks |
| `Protocol.NobodyWaitsInVain` | src/core/client.rs:776-782 | Once the first teardown is past its failing loop, a request that still waits has its message already, is in the reader's hand, or lost its sender to a drop |
| `Protocol.OneWay` | src/core/client.rs:763-773 | Along every run the teardown only advances, and `closed`, once set, keeps its first reason |
| `Protocol.Reachable` | src/core/client.rs:735-804 | The invariant (locks held by exactly whoever is inside, senders filed under their own ID, one place per sender, one reason, drained and cleared maps shut) holds in every reachable state |
| `Protocol.RepliesAreIsolated` | src/core/client.rs:936-951 | While every request whose guard lives is younger than 2^32 allocations, a sender is dropped only by its own guard, no waiter finds its channel closed, and a reply to request k, however late, is matched to k's sender if and only if fewer than 2^32 requests were made since |
| `Protocol.TimeoutRule` | src/core/client.rs:503-526 | In every run the counter is the number of timeouts since the last reply that a request took out of its channel (modulo 2^32), counted from the actions of the run alone, and a request that times out attempts a teardown exactly when that makes it three or more |
| `Protocol.EndOfWait` | src/core/client.rs:485-537 | For every way a wait can end: a reply resets the counter and an error in its place does not, a timeout counts, a failed write attempts a teardown whatever the counter says, a cancelled wait or a lost sender does neither |
| `Protocol.OnlyWaitsCount` | src/core/client.rs:503-526 | No other step touches the counter; only these and explicit attempts begin a teardown |
| `Liveness.TeardownFinishes` | src/core/client.rs:762-788 | In every endless execution that is fair to lock holders and to the teardown, and whatever else interleaves, a teardown that has begun finishes, and from then on both maps are empty |
| `Liveness.GoalReached` | src/core/client.rs:762-788 | Under such a schedule everything is reached for which every step either makes progress or leaves the awaited step possible; used for the release of each lock and the end of the failing loop |
| `Protocol.LateReplyReachesAnother` | src/core/client.rs:936-951 | A feasible run in which live requests stay young, the first request times out, and its reply, exactly 2^32 requests later, is matched to the later request that waits under the same ID |
| `Protocol.NextStep` | src/core/client.rs:762-788 | While the first teardown is unfinished some step of its own, or of the holder of the lock it waits for, is enabled and reduces the work left: no deadlock |
| `Protocol.TeardownCanFinish` | src/core/client.rs:762-788 | From every reachable state with a teardown under way, the teardown can be finished by its own steps and those of the current lock holders alone |
| `Protocol.UninterruptedRegister` | src/core/client.rs:735-747 | The single steps of a registration, uninterrupted, end in the state that the whole method `SharedState.Shared.Register` ends in |
| `Protocol.UninterruptedSubscribe` | src/core/client.rs:750-760 | The same for a subscription and `SharedState.Shared.Subscribe` |
| `Protocol.UninterruptedAnswer` | src/core/client.rs:936-951 | The reply to a waiting request, uninterrupted, is handed to that request under its own ID, resets the counter and leaves nothing of the request in the map |
| `Protocol.UninterruptedTearDown` | src/core/client.rs:762-788 | The single steps of a teardown, uninterrupted and with any order of failing senders, end in the state that `SharedState.Shared.TearDown` ends in |
| `Pending.Step` | src/core/client.rs:735-804 | Every single step on the pending map keeps: lock discipline, filing under the own ID, answers only to the ID's own request, and one place per sender |
| `Pending.ShutStep` | src/core/client.rs:737-741 | An empty map with nobody past the test of `closed` stays so under every step, as long as later tests see `closed` |
| `Pending.DrainShuts` | src/core/client.rs:776-779 | The drain takes the lock, so whoever had passed the test has already inserted, and is drained too |
| `Pending.OwnStep` | src/core/client.rs:797-804 | While live requests are young, no insertion displaces and no guard drop removes another request's sender |
| `Pending.ReplyIsolation` | src/core/client.rs:936-951 | A sender found under the wrapped ID of request k is k's own if and only if fewer than 2^32 requests were made since k |
| `Subscriptions.LockStep` | src/core/client.rs:750-760 | Every step keeps the subscriber lock held by exactly the subscription inside its registration |
| `SharedState.Shared.Register` | src/core/client.rs:735-747 | Fails and changes nothing when closed; otherwise files the sender under the invoke ID and changes nothing else |
| `SharedState.Shared.Subscribe` | src/core/client.rs:750-760 | Fails and changes nothing when closed; otherwise stores the sender under the handle and changes nothing else |
| `SharedState.Shared.RemovePending` | src/core/client.rs:797-804 | Hands out the sender filed under the ID, if any, and removes exactly that entry |
| `SharedState.Shared.TearDown` | src/core/client.rs:762-788 | The first call sets the reason, fails exactly the pending senders with it and empties both maps; a later call changes nothing |
| `Frames.ReceiveFrames` | src/core/client.rs:864-932 | On any run of acceptable frames (short, router note, foreign, own), in particular of well-formed ones, followed by any bytes, the reader consumes exactly the frames, hands on exactly what the own ones mean, in order, and has done so before whatever the following bytes do |
| `Frames.InStepIff` | src/core/client.rs:871-915 | A round that goes on consumes 6 + packet_len bytes if and only if it is not a router note whose data length disagrees with its packet length: such notes are skipped before the lengths are compared |
| `Frames.RunIsFrames` | src/core/client.rs:864-932 | Conversely, every run is a run of acceptable frames up to the first bytes that start none, what was handed on is what they mean, and it stayed on the boundaries given by the packet lengths if and only if all of them are well formed |
| `Frames.FrameOfRound` | src/core/client.rs:864-932 | A single round that goes on has read one acceptable frame and handed on its meaning; it stayed in step if and only if that frame is well formed |
| `Frames.ReadOneFrame` | src/core/client.rs:864-932 | One round takes exactly one acceptable frame off the stream and hands on its meaning |
| `Frames.NoteLeavesStep` | src/core/client.rs:906-915 | A router note of one data byte that announces a packet of 32 is taken as 39 bytes instead of 38 |
| `Frames.RoundPanicsIff` | src/core/client.rs:952-953 | A round panics if and only if the stream starts with an own notification frame of fewer than four payload bytes |
| `Frames.ReceivePanicsIff` | src/core/client.rs:864-953 | The reader panics on a stream if and only if such a frame stands in it behind acceptable frames only |
| `Frames.EmptyNotificationPanics` | src/core/client.rs:952-953 | A notification frame for us without payload panics |
| `Frames.NotificationArrives` | src/core/client.rs:952-969 | Stamps laid out as a notification frame addressed to us come off the stream as one validated notification carrying exactly those stamps |
| `Frames.ReadPutAmsHeader` | src/core/protocol.rs:9-13 | The 32 header bytes written from a header are read back as that header |
| `Frames.PutReadAmsHeader` | src/core/client.rs:887-896 | A header that was read writes back to the bytes it was read from |
| `Frames.HeaderSize` | src/core/protocol.rs:11-13 | A written header takes 38 bytes in front of its payload |
| `FrameBytes.HeaderBytes` | src/core/client.rs:887-896 | The header read from a stream has each field from its absolute byte position |
| `FrameBytes.WrittenHeader` | src/core/client.rs:458-476 | A written header has each field at the same position |
| `FrameBytes.RoundByBytes` | src/core/client.rs:864-969 | One round of the reader decided by byte positions and protocol numbers alone: which frames are skipped, rejected, handed on as reply or notification, or panic |
| `FrameBytes.ShortRoundByBytes` | src/core/client.rs:871-879 | A packet of fewer than 32 bytes is skipped whole, whatever it holds |
| `FrameBytes.RequestBytes` | src/core/client.rs:450-480 | Every byte of a request: length 32 more than its payload, target and source, the number of the command, flags 4, no error, invoke ID, payload; too long exactly when the length does not fit 32 bits |
| `Frames.ReadRound` | src/core/client.rs:864-969 | The piecewise reads of one round do what the reference round says: same events, same bytes left, same errors and panics |
| `Frames.Judge` | src/core/client.rs:952-969 | The notification branch accepts a frame exactly when flags, error, length and body are right, and panics below four payload bytes |
| `Frames.ReaderWork` | src/core/client.rs:858-1003 | The reader's loop hands on what the reference reading of the whole stream says, and ends as it says |
| `Exchange.Client.BuildRequest` | src/core/client.rs:450-480 | Uses up one invoke ID, wrapping at 2^32, even when the request is too long, and builds the frame of header and gathered payload |
| `Exchange.Client.TakeReply` | src/core/client.rs:539-622 | Makes all checks in their order and reports each failure with its own value, in particular the code of the header or else of the result field; a good reply's data is laid over the result buffers in place, anything else leaves every buffer untouched |
| `Exchange.HandOut` | src/core/client.rs:606-619 | The scatter loop leaves the buffers as the specification of handing out says |
| `Exchange.CopyFront` | src/core/client.rs:611-613 | Overwrites the front of a buffer and keeps the rest |
| `Exchange.ScatterIsOverwrite` | src/core/client.rs:606-619 | Seen as one long buffer, the result buffers start with the reply data as far as they reach and keep every later byte |
| `Exchange.ScatterAt` | src/core/client.rs:606-619 | Buffer k gets the consecutive piece of the data that starts where the buffers before it end |
| `Exchange.CheckReplyIff` | src/core/client.rs:539-600 | A reply is accepted if and only if it comes from the target, echoes command and invoke ID, has flags 5 and no errors, and holds enough data for the first buffer; then the caller gets all data behind the result field; it panics if and only if every check before the result field passes and fewer than four payload bytes are there |
| `Exchange.VerdictIff` | src/core/client.rs:539-600 | For each verdict a caller can get (six rejections with their values, success, panic): exactly which headers and payloads give it |
| `Exchange.BareReplyPanics` | src/core/client.rs:582-582 | An answer without payload panics |
| `Exchange.RequestArrives` | src/core/client.rs:453-480 | A built request comes off the peer's stream as one message with header and payload intact |
| `Exchange.AnsweredRequest` | src/core/client.rs:453-622 | The answer of a peer that swaps the addresses, echoes command and ID and sets flags 4|1 comes off the stream under the request's ID, passes every check and yields the peer's data; with less than the first buffer it is too short |
| `Exchange.NotificationCommandIsUnanswerable` | src/core/client.rs:936-954 | A request with the notification command, and only such a one, can never be answered: its answers are not taken for replies |
| `Fanout.OthersDoNotInterfere` | src/core/client.rs:952-987 | What becomes of a subscriber's queue over any run depends only on the samples routed to it and on its own receiver, not on how other subscribers drain |
| `Fanout.AcceptedInOrder` | src/core/client.rs:970-987 | What a queue accepts is what it was offered, in order, with some samples left out |
| `Fanout.LostOnlyWhenFull` | src/core/client.rs:976-985 | Nothing offered is lost if and only if the queue is open and below 32 entries at every offer |
| `Fanout.ClosedForGood` | src/core/client.rs:971-986 | When its receiver is gone a queue accepts nothing any more, whatever else happens |
| `Fanout.FirstThirtyTwo` | src/core/client.rs:653-653 | A queue whose receiver takes nothing keeps the first 32 payloads it is offered and no more |
| `Fanout.OrphansIff` | src/core/client.rs:966-986 | A handle is reported as without subscriber if and only if a sample bears it and its route leads to a channel whose receiver is gone |
| `Fanout.NothingIsInventedOrReordered` | src/core/client.rs:653-656 | Initially queued plus accepted payloads are exactly those taken plus those still queued, in that order |
| `Fanout.Run` | src/core/client.rs:653-653 | Over any run no queue ever exceeds 32 entries and every route leads to a queue |
| `Fanout.Subscribers.Add` | src/core/client.rs:653-656 | A new queue takes over the handle |
| `Fanout.Subscribers.Remove` | src/core/client.rs:669-672 | Ends the routing of the handle and nothing else |
| `Fanout.Subscribers.FanOut` | src/core/client.rs:966-1000 | Delivers every sample in order without waiting, and reports exactly the handles whose receivers are gone |
| `Fanout.Subscribers.Deliver` | src/core/client.rs:971-985 | One sample is skipped, queued, dropped because the queue is full, or reported without a receiver |
| `Notifications.ParseEncodedStamps` | src/core/notification.rs:90-116 | Reading back an encoded list of stamps gives the list and stops at its end |
| `Notifications.EncodeParsedStamps` | src/core/notification.rs:90-116 | Writing out what was read gives the bytes that were read |
| `Notifications.AcceptedIffEncoded` | src/core/notification.rs:80-117 | A message is accepted with given stamps if and only if its body is the encoding of these stamps and it announces their number |
| `Notifications.AcceptedCountsAreBounded` | src/core/notification.rs:92-116 | For every accepted message 12 bytes a stamp, 8 a sample and the data add up to exactly the bytes after offset 46 |
| `Notifications.NewNotification` | src/core/notification.rs:80-117 | The validating pass accepts exactly what the reference reading accepts and keeps the bytes |
| `Notifications.SkipSampleBlock` | src/core/notification.rs:96-107 | The inner loop steps over exactly the announced samples |
| `Notifications.SampleIter.constructor` | src/core/notification.rs:120-127 | For a validated message the iterator starts out owing exactly its samples, each with its own stamp's timestamp |
| `Notifications.SampleIter.Next` | src/core/notification.rs:152-175 | For a validated message no read or split can fail; one owed sample is returned at a time, the measure (stamps, samples) falls, and the iterator ends exactly when every byte is consumed |
| `Notifications.CollectSamples` | src/core/notification.rs:120-175 | Iterating to the end yields exactly the samples of the reference reading, in order |
| `FrameBytes.SampleBytes` | src/core/notification.rs:80-117 | Every sample of an accepted message by absolute byte positions: time and number of samples of its stamp, its handle, length and data |
| `FrameBytes.SampleInOrder` | src/core/notification.rs:149-175 | Iteration gives, behind the samples of earlier stamps, each stamp's own in order, each with the time of its stamp |
| `TypeInventory.InventoryRoundTrip` | src/symbol/type.rs:476-620 | Decoding the layout of any well-formed types and symbols, with all nested fields and flag-selected sections, gives those symbols and those types by name |
| `TypeInventory.InventoryIsLaidOut` | src/symbol/type.rs:476-620 | Conversely an upload that decodes is, byte for byte, the layout of what it decodes to. Free bytes of the layout are: an entry's eight identification bytes, reserved words, terminators, copy masks, bytes that trail an entry, a symbol's dimension and comment length and all behind its type name |
| `TypeInventory.ByNameKeepsAll` | src/symbol/type.rs:571-577 | With distinct names the type map holds every type under its name and nothing else |
| `TypeInventory.ByNameIsLast` | src/symbol/type.rs:571-577 | With repeated names the map holds the last type of each name |
| `TypeInventory.ReadPutType` | src/symbol/type.rs:485-569 | Any well-laid-out entry is read by name as what it means; the bulk decoder reads it, with the same result, if and only if all versions are 1, the type's offset is 0 and no field has sub-items |
| `TypeInventory.PutReadType` | src/symbol/type.rs:655-743 | Whatever the decoder by name accepts is the layout of a well-formed entry with that meaning |
| `TypeInventory.BulkRefinesNamed` | src/symbol/type.rs:485-569 | Whatever type the bulk decoder returns, the decoder by name returns for the same bytes, through all fields and sections |
| `TypeInventory.BulkAcceptsIff` | src/symbol/type.rs:485-569 | The bulk decoder returns a type for some bytes if and only if these are the layout of a strict well-formed entry with that meaning |
| `TypeReplies.ReplyRoundTrip` | src/symbol/type.rs:636-646 | For every laid-out entry, any bytes behind it and any cut of the reply: fewer than four bytes are an error; all but trailing bytes give what the entry means; a cut inside a field or a method, behind its length, panics; a cut anywhere else is an error |
| `TypeReplies.ReplyPanicsIff` | src/symbol/type.rs:644-646 | For any announced length in front of any part of an entry: the reply panics if and only if the length is below four or the bytes it covers end inside a field or a method |
| `TypeReplies.ReportedReply` | src/symbol/type.rs:627-646 | With a buffer of 4096 bytes that the device fills as far as it goes: reporting more than the buffer panics at the slice; reporting what is there reads the entry cut at the buffer |
| `TypeReplies.ShortReplyPanics` | src/symbol/type.rs:644-646 | A reply that announces two bytes panics |
| `TypeReplies.CutReplyPanics` | src/symbol/type.rs:722-731 | A type of one field, 90 bytes framed, panics when only its first 49 arrive |
| `ShortEntries.CutType` | src/symbol/type.rs:655-743 | Exactly what the decoder by name makes of an entry cut at any byte: its meaning, an error, or a panic |
| `ShortEntries.TypePanicsIff` | src/symbol/type.rs:722-731 | The cuts that panic are those inside a framed field or method, by the sizes of the layout alone |
| `ShortEntries.CutHeader` | src/symbol/type.rs:656-686 | A header cut anywhere is an error, and one that is whole is read whatever is cut behind it |
| `ShortEntries.CutParts` | src/symbol/type.rs:397-440 | Sections cut anywhere are an error, except inside a method, where they panic |
| `ShortLayouts.FramedCuts` | src/symbol/type.rs:282-297 | A framed entry is an error while its length is incomplete and panics once that has been read |
| `TypeInventory.ReadPutSymbol` | src/symbol/type.rs:585-617 | A laid-out symbol entry is read as the symbol |
| `TypeInventory.PutReadSymbol` | src/symbol/type.rs:585-617 | A symbol entry that is read is the layout of the symbol it gives |
| `TypeEntries.BoundsAreReadIff` | src/symbol/type.rs:513-517 | Array bounds whose element count fits 32 bits are read back if and only if the upper bound is below the largest 32-bit number; at that bound the checked sum overflows |
| `TypeEntries.PlainHeaderFitsIff` | tests/test_symbol.rs:21-65 | A header as the tests' encoder lays it out can be read if and only if its texts are shorter than 1024 bytes and no upper bound is the largest number; texts and bounds are then read as they were |
| `TypeEntries.ReadPutHeader` | src/symbol/type.rs:494-517 | A laid-out header, with texts and dimensions, is read as what it means and reading stops at its end |
| `TypeEntries.PutReadHeader` | src/symbol/type.rs:494-517 | A header that is read is the layout of what it gives |
| `TypeEntries.ReadPutParts` | src/symbol/type.rs:421-440 | The sections selected by any combination of flags are read as what they mean, in their order, stopping at their end |
| `TypeEntries.PutReadParts` | src/symbol/type.rs:421-440 | Sections that are read are the layout of what they give |
| `TypeEntries.ReadPutField` | src/symbol/type.rs:519-540 | A laid-out field entry is read as its field by the decoder by name, and by the bulk decoder if it is strict |
| `TypeEntries.PutReadField` | src/symbol/type.rs:692-714 | A field entry that is read is the layout of what it gives; if the bulk decoder reads it, it is strict and both agree |
| `EntryMembers.FieldMembers` | src/symbol/type.rs:519-540 | For every field that is laid out, each member of the field that is read is the member of the layout it belongs to: name, type name and comment, offset (elsewhere if all ones), size, base type, flags, bounds, attributes |
| `EntryMembers.TypeMembers` | src/symbol/type.rs:541-567 | The same for types, with their fields, GUID, methods and parameters, attributes and enum values |
| `EntryMembers.SymbolMembers` | src/symbol/type.rs:583-615 | The same for symbols |
| `EntryMembers.InventoryMembers` | src/symbol/type.rs:476-620 | The same for whole uploads: all symbols in order, and under every name the last type laid out with it |
| `EntryBytes.FieldBytes` | src/symbol/type.rs:485-540 | Each member of a field that is read comes from its absolute byte position; what the bulk decoder accepts has version 1 and no nested entries |
| `EntryBytes.TypeBytes` | src/symbol/type.rs:485-568 | The same for types, whose sections are there as the flags say; what the bulk decoder accepts has version 1 and offset 0 |
| `EntryBytes.TypeSectionBytes` | src/symbol/type.rs:397-419 | What follows a type's header are its fields, the sections, and its enum values, in this order |
| `EntryBytes.SectionBytes` | src/symbol/type.rs:397-419 | The sections: 16 bytes of GUID, `size` bytes of mask, methods, attributes |
| `EntryBytes.LongTextsPanicIff` | src/symbol/type.rs:505-510 | A header that is all there panics if and only if one of its texts has 1024 bytes or more |
| `EntryBytes.EntryFrame` | src/symbol/type.rs:571-577 | An entry ends where its length, which counts its own four bytes, says |
| `EntryBytes.EntryFailsIff` | src/symbol/type.rs:655-720 | Exactly which bytes are not an entry, and whether that is an error or a panic |
| `EntryBytes.ShortLengths` | src/symbol/type.rs:571-577 | A length below four panics in the bulk decoder and is rejected with the length by the decoder by name, in methods and in parameters |
| `EntryBytes.BulkRefusals` | src/symbol/type.rs:485-541 | What only the bulk decoder refuses: another version is an error with the version, nested entries in a field or the offset of a type panic |
| `EntryBytes.DimensionPanicsIff` | src/symbol/type.rs:515-519 | A dimension panics if and only if its upper bound or the number behind it is no 32-bit number |
| `EntryBytes.SymbolBytes` | src/symbol/type.rs:583-615 | Each member of a symbol that is read comes from its absolute byte position |
| `EntryBytes.MethodBytes` | src/symbol/type.rs:302-356 | The same for methods |
| `EntryBytes.ParameterBytes` | src/symbol/type.rs:358-395 | The same for parameters |
| `EntryBytes.AttributeBytes` | src/symbol/type.rs:226-241 | The same for attributes |
| `EntryBytes.EnumBytes` | src/symbol/type.rs:243-280 | The same for enum values |
| `EntryBytes.EnumValueIff` | src/symbol/type.rs:254-275 | For every base type and size, which number the bytes of an enum value are, when there is none, and when it panics |
| `RpcMethods.ReadPutMethod` | src/symbol/type.rs:302-356 | A laid-out RPC method, with its framed parameters and attributes, is read as what it means |
| `RpcMethods.PutReadMethod` | src/symbol/type.rs:302-356 | An RPC method that is read is the layout of what it gives |
| `RpcMethods.ReadPutParameter` | src/symbol/type.rs:358-395 | A laid-out parameter is read as what it means |
| `RpcMethods.PutReadParameter` | src/symbol/type.rs:358-395 | A parameter that is read is the layout of what it gives |
| `RpcMethods.MethodsCoded` | src/symbol/type.rs:282-300 | Counted, framed lists of methods: reading inverts the layout, and only layouts are accepted |
| `TypeSections.AttributesCoded` | src/symbol/type.rs:226-241 | Counted attribute lists: reading inverts the layout, and only layouts are accepted |
| `TypeSections.EnumsCoded` | src/symbol/type.rs:243-280 | Counted enum lists, for any value size and base type: reading inverts the layout, and only layouts are accepted |
| `TypeSections.GuidCoded` | src/symbol/type.rs:199-217 | A GUID section: reading inverts the layout, and only layouts are accepted |
| `TypeSections.GuidTextIsInjective` | src/symbol/type.rs:203-216 | Different GUIDs are written as different texts |
| `EntryBytes.GuidByBytes` | src/symbol/type.rs:199-217 | The text of a GUID, digit by digit from its bytes |
| `Formats.AllSound` | src/symbol/type.rs:571-577 | A sequence of framed entries up to the end of the data is read back entry by entry |
| `Formats.AllComplete` | src/symbol/type.rs:571-577 | Data that is read as framed entries up to its end is the layout of those entries |
| `TypeReader.ParseGuid` | src/symbol/type.rs:199-217 | Reads a GUID as the format says |
| `TypeReader.SkipCopyMask` | src/symbol/type.rs:219-224 | Skips exactly the type's size in bytes, or fails |
| `TypeReader.ParseAttributes` | src/symbol/type.rs:226-241 | The loop over attributes reads, leaves and fails as the format says |
| `TypeReader.ParseEnumInfos` | src/symbol/type.rs:243-280 | The loop over enum values reads, leaves and fails as the format says, including the panics for short values |
| `TypeReader.ParseMethodInfos` | src/symbol/type.rs:282-300 | The loop over framed methods reads, leaves and fails as the format says |
| `TypeReader.ParseRpcMethod` | src/symbol/type.rs:302-356 | Reads a method as the format says |
| `TypeReader.ParseRpcMethodParameter` | src/symbol/type.rs:358-395 | Reads a parameter as the format says |
| `TypeReader.OpenType.ParseTypeFlags` | src/symbol/type.rs:397-419 | Fills exactly the sections its flags select into the open type and changes nothing else of it |
| `TypeReader.ParseFieldAttributes` | src/symbol/type.rs:421-440 | Reads past a field's sections and keeps only its attributes |
| `TypeReader.DecodeTypeInfo` | src/symbol/type.rs:485-569 | With a parent: pushes the field the entry holds onto the parent, which is otherwise unchanged; without one: returns the type the bulk format gives |
| `TypeReader.DecodeEntryByName` | src/symbol/type.rs:655-743 | The same for the entries of a query by name |
| `TypeReader.DecodeReply` | src/symbol/type.rs:638-646 | Reads the reply to a query by name as specified |
| `TypeReader.GetTypeInfoByName` | src/symbol/type.rs:626-647 | Slices the buffer at the reported length, or panics, and reads the reply |
| `TypeReader.DecodeTypes` | src/symbol/type.rs:571-577 | The loop over type entries gives the map from each name to its last type |
| `TypeReader.DecodeSymbolInfo` | src/symbol/type.rs:476-620 | The whole decoder gives the specified symbols and type map, or the specified failure |
| `TypeTrees.EndsIffRanked` | src/symbol/type_tree.rs:105-139 | Construction ends for every type of an inventory if and only if some rank decreases along its compound fields |
| `TypeTrees.BuildFailsIff` | src/symbol/type_tree.rs:113-116 | Construction fails if and only if the compound's own type is absent |
| `TypeTrees.BuildEliminatesCompound` | src/symbol/type_tree.rs:105-139 | What is built holds no compound placeholder at any depth |
| `TypeTrees.BuildInBounds` | src/symbol/type_tree.rs:105-139 | If every field of every type ends inside its type, every built tree is in bounds at every depth |
| `TypeTrees.InBoundsNeedsFits` | src/symbol/type_tree.rs:117-131 | Conversely, when a type repeats no field name, its tree is in bounds only if all its fields end inside it |
| `TypeTrees.DeclaredSizesAreNotEnough` | src/symbol/type_tree.rs:80-103 | A field whose declared size fits, but whose base type is wider, gives a tree out of bounds |
| `TypeTrees.BuildFieldsDistinct` | src/symbol/type_tree.rs:120-129 | The fields of a built struct have distinct names even if the type repeats one |
| `TypeTrees.BuildFieldsKeepLast` | src/symbol/type_tree.rs:117-131 | Of several fields with one name the tree holds the last |
| `TypeTrees.BuildFieldsInOrder` | src/symbol/type_tree.rs:120-129 | With distinct names, a built struct has one entry per field, in the type's order |
| `TypeTrees.WalkKeeps` | src/symbol/type_tree.rs:142-155 | A child of a compound-free, in-bounds tree is compound-free and in bounds |
| `TypeTrees.GetChild` | src/symbol/type_tree.rs:142-155 | The loop over path tokens finds the node the path leads to, or Missing |
| `TypeTrees.TryFromTypeOrField` | src/symbol/type_tree.rs:105-139 | The recursive loop over an acyclic inventory terminates and builds the specified tree |
| `SymbolTrees.FieldsInOrder` | src/symbol/tree.rs:57-72 | A decoded struct has one child per field, same names, same order, each decoded at its own offset |
| `SymbolTrees.GetChild` | src/symbol/tree.rs:164-177 | The loop over path tokens finds the node the path leads to, or Missing |
| `SymbolTrees.CollectWords` | src/symbol/tree.rs:122-136 | The word loop slices out exactly the words of the text, or panics when the data is shorter |
| `SymbolTrees.Decode` | src/symbol/tree.rs:41-159 | The recursive decoder gives the specified tree, or panics where specified |
| `SymbolTrees.DecodeFields` | src/symbol/tree.rs:55-73 | The loop over a struct's fields gives the specified children |
| `SymbolMaps.Flatten` | src/symbol/map.rs:92-262 | The recursive flattening gives the specified entries in order, or panics where specified |
| `SymbolMaps.FlattenTime` | src/symbol/map.rs:96-124 | A time structure becomes one entry with its eight offsets, or none if any field is not a placed unsigned word |
| `SymbolMaps.FlattenFields` | src/symbol/map.rs:126-142 | The appending loop over a struct's fields gives the specified entries |
| `SymbolMaps.ReadDescriptor` | src/symbol/map.rs:291-378 | Reading along a descriptor gives the specified value, or panics where specified |
| `SymbolMaps.DecodeMap` | src/symbol/map.rs:386-392 | The loop over the descriptors gives one value per descriptor, under its key, in order |
| `PayloadBytes.NumbersRead` | src/symbol/type_tree.rs:80-103 | For each integer base type, from inventory to both decoders: how many bytes it takes, and the number they are, in two's complement where signed |
| `PayloadBytes.FloatsRead` | src/symbol/type_tree.rs:80-103 | Base types 4, 5, 32 and 33: four, eight and ten float bytes, and a boolean that is true for every byte but zero |
| `PayloadBytes.ShortScalarsRead` | src/symbol/tree.rs:79-120 | A fixed-width type is malformed in both decoders if and only if fewer bytes are left than it takes |
| `PayloadBytes.SizedRead` | src/symbol/type_tree.rs:80-103 | Base types 0, 30 and 31: raw bytes, text of bytes, text of words of the declared size; every other number is unknown in the tree and raw bytes in the map |
| `PayloadBytes.ShortSizedRead` | src/symbol/tree.rs:75-155 | With fewer bytes than the declared size both decoders panic, except for wide texts of odd size and, in the tree, unknown types |
| `PayloadBytes.BehindPayload` | src/symbol/tree.rs:43-52 | Behind the end of the payload the tree has no value and the map's slice panics |
| `PayloadBytes.FieldlessRead` | src/symbol/type_tree.rs:132-135 | A compound whose type has no fields is raw bytes of the declared size |
| `PayloadBytes.StructRead` | src/symbol/tree.rs:55-73 | A compound is read field by field: name, order, offset added to its own, a field placed elsewhere missing, a field of absent type unknown |
| `PayloadBytes.TimeRead` | src/symbol/map.rs:96-124 | A time structure is read, in both decoders, as the moment of the words at its fields' offsets |
| `PayloadBytes.ShortTimeRead` | src/symbol/map.rs:264-298 | With too few bytes, the first word that is not there decides whether the map's moment is malformed or a slice panics |
| `PayloadBytes.FlattenPanicsIff` | src/symbol/map.rs:92-262 | For every tree: flattening panics if and only if some node reached through placed fields outside time structures has no offset in 32 bits or is a placeholder |
| `Meaning.FlattenPreservesMeaning` | src/symbol/map.rs:92-262 | For every good tree and every payload that covers it, neither decoder panics, keys are distinct, and the map holds, depth first, exactly one entry per leaf: the widened value of the tree's node along the same path |
| `Meaning.KeyIffReached` | src/symbol/map.rs:92-262 | For every text: it is a key of the map if and only if following it from the root through placed fields reaches a leaf |
| `Meaning.ReadingsOfPath` | src/symbol/tree.rs:164-177 | The map's value for a reached path is the widened value the tree's lookup finds there; Unknown and Array nodes become their raw bytes |
| `Meaning.MalformedIff` | src/symbol/map.rs:291-378 | Inside a covering payload a leaf reads as malformed if and only if it is a wide text of odd size or a moment that is no date |
| `Meaning.InventoryIsSafe` | src/symbol/type_tree.rs:66-139 | From an acyclic inventory with dot-free names whose fields fit, every symbol's tree and every child of it by path is good, so both decoders succeed on any payload of at least its size |
| `Meaning.TreeMalformedIff` | src/symbol/tree.rs:41-159 | Inside a covering payload a node of the decoded tree, at any path, is malformed if and only if its type is a wide text of odd size (or a compound placeholder) |
| `Meaning.LookupsAgree` | src/symbol/tree.rs:164-177 | The node found under a path in the decoded tree is what the type found under it in the type tree decodes to at its place; without a place there is no node |
| `Meaning.BuildNamed` | src/symbol/type_tree.rs:117-131 | Trees built from an inventory with usable names have distinct, usable names at every depth |
| `Meaning.EnumValueIsTreeValue` | src/symbol/type.rs:254-275 | For every integer base type, the inventory reads an enum value from its bytes as the number that the tree decoder reads from the same bytes for a variable of that type (an ULINT wrapped to 64 signed bits) |
| `Meaning.RootIsNotFound` | src/symbol/tree.rs:164-177 | The tree's lookup of the empty path finds nothing, so the root's own entry is the one key that cannot be looked up |
| `LeafKeys.FlattenInserts` | src/symbol/map.rs:92-262 | For any names: flattening puts the leaves, depth first, into the map one by one under the keys their paths make |
| `LeafKeys.KeysHoldLastLeaf` | src/symbol/map.rs:92-262 | For any names that differ within each struct: neither decoder panics, every leaf's key is in the map, and it holds the widened value of the last leaf with that key |
| `LeafKeys.EntryPerLeafIff` | src/symbol/map.rs:92-262 | The map has one entry per leaf if and only if no two leaves have the same key |
| `LeafKeys.KeyLeadsBackIff` | src/symbol/tree.rs:164-177 | Looking up the key of a leaf follows the leaf's own path if and only if no name on it has a dot, and the path does not start with an empty name and go on |
| `LeafKeys.KeySplitsIff` | src/symbol/map.rs:128-139 | Splitting the key of a path gives the path back under exactly that condition |
| `LeafKeys.DotsHideLeaves` | src/symbol/map.rs:138-138 | A tree with the name `a.b`: the map has the key, and the tree's lookup finds nothing under it |
| `Meaning.BadTimeVanishes` | src/symbol/map.rs:96-113 | A struct with the names of a time structure but a field that is not a placed unsigned word has no entry at all, although the tree decodes its eight children |
| `Meaning.BytesAsTimeVanish` | src/symbol/map.rs:96-113 | Such a struct: the eight names over one byte each |
| `Flattening.FlattenIsLeaves` | src/symbol/map.rs:92-262 | Flattening an in-bounds tree lists exactly its leaves, depth first; no sum of offsets leaves 32 bits and `unimplemented!` is not reached |
| `Flattening.LeavesReached` | src/symbol/map.rs:126-142 | Every listed leaf is reached along its path through placed fields |
| `Flattening.ReachedIsLeaf` | src/symbol/map.rs:126-142 | Everything reached along some path is listed |
| `Flattening.ReachesOnce` | src/symbol/map.rs:126-142 | In a tree with distinct names a path leads to one leaf at most |
| `Flattening.ReadingsAgree` | src/symbol/map.rs:291-378 | Along any path the flattened reading is the widened value of the tree's node |
| `Flattening.DecodeInBounds` | src/symbol/tree.rs:41-159 | A payload that covers an in-bounds tree is decoded without a slice out of range |
| `Flattening.TimeAgrees` | src/symbol/tree.rs:179-215 | The timestamp read from raw offsets is the timestamp of the decoded struct |
| `Flattening.ScalarAgrees` | src/symbol/map.rs:300-346 | For every fixed-width type the map's value is the widened value of the tree's |
| `NetIds.NetIdRoundTrip` | src/core/netid.rs:68-94 | Parsing a printed NetID gives the NetID |
| `NetIds.AddrRoundTrip` | src/core/netid.rs:131-152 | Parsing a printed address gives the address |
| `NetIds.PrintedParts` | src/core/netid.rs:90-94 | A printed NetID has exactly six parts between dots, the numerals of its bytes |
| `NetIds.ByteNumerals` | src/core/netid.rs:90-94 | The numerals of bytes, digit by digit |
| `NetIds.PrintedAddrParts` | src/core/netid.rs:148-152 | A printed address has exactly one colon |
| `NetIds.PrintIsInjective` | src/core/netid.rs:148-152 | Different addresses print differently |
| `NetIds.NetIdAcceptedIff` | src/core/netid.rs:71-81 | A text is a NetID if and only if it has six parts that are all bytes; a part that is no byte is reported first, whatever the number of parts |
| `NetIds.NetIdWrittenAsReadIff` | src/core/netid.rs:68-94 | An accepted NetID prints back as the text it was read from if and only if no part has a sign or a leading zero |
| `NetIds.AddrWrittenAsReadIff` | src/core/netid.rs:131-152 | The same for whole addresses |
| `NetIds.OddNetIdsAreAccepted` | src/core/netid.rs:73-76 | In front of any printed NetID a plus sign or a zero is accepted and makes no difference |
| `NetIds.NetIdFromStr` | src/core/netid.rs:71-81 | The loop over the parts accepts and rejects as specified |
| `Sessions.RunAgreesIff` | src/ads.rs:124-177 | For every interleaving of single steps: the cache agrees with the session in every state if and only if no step opens a session over a non-empty cache or caches a handle of another session than the open one |
| `Sessions.StepAgreesIff` | src/ads.rs:244-262 | A single step loses the agreement exactly in those two ways |
| `Sessions.CallsAgree` | src/ads.rs:124-177 | With each method as one step and losses between them, after any calls every cached handle was issued by the open session |
| `Sessions.CallIsSteps` | src/ads.rs:124-177 | Each method run as a whole does what its single steps do, and none of them breaks the agreement |
| `Sessions.RequestEndsSessionIff` | src/ads.rs:429-459 | A request over an open session ends it, and empties the cache, if and only if it fails and the connection was lost or the error is ADS error 6 |
| `Sessions.LookUpCaches` | src/ads.rs:244-262 | A look-up gives what is cached, or caches what the device answers; the next look-up gives the same handle whatever the device would answer |
| `Sessions.LossInsideConnect` | src/ads.rs:128-141 | `Ads::connect` looks at the connection twice: one lost between the two looks leaves the old handles to the new session, unless there are none |
| `Sessions.LateInsert` | src/ads.rs:252-255 | A handle requested before but cached after a reconnection is stale |
| `Sessions.InsertInsideConnect` | src/ads.rs:128-141 | A handle cached by another call while `Ads::connect` opens the session, after it has cleared the cache, is stale |
| `Sessions.AdsConnection.Connect` | src/connection.rs:16-41 | Keeps an open connection; otherwise ends with the new session or with none |
| `Sessions.AdsConnection.Disconnect` | src/connection.rs:47-60 | Ends with no session |
| `Sessions.Ads.Connect` | src/ads.rs:124-145 | Keeps the agreement; an open connection stays with its cache, otherwise the cache is emptied |
| `Sessions.Ads.Disconnect` | src/ads.rs:167-177 | Ends with no session and an empty cache |
| `Sessions.Ads.WithClient` | src/ads.rs:434-463 | Fails without touching anything when disconnected; gives the request's outcome, and ends the session and empties the cache exactly when it is an error and the connection was lost or the error is ADS error 6 |
| `Sessions.Ads.SymbolHandle` | src/ads.rs:244-262 | Gives the cached handle, or asks the open session for one and caches it; the cache keeps agreeing |

## Left out

- Protocol.TimeoutRule: counts modulo 2^32; a build with overflow checks would panic at the wrap of the counter, which takes 2^32 timeouts without a reply.
- Protocol.TeardownCanFinish: is about one run that finishes; that every fair one does is `Liveness.TeardownFinishes`, whose fairness asks that a step of a lock holder or of the teardown that is possible again and again is taken, which mutexes of the standard library do not promise.
- TypeReplies.ReplyPanicsIff: covers every part of every readable entry; bytes that are no part of one, such as texts announced to be longer than their buffer, can also panic.
- Meaning.InventoryIsSafe: asks for names that are not empty and have no dots; `LeafKeys` treats other names, for which keys may coincide.
- Meaning.FlattenPreservesMeaning: trees and payloads of 4 GiB or more are outside, since offsets are 32-bit numbers.
- TypeReader.DecodeTypeInfo: the header and the sections shared by types and fields are read by one method each, where the source repeats the code; ignored words are skipped together.
- Library functions: lossy UTF-8 and UTF-16 decoding, conversions and widening of floats, Real80 and the calendar are parameters, the same for both decoders.
- Integer parsing is the standard library's and is modelled by its result; kinds of parse errors are one value.
- Both payload decoders read numbers in the byte order of the host, while everything else reads little-endian; the model's host is little-endian.
- Overflow checks are taken to be on: an overflow is a panic. `usize` is unbounded.
- A rejected reply's static context strings are dropped from errors; I/O errors are one value.
- TCP connections, tokio scheduling, real time, socket writes, port requests and logging; timeouts, cancellation and write failures are steps that can happen at any time.
- `Client::close`, which deletes every notification before it tears down, and the background job that deletes notifications whose receiver is gone.
- Memory exhaustion by announced lengths, and what happens after a panic.
- `read_exact` and its variants compare only the length the device reports, so nothing is claimed about buffers the device reports as full but does not fill.
- `connect_with_retry` and the requests to switch the device to run mode, which only choose among the outcomes of an attempt to connect.
- The two steps of `read_symbol` and its like, looking a handle up and using it, between which the session can change.
- The serde deserializer over symbol trees, `AdsBuilder`, `DeviceInfo`, state conversions, the error table and `data_types`: tables and plumbing.
