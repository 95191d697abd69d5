# BLObject, verified

A Dafny model of five components of the BLObject library and proofs of what they guarantee: the
growable byte ring (`PByteArray`), the peer-to-peer connection handshake (`P2PTask`), signals with
their slots and event loops, the `_file` and `proto_package` messages, and the chunked read queue
(`ReadBoxQueue`). `dafny verify dfyconfig.toml` checks everything.

Code that changes objects in place is modelled by classes with the same fields. Each method is
proved against a function on plain values, and the laws of the component are lemmas about that
function, over every input, every run or every reachable state.

## The components

**Byte ring** (`Arithmetic.dfy`, `RingCells.dfy`, `PByteArray.dfy`). A ring is a list of equal
blocks and two positions; its content is the bytes met cyclically from `begin` to `end`. The growth
rules, including the one that duplicates the block holding both ends, keep the content in all four
placements, and every run of operations from the constructor is a plain byte FIFO. In the classes a
list iterator is the node it denotes; `Index.Valid` says that it is node number `bolckIndex`.

**Handshake** (`Handshake.dfy`, `HandshakeOutcome.dfy`, `HandshakeSymmetry.dfy`,
`HandshakeCompletion.dfy`, `HandshakeOneDial.dfy`, `P2PTask.dfy`). Two tasks, up to two
connections, one FIFO channel per direction. A read step takes one or more messages, handles the
first and drops the rest, as `SlotRead` does. The initial `othernum` of each task is a parameter,
because the program never initialises it.

**Signals** (`SignalSteps.dfy`, `SignalDelivery.dfy`, `SignalEmit.dfy`, `SignalSync.dfy`,
`SignalReconnect.dfy`, `SignalWalk.dfy`, `SignalLoops.dfy`, `Signals.dfy`). Emitters, loops, re-binding,
connecting and disconnecting as atomic steps in any interleaving. A ticket stands for one pending
invocation: announced by an emitter, queued in a loop, or held by a loop's thread. `Signals.dfy` has
the objects themselves, with a trace of what happens to their slots.

**Messages** (`Bytes.dfy`, `Wire.dfy`, `Output.dfy`, `FileCodec.dfy`, `FileLaws.dfy`,
`FileMessage.dfy`, `Package.dfy`, `PackageLaws.dfy`). Wire primitives follow the Protocol Buffers encoding, sections
"Base 128 Varints", "Message Structure", "Length-Delimited Records" and "Last One Wins"; the field
logic follows the generated code. Unknown fields, groups with their nesting limit included, are kept
in order.

**Read queue** (`Box.dfy`). A queue of boxes with a cursor into the first. `RunQueue` makes any calls
on a queue object in any state and hands out what the flat byte queue does.

## What turned out not to hold as one might expect

- The handshake's tie-break is safe only under a condition on the uninitialised numbers.
  `TieBreakExact` gives it: every run selects one connection at most if and only if not both tasks'
  numbers beat their initial `othernum` or the peer's number. `ClashSelectsTwo` builds the bad run
  whenever the condition fails.
- Both ends of one connection are reported in every run that has come to rest if and only if the two
  numbers differ and neither beats its own initial `othernum` (`CompletesExactly`). If one does, the
  loss of an answer can leave one end unreported for ever, and only then (`HalfReportedExactly`).
- `check()` runs before `othernum` is stored, so when only one peer dials, the exchanged numbers
  decide nothing. Every such run that has come to rest has reported both ends of the connection if
  and only if some number beats the initial content of its own `othernum` (`OneDialCompletes`).
- Parsing a concatenation is merging for everything the serializer writes (`ConcatenationMerges`),
  but for arbitrary encodings only if no default value is spelled out for a field already set
  (`ConcatenationExact`; `ExplicitDefaultErases` is a pair of two bytes each that fails).
- A message survives its round trip if and only if its bytes fields are within the reader's length
  limit (`RoundTrip`).
- A synchronous emit gives up the signal's lock before it pushes, and pushes and calls in two steps.
  Its call takes the oldest argument not yet taken, which is its own push if and only if exactly as
  many other calls of the slot came in between as arguments were queued before (`SyncTakesOwn`). An
  empty queue is enough when nobody else pushes to the slot meanwhile (`SyncAlone`); otherwise two
  emits that each find the queue empty can deliver each other's arguments (`EmitsCanCross`).
- Connecting a member function again drops the old slot from the map without deleting it. No emit
  that begins later serves the old slot (`ReconnectRetires`), but something is still pushed to it in
  some continuation if and only if, at the connect, some emit under way had an entry for it whose
  argument it had yet to push (`OldSlotExactly`).
- `read_to_string(int)` fills a string of the asked size with the whole content. It stays inside the
  string if and only if the size is at least the content's, or one less with a zero as the last byte
  (`ReadToStringOf`).
- `lenght()` is right if and only if the uninitialised counter started at zero
  (`ReadBoxQueue.Length`).

## Model

| member | source | states |
|---|---|---|
| RingCells.LiveIsCyclic | PByteArray.hpp:261-269 | the live bytes are the cyclic walk: as many as size() computes, the i-th one i cells after begin, none exactly when begin equals end |
| RingCells.ContentsAreCyclic | PByteArray.hpp:322-330 | the i-th byte held is the one found i steps of ++ after begin |
| RingCells.SizeIsLength | PByteArray.hpp:256-269 | size() is the number of bytes held, always below the number of cells, and zero exactly when begin == end |
| RingCells.PlusIsCyclic | PByteArray.hpp:150-177 | index + v moves the cell number by v modulo blocks times block size and stays a legal index |
| RingCells.PlusIsSteps | PByteArray.hpp:150-209 | index + v is v applications of ++ |
| RingCells.PlusOneIsNext | PByteArray.hpp:180-209 | ++ moves to the cyclically next cell |
| RingCells.GrowAcrossBlocks | PByteArray.hpp:283-289 | inserting a block into a ring wrapped across blocks keeps the content |
| RingCells.GrowInsideBlock | PByteArray.hpp:290-295 | duplicating the block that holds both tail and head keeps the content |
| RingCells.GrowUnwrapped | PByteArray.hpp:296-306 | inserting a block before an unwrapped ring keeps the content, in one block or across several |
| RingCells.GrowKeepsContents | PByteArray.hpp:283-307 | in all placements a growth step keeps the content and adds exactly one block of free cells |
| RingCells.GrowTimesKeepsContents | PByteArray.hpp:282-307 | so does the whole growth loop, for any number of rounds |
| RingCells.WriteAppends | PByteArray.hpp:64-103 | writing one byte at end, with room, appends it and touches nothing else |
| RingCells.WriteAllAppends | PByteArray.hpp:64-103 | the write loop never overtakes begin and appends exactly its input |
| RingCells.TakeRemoves | PByteArray.hpp:106-146 | taking the byte at begin removes exactly the oldest byte |
| RingCells.TakeAllRemoves | PByteArray.hpp:106-146 | n takes remove exactly the n oldest bytes |
| RingCells.TakenIsEmpty | PByteArray.hpp:343-352 | begin meets end after size() takes and not before |
| RingCells.ReservedIsLeast | PByteArray.hpp:277-307 | push adds no block when there is room to spare, and otherwise the fewest blocks that leave it; the content stays |
| RingCells.ReservedForStringExact | PByteArray.hpp:372-405 | push_from_string adds no block when there is room to spare, and otherwise two more than its input fills, which always leaves room; the content stays |
| RingCells.PushAppends | PByteArray.hpp:271-311 | push appends exactly its input, whatever the placement, and leaves the fewest cells that hold it with room to spare, never fewer than before |
| RingCells.PushFromStringAppends | PByteArray.hpp:366-407 | push_from_string appends exactly its input and leaves the cells it had, or two blocks more than the input fills |
| RingCells.PopRemoves | PByteArray.hpp:313-320 | pop removes exactly the first min(n, size) bytes and no cell |
| RingCells.WalkIsPrefix | PByteArray.hpp:322-330 | n steps of the read walk have read the first n bytes held |
| RingCells.WalkReachesEnd | PByteArray.hpp:322-330 | the read walk meets end after exactly size() steps |
| RingCells.ApplyRefinesFifo | PByteArray.hpp:271-407 | every operation returns and leaves what the same operation of a flat FIFO does |
| RingCells.RunRefinesFifo | PByteArray.hpp:271-407 | every run from any legal ring refines a FIFO run |
| RingCells.ConstructedRunIsFifo | PByteArray.hpp:220-407 | every run from the constructor is a run of the empty FIFO |
| ByteArray.BlockList.Insert | PByteArray.hpp:285-300 | mid-list insertion puts one fresh node at the place and keeps the others' order |
| ByteArray.BlockList.CopyFrom | PByteArray.hpp:229-254 | the list becomes fresh copies of the other list's blocks |
| ByteArray.Index.Minus | PByteArray.hpp:41-46 | distance in cells between two indices |
| ByteArray.Index.Equals | PByteArray.hpp:48-55 | equal exactly when at the same block and cell |
| ByteArray.Index.Add | PByteArray.hpp:150-177 | a new index at the position Plus gives, its iterator at the right node |
| ByteArray.Index.Increment | PByteArray.hpp:180-209 | the index moves to Plus(1), its iterator with it |
| ByteArray.Index.PushUnsafe | PByteArray.hpp:64-103 | writes like WriteAll and keeps iterator and block number in agreement |
| ByteArray.Index.PopUnsafe | PByteArray.hpp:106-146 | moves like TakeAll and fills the destination with the oldest bytes |
| ByteArray.PByteArray.constructor | PByteArray.hpp:220-227 | one zeroed block and an empty content |
| ByteArray.PByteArray.Capacity | PByteArray.hpp:256-259 | one less than the number of cells, at least the bytes held |
| ByteArray.PByteArray.Count | PByteArray.hpp:261-269 | the number of bytes held |
| ByteArray.PByteArray.GrowOnce | PByteArray.hpp:283-307 | the three insertion rules in place are Grow, iterators in agreement afterwards |
| ByteArray.PByteArray.GrowBy | PByteArray.hpp:282-307 | the growth loop in place is GrowTimes |
| ByteArray.PByteArray.ReserveForPush | PByteArray.hpp:273-308 | the growth phase of push: no block when there is room, otherwise the fewest that make room |
| ByteArray.PByteArray.ReserveForString | PByteArray.hpp:368-405 | the growth phase of push_from_string: no block when there is room, otherwise two more than the string fills |
| ByteArray.PByteArray.Push | PByteArray.hpp:271-311 | the content grows by exactly the input, the result is 0, and the cells, hence capacity(), are as before when there was room and otherwise the fewest whole blocks more that make room |
| ByteArray.PByteArray.PushFromString | PByteArray.hpp:366-407 | the content grows by exactly the string, whose length is returned, and the cells by nothing or by two blocks more than the string fills |
| ByteArray.PByteArray.Pop | PByteArray.hpp:313-320 | the first min(n, size) bytes are returned and removed, the rest of the destination untouched |
| ByteArray.PByteArray.ReadToString | PByteArray.hpp:322-330 | returns the whole content and changes nothing |
| ByteArray.PByteArray.ReadToStringOf | PByteArray.hpp:332-341 | the whole content if the size is at least its length, the content without its last byte if that is a zero and alone does not fit, and otherwise a write outside the string |
| ByteArray.PByteArray.PopToString | PByteArray.hpp:343-352 | returns the whole content and leaves the buffer empty |
| ByteArray.PByteArray.PopToStringOf | PByteArray.hpp:354-364 | returns and removes the first min(n, size) bytes |
| ByteArray.PByteArray.Copy | PByteArray.hpp:229-240 | a deep copy with the same blocks and positions, sharing no block |
| ByteArray.PByteArray.Assign | PByteArray.hpp:242-254 | takes over the other buffer's blocks, positions and content, also when assigned to itself |
| Handshake.ReadKeepsInv | linux/BLP2P.cpp:56-104 | a read step on any reachable state keeps the protocol invariant |
| Handshake.CheckKeepsInv | linux/BLP2P.cpp:112-125 | so do check() and the proposal it sends |
| Handshake.Reachable | linux/BLP2P.cpp:26-125 | every state of every run satisfies the protocol invariant |
| HandshakeOutcome.ChannelsTyped | linux/BLP2P.cpp:26-125 | each direction carries only its own commands, REQ and ACK with the sender's number and the others with 100, and no arm dereferences a null socket |
| HandshakeOutcome.HandlersRun | linux/BLP2P.cpp:82-103 | whatever a reachable task reads on an attached socket, its handler runs to the end |
| HandshakeOutcome.ReportsAgree | linux/BLP2P.cpp:82-103 | a report caused by an OK..ACK comes after the report of the connection's other end |
| HandshakeOutcome.AnswersInFlight | linux/BLP2P.cpp:82-93 | every OK..ACK in flight was sent by an end that has reported |
| HandshakeOutcome.AtMostOnce | linux/BLP2P.cpp:26-125 | over any run a task proposes at most once and each end is reported at most once |
| HandshakeOutcome.ProposerBeats | linux/BLP2P.cpp:112-125 | only a task whose number beats its initial othernum or the peer's number proposes |
| HandshakeOutcome.OneProposer | linux/BLP2P.cpp:56-125 | unless both tasks may propose, one proposal at most is made and all reports name one connection |
| HandshakeOutcome.LargeInitialNumbers | linux/BLP2P.cpp:56-125 | with initial othernums at least the own numbers the tie-break is safe, and equal numbers never propose |
| HandshakeOutcome.ClashSelectsTwo | linux/BLP2P.cpp:73-125 | when both may propose, a run reports two different connections |
| HandshakeOutcome.TieBreakExact | linux/BLP2P.cpp:56-125 | every run selects one connection at most if and only if not both tasks may propose |
| HandshakeOutcome.ProposesExactly | linux/BLP2P.cpp:73-125 | a task proposes in some run if and only if its number beats its initial othernum or the peer's number |
| HandshakeOutcome.QuietRun | linux/BLP2P.cpp:73-125 | with one dialler and large initial othernums nothing but one REQ or one ACK is ever in flight, and nothing is proposed or reported |
| HandshakeSymmetry.SwapRun | linux/BLP2P.cpp:26-125 | exchanging the two peers maps every run to a run |
| HandshakeCompletion.MovesBounded | linux/BLP2P.cpp:26-125 | no run makes more than twelve steps that change anything, whatever is lost |
| HandshakeCompletion.ComesToRest | linux/BLP2P.cpp:26-125 | every run can be continued until nothing more can happen |
| HandshakeCompletion.Staged | linux/BLP2P.cpp:56-125 | with A's number ahead every reachable state is one of the stages of the exchange, with nothing lost |
| HandshakeCompletion.LargerWins | linux/BLP2P.cpp:56-125 | with different numbers that beat neither initial one, a run at rest has reported both ends of the connection the larger number dialled, and nothing else |
| HandshakeCompletion.CompletesExactly | linux/BLP2P.cpp:56-125 | every run at rest has reported both ends of exactly one connection if and only if the numbers differ and neither beats its own initial one |
| HandshakeCompletion.HalfReportedExactly | linux/BLP2P.cpp:59-125 | some run rests with a connection reported at one end only if and only if a number beats its own initial one |
| HandshakeOneDial.OneDialCompletes | linux/BLP2P.cpp:73-125 | every run in which only one peer dials and that rests but for the other's dial has reported both ends of the connection if and only if a number beats its own initial othernum |
| HandshakeOutcome.OneDialExact | linux/BLP2P.cpp:73-125 | with one dialler some run selects the connection if and only if a number beats its own initial othernum |
| P2PTasks.P2PTask.constructor | linux/BLP2P.cpp:17-25 | a task with no sockets, ten time units and an arbitrary othernum |
| P2PTasks.P2PTask.Connect | linux/BLP2P.cpp:26-40 | -1 on a second dial, the status and a deleted socket on a failed one, otherwise an attached client and one REQ with the own number |
| P2PTasks.P2PTask.SetServerSocket | linux/BLP2P.cpp:41-48 | a second incoming connection is deleted and changes nothing else; the first is attached |
| P2PTasks.P2PTask.Tick | linux/BLP2P.cpp:51-53 | the timeout counts down by one |
| P2PTasks.P2PTask.Check | linux/BLP2P.cpp:112-125 | task, sends and reports are those of the step function |
| P2PTasks.P2PTask.OnAck | linux/BLP2P.cpp:73-76 | check() with the old number, then the new one is stored |
| P2PTasks.P2PTask.OnReq | linux/BLP2P.cpp:77-81 | the same, then the own number is sent back on the socket that was read |
| P2PTasks.P2PTask.OnProposal | linux/BLP2P.cpp:82-93 | answers, detaches and reports the proposed connection |
| P2PTasks.P2PTask.OnAnswer | linux/BLP2P.cpp:94-103 | detaches and reports the answered connection |
| P2PTasks.P2PTask.SlotRead | linux/BLP2P.cpp:56-104 | the first box is handled, whatever follows it; without boxes, or when the first is short or holds a foreign command, nothing changes |
| P2PTasks.P2PTask.SlotReadInRun | linux/BLP2P.cpp:56-104 | in any run, when the boxes are the messages waiting on the socket, the task, its sends and its reports are those of the read step of the two-peer system |
| P2PTasks.ReadIsHandle | linux/BLP2P.cpp:59-104 | in any run a read step is the handler on the first message it takes: both connections grow by its sends, the log by its reports, and the messages taken are gone |
| P2PTasks.PerformIsSends | linux/BLP2P.cpp:106-111 | the system's channels receive exactly what the task hands to its sockets |
| P2PTasks.PerformIsReports | linux/BLP2P.cpp:82-103 | the log receives exactly what the task reports, in order |
| SignalSteps.PushInStep | BLObject.h:75-77 | pushing an argument with its pending invocation keeps a slot's queue and its invocations equal in number |
| SignalSteps.InvokeInStep | BLObject.h:80-86 | an invocation always finds an argument, and taking it keeps the two in step |
| SignalSteps.SetObjectThreadKeeps | BLEventLoop.cpp:67-91 | binding keeps every registry entry under its own work id and gives the object that thread's loop |
| SignalSteps.NextKeeps | BLObject.h:124-201 | every step of an emitter, a loop or a binding keeps the delivery invariant |
| SignalSteps.Reachable | BLObject.h:75-201 | the delivery invariant holds in every reachable state |
| SignalDelivery.ArgumentsConserved | BLObject.h:75-86 | taken plus queued arguments are the pushed ones in order, with one pending invocation per queued argument |
| SignalDelivery.NeverCrashes | BLEventLoop.cpp:23-34 | no front() on an empty queue, no deleted slot called, no event posted to a null loop |
| SignalDelivery.QuietMeansDelivered | BLObject.h:140-177 | once nothing is pending every argument has been taken, once and in order |
| SignalDelivery.EverythingCanBeDelivered | BLEventLoop.cpp:11-35 | every run can be continued, without another emit, until everything pushed has been taken, once and in order |
| SignalDelivery.DrainFrom | BLEventLoop.cpp:23-34 | with a thread inside every loop, the threads there already are enough for that |
| SignalLoops.TakenInOwnLoop | BLEventLoop.cpp:18-34 | an event is only ever taken by a thread inside the loop it was posted to |
| SignalLoops.CalledInOwnLoop | BLEventLoop.cpp:18-65 | from the post of an asynchronous emit to the call, whatever interleaves: the calling thread serves the loop registered at the post for the thread the connection's object was bound to, and the slot called is the connection's |
| SignalLoops.EnterServes | BLEventLoop.cpp:11-19 | exec() serves the loop registered for the thread its object is bound to when it is entered |
| SignalLoops.WorkerEntered | BLEventLoop.cpp:11-35 | every thread inside exec() entered it on some object and still serves that object's loop of then |
| SignalDelivery.RegistryPermanent | BLEventLoop.cpp:67-91 | a registry entry once made never changes |
| SignalDelivery.SameThreadSameLoop | BLEventLoop.cpp:67-91 | two objects share a loop if and only if they were last bound to the same thread, and its work id is that thread |
| SignalDelivery.PostedToOwner | BLObject.h:99-102 | the event of an announced entry goes to the loop registered for the thread its object is bound to now |
| SignalEmit.ReachableLocked | BLObject.h:140-157 | in every reachable state each asynchronous emit under way holds its signal's lock and every lock is held by such an emit |
| SignalEmit.LockExcludes | BLObject.h:140-157 | two asynchronous emits of one signal are never under way together |
| SignalWalks.WalkInOrder | BLObject.h:140-175 | an emit walks the member functions by ascending address and then the lambdas as they stand in the vector, every connection of the signal and no other |
| SignalWalks.OneWalk | BLObject.h:140-175 | every signal can be walked, and in one order only |
| SignalWalks.EmitServesWalk | BLObject.h:140-170 | an emit that begins has the connections of its signal to serve, in the order of the walk |
| SignalWalks.EmitCanEnd | BLObject.h:140-177 | an emit under way can always go on to its end, where it gives the lock back |
| SignalWalks.ConnectAdds | BLObject.h:124-138 | connect adds one connection with a new and empty slot, replacing one under the same key |
| SignalWalks.DisconnectForgets | BLObject.h:179-189 | disconnect takes away one connection and its slot and no other, and no later walk meets the slot; an unknown function changes nothing |
| SignalWalks.ClearForgets | BLObject.h:190-201 | after Clear the signal has no connection, its slots are gone and its walk is empty; other signals keep theirs |
| SignalEmit.WholeEmit | BLObject.h:140-177 | a whole emit, whatever interleaves: each slot connected when it began got the argument exactly once, in the order of the walk, and each push was followed by exactly one event on the loop of the thread the connection's object was then bound to or, for a synchronous emit, by exactly one call; during an asynchronous one the signal's connections stay what they were |
| SignalEmit.EmitsInOrder | BLObject.h:140-157 | of two asynchronous emits of one signal the earlier has pushed to every slot of its walk before the later begins, so all shared slots see them in the same order |
| SignalSync.SyncTakesOwn | BLObject.h:171-175 | whatever comes between push and call, the call takes the oldest argument not yet taken, and this is its own push if and only if as many other calls came in between as arguments were queued |
| SignalSync.SyncAlone | BLObject.h:171-175 | with an empty queue and nobody else pushing to the slot, the emitted argument is delivered |
| SignalSync.CrossedCalls | BLObject.h:159-177 | two synchronous emits that push and then call in opposite order deliver each other's arguments |
| SignalSync.EmitsCanCross | BLObject.h:159-177 | such a crossing is reached from the start of the program |
| SignalReconnect.ReconnectRetires | BLObject.h:124-131 | after a second connect no emit begun later serves the old slot, which is never deleted |
| SignalReconnect.OldSlotExactly | BLObject.h:124-131 | after a second connect some continuation pushes to the old slot if and only if some emit under way then had an entry for it yet to push |
| SignalReconnect.OldSlotServedInARun | BLObject.h:163-175 | such a run from the start of the program |
| Signals.UninterruptedCall | BLObject.h:75-86 | push and call with nothing in between take an argument equal to the one pushed if and only if the queue was empty or its head equal |
| Signals.Slot.Add | BLObject.h:75-77 | the argument joins the end of the slot's queue |
| Signals.Slot.Call | BLObject.h:80-86 | the callback gets the front argument, which leaves the queue |
| Signals.CoreData.Turn | BLEventLoop.cpp:23-34 | some queued event is removed and exactly its slot is called |
| Signals.LoopObject.constructor | BLObject.h:95-98 | a constructed object has the loop registered for its thread |
| Signals.LoopObject.AddToEventLoop | BLEventLoop.cpp:56-65 | the object's loop gets exactly one event more |
| Signals.Registry.SetObjectThread | BLEventLoop.cpp:67-91 | the loop of the thread, made on first use only, everything else unchanged |
| Signals.AscendingKeys | BLObject.h:140-148 | the slot map is walked in ascending order of address, every key once |
| Signals.WalkIsComplete | BLObject.h:140-157 | the walk over map and vector meets every connection, and no slot twice |
| Signals.SignalObject.Connect | BLObject.h:124-131 | a fresh slot under the function's address, replacing an earlier one |
| Signals.SignalObject.ConnectLambda | BLObject.h:133-138 | a fresh slot at the end of the vector |
| Signals.SignalObject.Emit | BLObject.h:140-157 | member functions by ascending address, then the lambdas in order: each slot gets the argument and then its event is posted, and nothing else happens; every loop gets exactly one event per connection bound to it |
| Signals.SignalObject.EmitSync | BLObject.h:159-177 | when no other thread steps in: member functions by ascending address, then the lambdas in order, each slot is given the argument and then called once; no loop gets an event |
| Signals.SignalObject.Disconnect | BLObject.h:179-189 | exactly the named connection goes and its slot is deleted, pending events or not; an unknown name changes nothing |
| Signals.SignalObject.Clear | BLObject.h:190-201 | no connection is left and every slot is deleted, pending events or not |
| Wire.Int32Survives | lib/protobuf/include/google/protobuf/wire_format_lite.h:1377-1439 | sign extension then truncation is the identity on int32 and enums |
| Wire.ConversionsAreModular | lib/protobuf/include/google/protobuf/wire_format_lite.h:1377-1439 | conversions between signed fields and unsigned varints stay in range and are congruent modulo 2^64 or 2^32 |
| Wire.VarintBytes | lib/protobuf/include/google/protobuf/io/coded_stream.h:898-922 | byte i carries seven bits from bit 7 * i on, every byte but the last has its top bit set, and there are as few bytes as the number needs |
| Wire.ReadVarintValue | lib/protobuf/include/google/protobuf/parse_context.h:537-552 | a varint at the front of the input is read as the sum of its bytes' low seven bits times powers of 128 |
| Wire.ReadVarintOnly | lib/protobuf/include/google/protobuf/parse_context.h:537-552 | whatever is read ends at the first byte without its top bit, within the limit |
| Wire.ReadersExact | lib/protobuf/include/google/protobuf/parse_context.h:537-732 | what each reader makes of a varint: ten bytes modulo 2^64 or 2^32, five bytes modulo 2^32 for tags, five bytes up to INT_MAX - 16 for lengths |
| Wire.ReadersFail | lib/protobuf/include/google/protobuf/parse_context.h:537-732 | without a varint of at most ten bytes at the front every reader fails |
| Wire.VarintRoundTrip | lib/protobuf/include/google/protobuf/parse_context.h:537-552 | a varint of enough bytes is read back, with the rest of the input untouched |
| Wire.Varint64RoundTrip | lib/protobuf/include/google/protobuf/parse_context.h:722-732 | every 64-bit number is read back, or truncated to 32 bits by ReadVarint32 |
| Wire.TagRoundTrip | lib/protobuf/include/google/protobuf/parse_context.h:560-577 | every 32-bit tag is read back |
| Wire.SizeRoundTrip | lib/protobuf/include/google/protobuf/parse_context.h:700-715 | a length is read back if and only if it is within the limit |
| Wire.VarintSizeIsLength | lib/protobuf/include/google/protobuf/io/coded_stream.h:1744-1758 | the logarithm formula for the size of a varint is its length |
| Wire.UnknownFormat | lib/protobuf/include/google/protobuf/wire_format_lite.h:105-112 | the bytes of each kind of unknown field, with its wire type spelled out |
| Wire.UnknownFieldExact | lib/protobuf/include/google/protobuf/parse_context.h:881-925 | which field, if any, any bytes after a tag are read as, for every wire type but groups |
| Wire.UnknownRoundTrip | lib/protobuf/include/google/protobuf/parse_context.h:881-925 | every unknown field, nested groups included, is read back from its serialization |
| Wire.GroupRoundTrip | lib/protobuf/include/google/protobuf/parse_context.h:430-440 | so are the fields of a group up to its end tag |
| Wire.GroupEndsWithItsTag | lib/protobuf/include/google/protobuf/parse_context.h:430-440 | a group that is read ends with its own end tag, inside the input |
| Wire.NestingLimit | lib/protobuf/include/google/protobuf/parse_context.h:430-440 | the nesting limit refuses exactly the fields nested deeper and changes nothing else |
| Wire.ParsedFieldOk | lib/protobuf/include/google/protobuf/parse_context.h:881-925 | whatever is read as an unknown field can be written and read again |
| Wire.ParseFieldMore | lib/protobuf/include/google/protobuf/parse_context.h:881-925 | what follows a field does not change how it is read |
| Wire.UnknownsSizeIsLength | lib/protobuf/include/google/protobuf/wire_format.h:174-210 | the computed size of the unknown fields, groups included, is what serializing them takes |
| Wire.NumberChunkSize | lib/protobuf/include/google/protobuf/wire_format_lite.h:1738-1765 | the computed size of a numeric field is its length |
| Wire.BytesChunkSize | lib/protobuf/include/google/protobuf/wire_format_lite.h:1813-1820 | the computed size of a bytes field is its length |
| Output.WriteVarint | lib/protobuf/include/google/protobuf/io/coded_stream.h:898-922 | writes the varint at the output pointer and nothing else: seven bits a byte, low ones first, the top bit on all bytes but the last |
| Output.WriteBytes | lib/protobuf/include/google/protobuf/io/coded_stream.h:706-717 | writes a non-empty bytes field with tag and length, and nothing for an empty one |
| Output.WriteNumber | lib/protobuf/include/google/protobuf/wire_format_lite.h:1377-1439 | writes a non-zero numeric field sign-extended, and nothing for zero |
| FileCodec.FileFormat | proto/datacode.pb.cc:575-625 | the bytes of a message: which fields are written, in what order, with which tags, and how |
| FileCodec.NumberFieldExact | proto/datacode.pb.cc:509-551 | a number field takes any varint of up to ten bytes, reduced to its width |
| FileCodec.EndTagStops | proto/datacode.pb.cc:555-560 | a zero tag or an end-group tag ends the loop and leaves what follows alone |
| FileCodec.ParseMerges | proto/datacode.pb.cc:494-708 | parsing a serialized message into another merges it, and fails exactly on over-long bytes fields |
| FileCodec.RoundTrip | proto/datacode.pb.cc:494-625 | a message equals the parse of its serialization if and only if its bytes fields are within the limit |
| FileCodec.ConcatenationMerges | proto/datacode.pb.cc:494-708 | parsing two serializations in a row is merging the messages |
| FileCodec.ByteSizeIsLength | proto/datacode.pb.cc:627-672 | ByteSizeLong is the length of the serialization |
| FileLaws.ParseContinues | proto/datacode.pb.cc:494-573 | parsing a concatenation is parsing its first part and going on with the second |
| FileLaws.ReserializeStable | proto/datacode.pb.cc:494-625 | a message read from any bytes is unchanged by writing and reading it again |
| FileLaws.ParseOverlay | proto/datacode.pb.cc:494-573 | parsing sets exactly the fields that occur and appends the unknown ones |
| FileLaws.ConcatenationExact | proto/datacode.pb.cc:494-708 | for any two encodings the last occurrence wins, which is the merge if and only if no set field is spelled out as default |
| FileLaws.ExplicitDefaultErases | proto/datacode.pb.cc:536-543 | total = 1 followed by total = 0 on the wire is not the merge |
| FileMessages.FileMessage.Clear | proto/datacode.pb.cc:480-492 | every field at its default |
| FileMessages.FileMessage.ParseOne | proto/datacode.pb.cc:498-573 | one field in place is TakeField |
| FileMessages.FileMessage.InternalParse | proto/datacode.pb.cc:494-573 | the parse loop in place is Parse, and fails or stops when it does |
| FileMessages.FileMessage.ParseFromString | proto/datacode.pb.cc:480-573 | succeeds exactly when the whole input parses into the default message |
| FileMessages.FileMessage.ByteSizeLong | proto/datacode.pb.cc:627-672 | the number of bytes InternalSerialize writes |
| FileMessages.FileMessage.InternalSerialize | proto/datacode.pb.cc:575-625 | writes exactly the serialization at the output pointer and returns its end |
| FileMessages.FileMessage.MergeFrom | proto/datacode.pb.cc:681-708 | the message in place becomes the merge |
| FileMessages.FileMessage.CopyFrom | proto/datacode.pb.cc:710-715 | becomes equal to the other; copying itself changes nothing |
| Packages.PackageFormat | proto/datacode.pb.cc:284-308 | the bytes of a package: which fields are written, in what order, with which tags |
| Packages.EndTagStops | proto/datacode.pb.cc:264-269 | a zero tag or an end-group tag ends the loop and leaves what follows alone |
| Packages.ParseMerges | proto/datacode.pb.cc:237-357 | parsing a serialized package into another merges it, and fails exactly on over-long fields |
| Packages.RoundTrip | proto/datacode.pb.cc:237-308 | a package equals the parse of its serialization if and only if its fields are within the limit |
| Packages.ConcatenationMerges | proto/datacode.pb.cc:237-357 | parsing two serializations in a row is merging the packages |
| Packages.ByteSizeIsLength | proto/datacode.pb.cc:310-333 | ByteSizeLong is the length of the serialization |
| PackageLaws.ParseContinues | proto/datacode.pb.cc:237-282 | parsing a concatenation is parsing its first part and going on with the second |
| PackageLaws.ReserializeStable | proto/datacode.pb.cc:237-308 | a package read from any bytes is unchanged by writing and reading it again |
| PackageLaws.ParseOverlay | proto/datacode.pb.cc:237-282 | parsing sets exactly the fields that occur and appends the unknown ones |
| PackageLaws.ConcatenationExact | proto/datacode.pb.cc:237-357 | for any two encodings the last occurrence wins, which is the merge if and only if no set field is spelled out as empty |
| Packages.PackageMessage.Clear | proto/datacode.pb.cc:226-235 | every field at its default |
| Packages.PackageMessage.InternalParse | proto/datacode.pb.cc:237-282 | the parse loop in place is Parse, and fails or stops when it does |
| Packages.PackageMessage.InternalSerialize | proto/datacode.pb.cc:284-308 | writes exactly the serialization and returns its end |
| Packages.PackageMessage.MergeFrom | proto/datacode.pb.cc:342-357 | the package in place becomes the merge |
| Packages.PackageMessage.CopyFrom | proto/datacode.pb.cc:359-364 | becomes equal to the other; copying itself changes nothing |
| Boxes.BoxIndex.ReadInto | utils/Box.hpp:16-25 | copies and passes the next min(n, left) bytes of the box |
| Boxes.BoxIndex.ReadString | utils/Box.hpp:27-36 | returns and passes the next min(n, left) bytes of the box |
| Boxes.ReadBoxQueue.constructor | utils/Box.hpp:185-187 | an empty queue with an arbitrary counter |
| Boxes.ReadBoxQueue.Push | utils/Box.hpp:121-124 | the stream grows by the box, which may be empty |
| Boxes.ReadBoxQueue.Length | utils/Box.hpp:172-174 | for a stream that fits the counter, equals the unread total if and only if the counter started at zero |
| Boxes.ReadBoxQueue.NextBoxIndex | utils/Box.hpp:176-184 | points at the first box left, if any, without losing a byte |
| Boxes.ReadBoxQueue.AfterRead | utils/Box.hpp:125-171 | after an exhausted box the cursor moves on and the counter follows |
| Boxes.ReadBoxQueue.ReadString | utils/Box.hpp:149-171 | returns exactly the first min(n, total) bytes whatever the chunking, and leaves the rest |
| Boxes.ReadBoxQueue.ReadInto | utils/Box.hpp:125-146 | stores the same bytes in the buffer, and touches nothing beyond them |
| Boxes.RunQueue | utils/Box.hpp:119-187 | any calls on a queue in any state hand out and leave what the flat byte queue does, and no byte is lost, repeated or reordered |
| Boxes.RunFromStart | utils/Box.hpp:119-187 | from the constructor, whatever the counter holds, the bytes read followed by those left are the bytes pushed |
| Boxes.ReadTwice | utils/Box.hpp:149-171 | read(a) then read(b) on a queue is read(a + b) |
| Boxes.ReadsAgree | utils/Box.hpp:125-171 | two queues with the same bytes in different boxes: two string reads on one equal one buffer read on the other |

## Left out

- ByteArray.PByteArray.Push: lengths are nonnegative and the block size at least 1.
- Machine-integer overflow of positions and sizes in PByteArray; they are natural numbers.
- Cells outside the live region of the ring: duplicating a block leaves stale bytes there.
- Sockets, epoll, partial sends, closing connections and messages split over boxes. A message arrives whole; a box is short, foreign or holds one message.
- Task expiry and a second task for the same address (linux/BLP2P.cpp:132-191).
- `readReady.Clear()` is taken to discard the deliveries pending on the socket as well.
- `SlotRead`, `connect` and `SetSeverSocket` are mutually atomic steps. In the program `SetSeverSocket` runs on the epoll thread, through `connected.emit(true, ...)` (linux/BLLinuxTCPSocket.cpp:259), with nothing to exclude the others.
- SignalSteps.Next: disconnect and Clear wait until nothing of the slot is pending, because the queued pointers would dangle; what a loop does with such a pointer is undefined. The methods of the signal object delete such slots as the program does.
- Signals.SignalObject.EmitSync: states an emit with no other thread in between, as a sequential method can; the interleaved steps are those of SignalSync.
- Wakeups of `exec` on an empty queue (by `waitQuit` or spuriously) and the exit flag: an event is taken only when there is one.
- Priorities: all slot events have the same one, so any queued event may be on top.
- `addArg` takes no lock; it is one atomic step.
- SignalDelivery.EverythingCanBeDelivered: says that delivery stays possible, by threads already in the loops or new ones, not that a scheduler performs it.
- `Thread::start`, `Bind`, `supercast`, timers, logging, error tables, TLS wrappers and the macOS sources.
- FileCodec.RoundTrip: bytes fields of 2^32 bytes and more, whose length prefix is truncated, are not covered; unknown fields are those a message can hold, readable and of no known tag.
- `ReadSizeFallback` and the other out-of-line parts of the protobuf runtime are not part of this model; the length limit is INT_MAX less the slop bytes, and truncated input is a failure.
- Protobuf arenas, reflection, cached sizes and the content of a message after a failed parse. Fixed-width unknown values are kept as their raw bytes.
- Null boxes in ReadBoxQueue.
