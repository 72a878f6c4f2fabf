# Cimabue, verified

Cimabue is a small chat system: one server, any number of clients, text
messages relayed by nickname. This project models it in Dafny and proves what
its pieces are for:

* **Codecs.** The tokenizer loop that occurs three times in the sources, the
  `-` separated wire format with its byte-at-a-time framing into a 4096 byte
  buffer, the `nick:ip:port` record, the counted roster list and the
  `nick@text` payload. Each decoder is compared with its encoder, and each
  comparison says for exactly which inputs the round trip succeeds.
* **Threads.** The dispatcher with two queues and one semaphore, and the lock
  protocol of the server's two threads, as state machines whose steps are the
  queue, semaphore and mutex operations.
* **Rosters.** The server's three maps, the broadcasts that keep every
  client's nickname to name map in step with them, the ping round and the
  timeout sweep. Broadcasts travel as characters through the codecs above.
* **Runs.** A state machine of the whole system (processes start and crash,
  register, retry, are pinged, time out and send text), with theorems about
  all of its runs, and finer machines in which registrations and removals
  interleave region by region of the server's locks.

Classes mirror the sources' classes. Every method is proved against a function
on values (`Register`, `SweepFrom`, `Down`, `Wire`, ...), and the theorems are
about those functions.

| file | what it holds |
|---|---|
| CppString, KeyOrder, Decimal | `std::string` with `npos` and wrap-around, `std::map` order, `%d` and `atoi` |
| Tokenizer | the loop, and the runs it computes |
| Message, WireFormat, Transcript | the class and its `Recv`, the round trips, every message of the protocol as it is written |
| NodeData, RosterText | address records and roster lists |
| MessageQueue, Dispatcher, Locks | the threads |
| Registry, Server, Client | maps, broadcasts, sweep; the classes |
| Network, RosterUpdates, Rosters | a broadcast at every receiver; rosters and views |
| Delivery, DefinedTexts | one text message, end to end; which texts have a result at all |
| Protocol, JoinEffects, SystemRuns, Theorems, Views, Overruns, Timing | the system and its runs |
| Interleaving, RosterTraces, RosterRace, SameNameRace | registrations against removals |
| Meeting, Scenarios | runs in which clients meet and talk, and runs in which the code falls short |

`dafny verify dfyconfig.toml` checks everything.

## Where code and intention part

Where a member is named, it says exactly when the code does what it should, or
exhibits a run in which it does not.

* A string with a leading separator is tokenized into its remainder followed by
  the tokens: `:a:b` gives `a:b`, `a`, `b` (`Tokenizer.TokensAreRunsIff`,
  `Tokenizer.LeadingSeparatorTokens`). A string of separators only makes `substr`
  throw.
* A message survives framing up to 4114 characters, although only 4096 are read:
  what a full buffer cuts off first is the constant priority field. From 4097 on
  the rest stays in the stream (`WireFormat.WireRoundTrip`).
* Not every text that can be typed has a result. `|` leaves the server one token
  short, `@` leaves the receiver without a text, and a first run of 1024
  characters or more overruns the receiver's event; `a-b|c` does have a result,
  `a` (`DefinedTexts.DefinedIffUnderstood`, `Meeting.NobodySendsABar`).
* A text that is answered by an error has no result either: `sendMessage` reports
  the error by casting its own return code to a message. So a client gets
  through with texts to clients that run at their registered address, and with
  texts to nicknames it does not know (`DefinedTexts.SucceedsIff`,
  `DefinedTexts.DefinedTextIff`; a run: `Meeting.NobodyToTalkTo`). Runs of the
  system contain only texts with a result at sender, server and receiver.
* The comment at `cimabue-client/src/CimabueClient.h:54` calls the client's list
  the connected clients apart from itself. The list sent to a registering client
  contains that client, so its roster mirrors the server's whole map.
* A client that registers again under a name the server had removed keeps the
  entries it had (`insert` does not overwrite), so its roster stays wrong if one
  of them is (`JoinEffects.JoinAgreesIff`, `JoinEffects.JoinSoundIff`; a run:
  `Scenarios.ReturnKeepsStaleEntry`).
* A repeated attempt to register leaves all rosters right, but enters every
  nickname a second time into the retrying client's view, and that client's
  nickname a second time into everybody else's (`Theorems.ViewRefinementIff`,
  `Views.AllViewsIff`; a run: `Scenarios.RetryDoublesViews`).
* If the broadcast of a registration falls between the broadcast of a removal
  and that removal's last erasure, the registering client is sent an entry for
  the removed client that nobody takes back (`RosterTraces.TraceAgreesIff`,
  `RosterRace.OverlapAgreesIff`; a run: `Scenarios.GapLeavesStaleEntry`).
* If a client registers again while it is being removed, it can be left in some
  of the three maps only (`SameNameRace.SameNameRaceIff`; a run:
  `Scenarios.RetryIsHalfRemoved`).
* The ping loop stamps an answering client through an iterator that is past the
  end if the client is missing from the ping list. Without any race for one name
  that is so between the first and the second region of every first registration
  (`Interleaving.PingListIff`, `Interleaving.PingListBehind`); after a race for
  one name it can stay so.
* Clients never acknowledge `MSG_UPDATE_REM_CLIENTS`, so the server's `Send` gets
  an error, which it ignores.
* `clientNicknameToName` maps names to nicknames.

## Model

| member | source | states |
|---|---|---|
| `Tokenizer.Tokenize` | libcimabue/src/nodes/Node.cpp:362-378 | the loop terminates on every string and returns `Tokens`: the maximal separator-free runs in order; with a leading separator the remainder first; nothing but separators throws |
| `Tokenizer.RunsUnique` | libcimabue/src/nodes/Node.cpp:362-378 | independent meaning of the runs: however a string is written as delimited tokens and gaps, its runs are those tokens |
| `Tokenizer.RunsExist` | libcimabue/src/nodes/Node.cpp:362-378 | ... and every string can be written so |
| `Tokenizer.TokensAreRunsIff` | libcimabue/src/nodes/Node.cpp:364-372 | the loop returns the maximal runs if and only if the string has no leading separator |
| `Tokenizer.LeadingSeparatorTokens` | libcimabue/src/nodes/Node.cpp:364-372 | what a leading separator does: `:a:b` yields `a:b`, `a`, `b`, the first of which is no token |
| `Tokenizer.TokensOfJoin` | libcimabue/src/message/Message.cpp:314-324 | tokenizing a join of non-empty separator-free tokens is the identity |
| `KeyOrder.Keys` | cimabue-server/src/CimabueServer.cpp:291-292 | an iterator visits each key of a `std::map<string, ...>` once, in the order of `KeyOrder.BeforeIff` |
| `KeyOrder.BeforeIff` | cimabue-server/src/CimabueServer.cpp:291-292 | the order is the lexicographic one: behind a common prefix the one string ends or has the smaller character |
| `KeyOrder.KeysAscend` | cimabue-server/src/CimabueServer.cpp:323-330 | of two keys in the list the earlier one is lexicographically smaller |
| `Decimal.AtoiPrint` | cimabue-server/src/CimabueServer.cpp:316-319 | `atoi` reads back the number that `%d` printed |
| `Decimal.PrintIs` | cimabue-server/src/CimabueServer.cpp:316-319 | decimal numerals: digits without leading zeros, the last one being the remainder by ten |
| `Decimal.AtoiEdges` | cimabue-client/src/CimabueClient.cpp:179-182 | `atoi` skips a blank, takes a sign and makes 0 of what is no number |
| `Decimal.UnsignedIs` | cimabue-client/src/CimabueClient.cpp:182 | a negative count wraps around modulo 2 to the 32 |
| `Messages.Message.CopyTo` | libcimabue/src/message/Message.cpp:206-215 | the target becomes an equal message |
| `Messages.Message.Serialize` | libcimabue/src/message/Message.cpp:291-308 | the result is the join of the seven fields with `-`, ended by a bar |
| `Messages.Message.Deserialize` | libcimabue/src/message/Message.cpp:310-340 | the message becomes the decoded one, or stays as it was where the code has no defined result |
| `Messages.Message.Recv` | libcimabue/src/message/Message.cpp:51-96 | consumes up to the first bar or 4096 characters, cuts at a NUL, and becomes the decoded message; at an early end of the stream it is unchanged and the code is an error |
| `WireFormat.TypesRoundTrip` | libcimabue/src/message/Message.cpp:342-417 | every type but `MSG_SET_CLIENT_LIST` survives `decodeType` and `encodeType`, whose texts contain no reserved character |
| `WireFormat.WireRoundTrip` | libcimabue/src/message/Message.cpp:51-96 | whatever follows in the stream, `Recv` gives the message back if and only if its fields are non-empty and clean, its type is known, its priority normal and its length at most 4114; longer ones have no result; exactly the message is consumed if and only if the length is at most 4096 |
| `WireFormat.IncompleteIff` | libcimabue/src/message/Message.cpp:51-96 | a stream ends before a message does if and only if it has no bar and fewer than 4096 characters |
| `WireFormat.StreamRoundTrip` | libcimabue/src/message/Message.cpp:51-96 | a concatenation of messages of at most 4096 characters is received as that sequence, leaving what follows |
| `WireFormat.RoutingHeader` | libcimabue/src/message/Message.cpp:310-340 | type and four addresses survive any data, of which the first maximal `-` free run arrives; without such a run there is no result |
| `WireFormat.ReceivedIsSafe` | libcimabue/src/message/Message.cpp:310-340 | whatever was serialized, a message received from it has only clean, non-empty fields |
| `Transcript.WireIs` | libcimabue/src/message/Message.cpp:291-308 | the fields in their order: type, source and destination client, source and destination server, data, and one constant for every priority |
| `Transcript.TypeTexts` | libcimabue/src/message/Message.cpp:372-416 | the text of each type |
| `Transcript.UnknownTypes` | libcimabue/src/message/Message.cpp:342-370 | any other text is read as `MSG_NONE` |
| `Transcript.RegistrationIs` | cimabue-client/src/CimabueClient.cpp:41-49 | a registration as characters |
| `Transcript.RegistrationReplyIs` | cimabue-server/src/CimabueServer.cpp:281-282 | its reply, naming client and server and returning the record |
| `Transcript.TextIs` | cimabue-client/src/CimabueClient.cpp:104-111 | a text, addressed to the name behind the nickname and to the server |
| `Transcript.ForwardedIs` | cimabue-server/src/CimabueServer.cpp:212-249 | the same when forwarded: from the server, to no server |
| `Transcript.PingIs` | cimabue-server/src/CimabueServer.cpp:73-74 | a ping |
| `Transcript.RemovalIs` | cimabue-server/src/CimabueServer.cpp:346-372 | a removal |
| `Transcript.EntryIs` | cimabue-server/src/CimabueServer.cpp:295-313 | a single new entry, with the count 1 |
| `Transcript.ListIs` | cimabue-server/src/CimabueServer.cpp:314-344 | the whole list |
| `Transcript.ListTextIs` | cimabue-server/src/CimabueServer.cpp:316-330 | the count, then entry by entry nickname and name, each behind a colon |
| `Transcript.ErrorIs` | cimabue-server/src/CimabueServer.cpp:171-178 | an error |
| `NodeData.ParseNickname` | libcimabue/src/nodes/Node.cpp:286-298 | the first token of the record, or nothing |
| `NodeData.ParseAddress` | libcimabue/src/nodes/Node.cpp:319-338 | second and third token as ip and port; which records are rejected and for which there is no result |
| `NodeData.ParseNicknameAndAddress` | libcimabue/src/nodes/Node.cpp:340-360 | all three at once, in agreement with the other two parsers |
| `NodeData.ParserEdges` | libcimabue/src/nodes/Node.cpp:319-360 | for records with no, one or only empty tokens, which are rejected and for which there is no result |
| `NodeData.RecordRoundTrip` | cimabue-client/src/CimabueClient.cpp:41-43 | for every 16 bit port the parsers recover nickname, ip and port from the client's record if and only if nickname and ip are non-empty and free of `:` and NUL |
| `NodeData.SpareTokens` | libcimabue/src/nodes/Node.cpp:319-338 | what follows the port in a record is ignored |
| `RosterText.WriteList` | cimabue-server/src/CimabueServer.cpp:316-330 | the loop writes the count and all pairs of the map in key order |
| `RosterText.ExtractNewClient` | cimabue-client/src/CimabueClient.cpp:317-338 | one pair and the data behind it, including the last pair, which leaves the void string |
| `RosterText.ExtractEdges` | cimabue-client/src/CimabueClient.cpp:317-338 | data without a separator is nickname and name at once; a separator at either end leaves that part empty |
| `RosterText.ListRoundTrip` | cimabue-client/src/CimabueClient.cpp:179-201 | the client reads exactly the pairs the server wrote if and only if no nickname or name contains `:`, in as many calls as pairs, ending with the void string |
| `MessageQueues.MessageQueue.Push` | libcimabue/src/message/MessageQueue.cpp:34-41 | appends at the end |
| `MessageQueues.MessageQueue.Pop` | libcimabue/src/message/MessageQueue.cpp:18-32 | takes the first entry, or reports an empty queue |
| `MessageQueues.MessageQueue.Size` | libcimabue/src/message/MessageQueue.cpp:43-46 | the number of queued entries |
| `MessageQueues.MessageQueue.Clear` | libcimabue/src/message/MessageQueue.cpp:48-54 | leaves the queue empty |
| `Dispatcher.Node.QueueRequest` | libcimabue/src/nodes/Node.cpp:236-243 | the listener's push is the machine's step: a message for the up port goes to the end of the up queue, any other to the end of the down queue |
| `Dispatcher.Node.NotifyProcessor` | libcimabue/src/nodes/Node.cpp:246 | so is its post |
| `Dispatcher.Node.WakeUp` | libcimabue/src/nodes/Node.cpp:148 | so is the return of `sem_wait` |
| `Dispatcher.Node.TakeDown` | libcimabue/src/nodes/Node.cpp:153 | ... the first pop, which may find nothing |
| `Dispatcher.Node.TakeUp` | libcimabue/src/nodes/Node.cpp:160 | ... the second |
| `Dispatcher.Node.Finished` | libcimabue/src/nodes/Node.cpp:155-163 | ... the end of a handler |
| `Dispatcher.RunKeeps` | libcimabue/src/nodes/Node.cpp:145-165 | over every interleaving the wake-ups to come cover the queued messages, although one wake-up may consume 0, 1 or 2 |
| `Dispatcher.PushedIsArrived` | libcimabue/src/nodes/Node.cpp:236-243 | over every interleaving each queue has been given exactly what arrived at its port, in order |
| `Dispatcher.OneWakeUpEach` | libcimabue/src/nodes/Node.cpp:229-247 | over every interleaving: wake-ups so far, semaphore and the post the listener may owe add up to the number of messages that arrived |
| `Dispatcher.OneRound` | libcimabue/src/nodes/Node.cpp:145-165 | one wake-up handles the oldest down message, if there is one, then the oldest up message, if there is one, and waits again |
| `Dispatcher.NoLostWakeUp` | libcimabue/src/nodes/Node.cpp:145-165 | in every interleaving, if the processor would block and the listener owes no post, both queues are empty and everything that arrived at a port has been handled by that port's handler |
| `Dispatcher.ExactlyOnceInOrder` | libcimabue/src/nodes/Node.cpp:229-247 | port by port, handled then in hand then queued is what arrived at that port: nothing lost, duplicated, reordered or given to the other handler |
| `Dispatcher.EverythingIsHandled` | libcimabue/src/nodes/Node.cpp:145-165 | from every reachable state between requests the processor alone hands all that arrived to the handler of its port before it blocks |
| `Locks.DeadlockFree` | cimabue-server/src/CimabueServer.cpp:62-130 | for any number of process and ping threads, clients and passes, some thread can move in every reachable state |
| `Locks.ServerNeverDeadlocks` | cimabue-server/src/CimabueServer.cpp:254-278 | the server's own two threads are never both blocked |
| `Locks.ProperLocking` | cimabue-server/src/CimabueServer.cpp:389-404 | no thread asks for a mutex it holds, only the owner unlocks, regions of one mutex exclude each other |
| `Locks.PathReaches` | cimabue-server/src/CimabueServer.cpp:62-130 | every lock region of both programs is reached from the start, the ping loop's nested one among them |
| `Locks.NothingElse` | cimabue-server/src/CimabueServer.cpp:107-130 | and the programs have no other step that takes or releases a mutex |
| `Locks.StampingHoldsTwo` | cimabue-server/src/CimabueServer.cpp:70-91 | a run in which the ping thread holds the mutexes of the name list and of the ping list at once |
| `Registries.RegisterKeeps` | cimabue-server/src/CimabueServer.cpp:251-283 | a registration keeps the three maps consistent and never changes an existing address |
| `Registries.UnregisterKeeps` | cimabue-server/src/CimabueServer.cpp:389-404 | so does a removal |
| `Registries.BroadcastCount` | cimabue-server/src/CimabueServer.cpp:285-344 | a broadcast contains a packet once if it is the one meant for its addressee, otherwise not at all |
| `Registries.BroadcastInOrder` | cimabue-server/src/CimabueServer.cpp:291-313 | its packets are in ascending order of their addressees, none of them twice |
| `Registries.RemovalTold` | cimabue-server/src/CimabueServer.cpp:346-372 | one removal is told exactly once to each of the others, and nothing else is told |
| `Registries.RemovedNotTold` | cimabue-server/src/CimabueServer.cpp:355-357 | nobody is told of their own removal |
| `Registries.PingedOnce` | cimabue-server/src/CimabueServer.cpp:70-82 | a ping round contains exactly one ping for each client, at its address |
| `Registries.SweepExact` | cimabue-server/src/CimabueServer.cpp:107-130 | for any clients and readings the sweep removes exactly those silent for more than 5e9 ns, from all three maps, and changes nothing else |
| `Registries.SweepSpares` | cimabue-server/src/CimabueServer.cpp:117 | check by check: a client stays in the maps if and only if the reading of its check is at most 5 000 000 000 past its stamp |
| `Registries.SweepTellsOnce` | cimabue-server/src/CimabueServer.cpp:107-130 | every survivor is told of every removed client exactly once, and of nobody else |
| `Registries.StampedExact` | cimabue-server/src/CimabueServer.cpp:64-104 | after the ping loop an answering client has the reading of its own turn, every other stamp is unchanged |
| `Server.CimabueServer.constructor` | cimabue-server/src/CimabueServer.cpp:12-30 | no client is known at the start |
| `Server.CimabueServer.ExecuteAddClient` | cimabue-server/src/CimabueServer.cpp:251-283 | for every record whose nickname can be parsed, all three maps gain the client, unless they have it; the reply, given field by field, names client and server and returns the record |
| `Server.CimabueServer.UpdateClientListAdd` | cimabue-server/src/CimabueServer.cpp:285-344 | sends, in the order of `KeyOrder.BeforeIff`, the whole list to the joiner and the one new entry to everybody else |
| `Server.CimabueServer.UpdateClientListRem` | cimabue-server/src/CimabueServer.cpp:346-372 | sends the removed name to everybody else, in key order |
| `Server.CimabueServer.RemoveClient` | cimabue-server/src/CimabueServer.cpp:389-404 | the client leaves all three maps |
| `Server.CimabueServer.ExecuteSendMessage` | cimabue-server/src/CimabueServer.cpp:212-249 | a known destination is sent the message under the server's name at its registered address and its reply is relayed; an unknown one is reported and nothing is sent |
| `Server.CimabueServer.ProcessDownMessage` | cimabue-server/src/CimabueServer.cpp:152-210 | answer, maps and packets for every message type and destination; a message for another server is answered "Wrong destination", and neither maps nor packets change |
| `Server.AnswerIs` | cimabue-server/src/CimabueServer.cpp:152-210 | which message gets which answer, field by field, and which gets none |
| `Server.EffectIs` | cimabue-server/src/CimabueServer.cpp:160-186 | only registrations change the maps, and only texts to known destinations are forwarded |
| `Server.CimabueServer.PingOne` | cimabue-server/src/CimabueServer.cpp:70-104 | one client is pinged at its address and stamped only if it answered |
| `Server.CimabueServer.PingClients` | cimabue-server/src/CimabueServer.cpp:62-105 | every client is pinged once, and the stamps are those of `StampedExact`, as long as every answering client is in the ping list |
| `Server.CimabueServer.Sweep` | cimabue-server/src/CimabueServer.cpp:107-130 | the maps lose exactly the clients whose check reads a clock more than 5 000 000 000 past their stamp; the packets are those of `SweepTellsOnce` |
| `Client.CimabueClient.ConnectToServer` | cimabue-client/src/CimabueClient.cpp:32-77 | the packets sent are one request for each error reply before the first good one, and one more; the server's name is taken from the good one |
| `Client.CimabueClient.SendText` | cimabue-client/src/CimabueClient.cpp:89-125 | an unknown nickname sends nothing; otherwise one request to the name behind it, and success exactly for a reply that is no error; an error reply has no result, because the report of it casts the return code to a message |
| `Client.CimabueClient.ExtractNicknameAndData` | cimabue-client/src/CimabueClient.cpp:298-315 | first and second token of the payload |
| `Client.CimabueClient.ProcessDownMessage` | cimabue-client/src/CimabueClient.cpp:127-248 | roster, events and reply for every message type; nothing for a message to somebody else |
| `Client.AnsweredIff` | cimabue-client/src/CimabueClient.cpp:127-207 | the client answers, with a blank message, if and only if the message is addressed to it and is a ping, an add message or a text with two tokens |
| `Client.ChangesOnly` | cimabue-client/src/CimabueClient.cpp:127-248 | messages to somebody else and messages of other types leave the client as it is; a text adds one event and changes nothing else |
| `Client.RoomForEvents` | cimabue-client/src/Event.h:30-31 | an event overruns its buffers if and only if the nickname has 128 characters or more or the text 1024 |
| `Client.EventTexts` | cimabue-client/src/Event.cpp:28-38 | an event shows what stands in front of the first NUL |
| `Client.EventsInOrder` | cimabue-client/src/CimabueClient.cpp:184-201 | one event for each entry, in the order of the list |
| `Client.CimabueClient.AddClients` | cimabue-client/src/CimabueClient.cpp:175-201 | each listed nickname is entered unless it is taken, and each raises an event |
| `Client.CimabueClient.RemoveClient` | cimabue-client/src/CimabueClient.cpp:209-233 | the first entry for the name goes, with one event |
| `Client.RemovesLeast` | cimabue-client/src/CimabueClient.cpp:215-232 | of several nicknames that lead to the name the lexicographically first goes, and only it |
| `Client.ConsoleView.Update` | cimabue-client/src/view/ConsoleView.cpp:55-80 | additions are appended, a removal takes the first occurrence |
| `Client.RemoveFirstCounts` | cimabue-client/src/view/ConsoleView.cpp:68-76 | exactly one occurrence goes, if there is one |
| `Client.ViewInOrder` | cimabue-client/src/view/ConsoleView.cpp:55-61 | a view lists joiners in the order in which they were announced |
| `Client.RemovalInOrder` | cimabue-client/src/view/ConsoleView.cpp:63-80 | a removal leaves the others in their order |
| `Network.BroadcastEffect` | cimabue-server/src/CimabueServer.cpp:291-313 | sent packet by packet over the wire, a broadcast changes each listed running client as its own message says, once, and nobody else |
| `RosterUpdates.AddEffect` | cimabue-server/src/CimabueServer.cpp:285-344 | the add broadcast, serialized, framed and parsed by everybody, enters the server's map at the joiner and the new pair at the others |
| `RosterUpdates.RemEffect` | cimabue-server/src/CimabueServer.cpp:346-372 | the remove broadcast removes one entry at everybody but the removed client |
| `Rosters.EachNameOnce` | cimabue-client/src/CimabueClient.cpp:215-232 | a name occurs at most once in a sound roster, which makes erasing the first match complete |
| `Rosters.MirrorsIff` | cimabue-client/src/CimabueClient.cpp:193 | a sound roster is the inverse of the server's map if and only if nicknames are distinct and none is missing |
| `Rosters.WholeListMirrors` | cimabue-client/src/CimabueClient.cpp:189-201 | the whole list makes a roster the inverse of the server's map if and only if nicknames are distinct and no earlier entry was wrong |
| `Rosters.WholeListLeast` | cimabue-client/src/CimabueClient.cpp:189-201 | whatever nicknames repeat, from the whole list an empty roster learns under each nickname the lexicographically least of the names that bear it |
| `Rosters.OneEntryMirrors` | cimabue-client/src/CimabueClient.cpp:189-201 | a single entry keeps it so if and only if its nickname is nobody else's |
| `Rosters.RemRoster` | cimabue-client/src/CimabueClient.cpp:215-232 | a removal keeps rosters sound and inverse to the map without the client |
| `Rosters.ViewKeptIffFresh` | cimabue-client/src/view/ConsoleView.cpp:55-61 | an add message keeps the view a permutation of the roster's keys if and only if each of its nicknames is new |
| `Rosters.RemKeepsView` | cimabue-client/src/view/ConsoleView.cpp:63-80 | a removal keeps it so |
| `Delivery.RaisedIff` | cimabue-client/src/CimabueClient.cpp:155-173 | the receiver raises exactly (nickname, text) if and only if the text is not empty and shorter than the event buffer and neither contains `@` |
| `Delivery.DeliveredIffPlain` | cimabue-client/src/CimabueClient.cpp:89-125 | request, forwarding, acknowledgement over the wire: sent to the registered address, raised as typed and reported as success if and only if the text is plain and the sender's nickname without `@` |
| `DefinedTexts.RequestRead` | libcimabue/src/message/Message.cpp:310-340 | of any text at all the server reads what comes before the first bar or NUL, as far as the buffer holds it, and has a result if and only if something other than `-` follows the first `-` of that; it forwards what precedes |
| `DefinedTexts.TextOutcome` | cimabue-server/src/CimabueServer.cpp:212-249 | what any text of a connected client leads to at the server, the receiver and the sender, with or without a result, whatever the nickname |
| `DefinedTexts.DefinedIffAnnounced` | cimabue-client/src/CimabueClient.cpp:298-315 | for every sender connected to a registered client that runs, there is a result if and only if, moreover, the piece forwarded makes a second token behind the nickname and the first two fit the event's buffers |
| `DefinedTexts.DefinedIffUnderstood` | cimabue-client/src/CimabueClient.cpp:155-173 | if the nickname is without `@`, that is so if and only if the piece forwarded has an `@` free run and its first is shorter than the event buffer; then that run is what is shown, and the sender returns success |
| `DefinedTexts.SucceedsIff` | cimabue-client/src/CimabueClient.cpp:113-124 | whoever bears the nickname: `sendMessage` returns success if and only if the server can read the text, the bearer is registered and runs at its registered address, and finds two tokens; otherwise there is no result |
| `DefinedTexts.DefinedTextIff` | cimabue-client/src/CimabueClient.cpp:113-124 | there is a result at sender, server and receiver if and only if, moreover, the event fits its buffers |
| `DefinedTexts.UnknownNickname` | cimabue-client/src/CimabueClient.cpp:95-100 | a text for an unknown nickname is an error and touches nobody |
| `DefinedTexts.OtherServer` | cimabue-server/src/CimabueServer.cpp:171-178 | a text whose sender knows the server under another name is not forwarded, changes nobody and has no result |
| `DefinedTexts.ShortTextUnderstood` | cimabue-client/src/CimabueClient.cpp:298-315 | for texts without bar and NUL below 1024 characters: if and only if something other than `@` comes before the first `-` |
| `DefinedTexts.BarIsNotUnderstood` | libcimabue/src/message/Message.cpp:338-339 | the text that is a single bar has no result |
| `DefinedTexts.AtIsNotUnderstood` | cimabue-client/src/CimabueClient.cpp:312-314 | nor has the one that is a single `@` |
| `DefinedTexts.BarMayBeUnderstood` | libcimabue/src/message/Message.cpp:310-340 | a bar behind a dash and more does no harm: `a-b`, a bar and `c` show as `a` |
| `JoinEffects.JoinAgreesIff` | cimabue-server/src/CimabueServer.cpp:251-344 | an attempt to register keeps all rosters inverse to the server's map if and only if it is a repeated one, or its nickname is unused and the joiner holds no wrong entry |
| `JoinEffects.JoinSoundIff` | cimabue-server/src/CimabueServer.cpp:251-344 | ... keeps them free of wrong entries if and only if the joiner holds none, also when nicknames repeat |
| `JoinEffects.JoinViewsIff` | cimabue-client/src/CimabueClient.cpp:189-201 | ... keeps the views in step if and only if it is the first |
| `SystemRuns.SweepKeeps` | cimabue-server/src/CimabueServer.cpp:107-130 | a sweep keeps the invariant, sound rosters, agreement and views, whoever it removes |
| `SystemRuns.PingKeeps` | cimabue-server/src/CimabueServer.cpp:62-105 | a ping round keeps the invariant and changes nothing but stamps |
| `SystemRuns.TextIs` | cimabue-server/src/CimabueServer.cpp:212-249 | any text at all, with a result or without, changes nothing but at most one event at one registered client |
| `SystemRuns.TextKeeps` | cimabue-server/src/CimabueServer.cpp:212-249 | every text message that the code has a result for keeps invariant, rosters and views |
| `Theorems.StepKeeps` | cimabue-server/src/CimabueServer.cpp:152-210 | every step of the system (texts without a result, including those answered by an error, are none) keeps the invariant; no step but a join can spoil rosters or views |
| `Protocol.JoinPossibleIff` | cimabue-server/src/CimabueServer.cpp:314-344 | in every state of the invariant an unconnected process can try to register if and only if the list it would be sent is received as it was written |
| `Protocol.ClockIs` | cimabue-server/src/CimabueServer.cpp:113 | after each step the clock is the last reading taken in it |
| `Theorems.StepAgreesIff` | cimabue-server/src/CimabueServer.cpp:251-372 | a step keeps agreement if and only if it is no join or a join in order |
| `Theorems.RosterAgreementIff` | cimabue-server/src/CimabueServer.cpp:251-372 | in every run the rosters of all registered clients are the inverse of the server's map after every step if and only if every join is in order |
| `Theorems.RosterAgreement` | cimabue-server/src/CimabueServer.cpp:251-372 | in particular with distinct nicknames and without returning names, whatever retries, crashes, pings, sweeps and texts with a result happen |
| `Theorems.RosterSafetyIff` | cimabue-client/src/CimabueClient.cpp:209-233 | even with repeated nicknames no registered client ever maps a nickname to a name the server does not have under that nickname if and only if nobody tries to register while holding such an entry |
| `Theorems.RosterSafety` | cimabue-client/src/CimabueClient.cpp:209-233 | in particular if no removed name returns |
| `Theorems.ViewRefinementIff` | cimabue-client/src/view/ConsoleView.cpp:55-80 | with distinct nicknames and without returning names every view is a permutation of its roster's keys after every step if and only if nobody registers twice |
| `Views.AllViewsIff` | cimabue-client/src/view/ConsoleView.cpp:55-80 | in every run, whether nicknames repeat, names return or rosters agree or not, the view of every process is a permutation of its roster's keys after every step if and only if no attempt to register tells anybody of a nickname he has an entry for |
| `Theorems.EndToEndDelivery` | cimabue-server/src/CimabueServer.cpp:212-249 | in whatever agreeing state a run ends, text from a connected client to the nickname of a registered one reaches that client at its address, raises the sender's nickname and the text and returns success if and only if the text is plain and the sender's nickname without `@` |
| `Theorems.TextEnabledIff` | cimabue-server/src/CimabueServer.cpp:212-249 | in such a state exactly the texts to a running client that are understood are steps of the system |
| `Theorems.AnyTextEnabledIff` | cimabue-client/src/CimabueClient.cpp:89-125 | after every run with sound rosters, whoever the bearer: a connected client's text is a step if and only if the nickname is unknown to it, or the server can read the text, the bearer runs at its registered address and the text can be announced there |
| `Overruns.NoOverruns` | cimabue-client/src/CimabueClient.cpp:189-230 | in every run, no event for an added or removed client has overrun its buffers (for texts this is what makes them steps) |
| `Timing.SweepSparesIff` | cimabue-server/src/CimabueServer.cpp:111-129 | a client outlives a sweep, unchanged, if and only if its check reads a clock at most 5 000 000 000 ns past its stamp |
| `Timing.RenewedSurvivesIff` | cimabue-server/src/CimabueServer.cpp:58-133 | a client that answered at its ping outlives the round if and only if its check comes at most 5 000 000 000 ns after that ping |
| `Timing.PongIff` | cimabue-client/src/CimabueClient.cpp:146-153 | a ping changes no process and is answered if and only if the client itself runs at its registered address |
| `Timing.SilentClientIsRemoved` | cimabue-server/src/CimabueServer.cpp:58-133 | a client registered before a sleep of more than 5e9 ns that is not heard afterwards and does not itself come back after its removal is gone after the next sweep, whatever else happens in between |
| `Interleaving.RegionsCompose` | cimabue-server/src/CimabueServer.cpp:251-283 | undisturbed, the lock regions make up registration and removal |
| `Interleaving.RegistryConsistency` | cimabue-server/src/CimabueServer.cpp:251-283 | in every interleaving of registrations and removals of different names the maps have the same keys except at the names in progress, and are consistent whenever both threads are idle |
| `Interleaving.PingListIff` | cimabue-server/src/CimabueServer.cpp:82-91 | between removals every client with an address is in the ping list if and only if no first registration stands between its first and second region |
| `Interleaving.PingListBehind` | cimabue-server/src/CimabueServer.cpp:254-269 | every first registration passes through such a moment |
| `Interleaving.FirstRegistrationWins` | cimabue-server/src/CimabueServer.cpp:256-257 | as long as a client stays registered its address does not change |
| `RosterTraces.TraceAgreesIff` | cimabue-server/src/CimabueServer.cpp:251-404 | in every interleaving of any number of registrations and removals, region by region and over the wire, by processes of distinct names and nicknames that do not come back: whenever both threads are idle, all rosters are the inverse of the server's map if and only if no registered client was ever sent the list between a removal's broadcast and its last erasure |
| `RosterRace.OverlapAgreesIff` | cimabue-server/src/CimabueServer.cpp:346-404 | for one registration, of whatever roster, against one removal of somebody else, every interleaving: all rosters agree afterwards if and only if the broadcast missed that gap and the roster had no wrong entry but one the removal still takes back |
| `RosterRace.OnlyTheGapMatters` | cimabue-server/src/CimabueServer.cpp:346-404 | for a client that was never registered or only retries: if and only if the broadcast missed the gap |
| `SameNameRace.SameNameRaceIff` | cimabue-server/src/CimabueServer.cpp:389-404 | for every interleaving of a registration with the removal of the same client: in which maps it ends up, and that they are consistent if and only if all three insertions came after their erasures or none did |
| `Meeting.CanJoin` | cimabue-client/src/CimabueClient.cpp:51-70 | with fewer than 14 clients registered the list always fits, and every unconnected process can register and is connected then |
| `Meeting.TwoMeet` | cimabue-server/src/CimabueServer.cpp:251-344 | any two new processes of different names and nicknames can register, and end up agreeing with the server's map of the two |
| `Meeting.MeetAndTalk` | cimabue-client/src/CimabueClient.cpp:89-125 | after that every plain text from one to the other arrives as typed and is reported as success |
| `Meeting.NobodySendsABar` | libcimabue/src/message/Message.cpp:338-339 | nor is a single bar a text that the system can take the step for, though `a-b`, a bar and `c` is one |
| `Meeting.NobodyToTalkTo` | cimabue-client/src/CimabueClient.cpp:115-119 | when the receiver has crashed, no text to it has a result for the sender |
| `Scenarios.ReturnKeepsStaleEntry` | cimabue-client/src/CimabueClient.cpp:193 | a run, pings before every sweep but all pongs lost, in which a client misses a removal because it had timed out itself, registers again and maps a nickname to a name the server does not have |
| `Scenarios.RetryDoublesViews` | cimabue-client/src/view/ConsoleView.cpp:55-61 | a run in which a reply is lost and the retry leaves both clients' views with nicknames listed twice |
| `Scenarios.GapLeavesStaleEntry` | cimabue-server/src/CimabueServer.cpp:346-404 | a reachable state with a client overdue because its pongs were lost, a client that is about to register there and a schedule after which the rosters do not agree |
| `Scenarios.RetryIsHalfRemoved` | cimabue-server/src/CimabueServer.cpp:389-404 | a reachable state with a client overdue because its reply and its pongs were lost, which is about to retry, and a schedule that leaves it with an address but without a ping entry |

## Left out

- Sockets, `select`, `accept`, interface lookup and timeouts: a connection is a sequence of characters, and `Send` delivers and then returns the reply or an error.
- Thread creation, joining and shutdown.
- Name generation from the clock: processes have distinct names of fewer than 128 characters without `-`, `|`, `:` and NUL, and the clock is an integer that does not go back.
- Nicknames with `-`, `|`, `:` or NUL, or for which nickname, address and port fill more than 127 characters, are in no run of the system: the first two garble the record on its way to the server, the colon makes it register another address (`RecordRoundTrip` is exact), the last overrun the client's buffer. Nicknames with `@` are in the runs; they only spoil their bearer's texts.
- One process per address: nobody starts where another process still listens.
- Unlocked reads of the maps (`haveClient`, `getClientAddress`, the nickname map in `updateClientListAdd`) and queue operations count as atomic.
- In the system machine a registration, a ping round and a sweep are single steps; Interleaving, RosterRace and SameNameRace take registration and removal apart, a ping round is never taken apart.
- Malformed data: where the code would take a token from an empty list, the value is `None`, `Malformed` or `Undefined` rather than a guess.
- Server.CimabueServer.Sweep: visits the names that were in the ping list when it started, because stepping an iterator whose entry was erased has no defined result.
- Server.CimabueServer.PingClients: requires every client that answers to be in the ping list, because the code has no defined result for a missing entry; `PingListIff` shows exactly when all are.
- Server.CimabueServer.ExecuteAddClient: requires that the nickname parser does not throw, which it does for a record of colons only.
- Server.CimabueServer.ProcessDownMessage: requires a registration's record to hold nickname, ip and port, because the broadcast that follows parses it, and the address parser has no defined result for less.
- Client.CimabueClient.ConnectToServer: requires that some attempt succeeds, because the loop goes on until then, and a record of at most 127 characters, because the buffer has no room for more.
- The order of the ping thread's steps: in the system machine pings, sweeps and sleeps come in any order, so that its runs contain those of the thread and more; the runs in Scenarios keep to the thread's order, leaving out its first pass, which finds no client.
- Theorems.RosterAgreementIff: runs in which the list for a joining client exceeds 4114 characters are excluded, because decoding such a message has no defined result (`WireRoundTrip`).
- Theorems.StepKeeps: texts without a result in the code are not among the steps (`DefinedTextIff` and `AnyTextEnabledIff` say which those are).
- RosterTraces.TraceAgreesIff: clients of distinct nicknames, none of which registers again after its removal, with lists that fit into a message.
- RosterRace.OverlapAgreesIff: one registration, under a nickname nobody has, and one removal, with lists that fit into a message.
- `atoi` of numbers beyond 32 bits, and counts of 2^31 and more.
- `processUpMessage`, `getServerAddress` and the server list: nothing is ever sent to the up ports.
- The numbers `processDownMessage` returns, which the dispatcher ignores.
- States and their managers, FileParser, logging, prompts and the connection events: fixed chains or output only.
- `MSG_SET_CLIENT_LIST` and priorities: not encoded on the wire.
- `portable_mutex` and its relatives in sync.h: not used by the modelled code.
