# Network and event-loop protocols, modelled and proved

This project models, in Dafny, the concurrent and asynchronous core of the repository and
proves properties of every run of it.

- **The framed transport** (`Bytes`, `Framing`, `WritePump`, `FrameReader`, `Link`, `Message`,
  `Transport`, `Handshake`, `Endpoint`, `Net`, `NetWitness`, `Incoming`, `Connection`): a
  challenge/response handshake, then a write pump and a read loop on each side of two byte
  wires.  `Endpoint` is the connection as a state machine, `Net` joins two of them, `Incoming`
  joins any number of such pairs at a server's shared queue, and `Connection` is the object
  that changes its fields in place; each of its handlers is one step of the machine.
- **The socket-notifier protocol** of the event dispatcher (`Notifier`, `NotifierSafety`,
  `NotifierTheorems`, `NotifierEvents`, `Dispatcher`): revision counters, a pending count and deferred deletion
  in place of selective cancellation.
- **The chat room** and its clients (`ChatMessage`, `ChatRoom`, `ChatNet`, `ChatObjects`): a
  decimal header, bounded history replayed on join, broadcast, and the same pump and read loop;
  `ChatNet` joins the room to its clients over byte wires.
- **The thread-safe queue** (`TsQueue`, `TsQueueObject`) and **the cancellable client**
  (`AsyncClient`, `AsyncClientEvents`, `AsyncClientObject`), instruction by instruction: a step is one lock, unlock,
  access, notify or sleep of one of any number of threads.
- **The server's connection table** (`ServerTable`, `ServerObject`) over whole runs.

Each protocol is a machine: a state, the events that can happen, and a `Step` function with
the branches of the code.  An invariant is proved for every step and hence for every run; the
main results are read off it.  The classes hold the same state in mutable fields, with the
machine's state in a ghost field or parameter, and every method that the event loop, a thread
or the application calls ends in the state that `Step` gives.  Fields called history in the
comments are not in the program; they record what has happened so that results can speak of it.  What
the environment was asked and what it answered is read from the events themselves
(`NotifierEvents`, `AsyncClientEvents`, `TableFromEvents`, `WrittenFromEvents`).

Proofs hide the definitions they do not need.  A short lemma with little or no body, often
called a shape or an effect, names the one fact that is wanted of a hidden definition.

## The environment

Posted closures and completion handlers run one at a time, in any order the event loop could
choose; any outstanding operation may fail.  A closed socket moves no bytes.  A composed read
or write moves exactly the bytes asked for or fails; bytes arrive in chunks of any size, in the
order in which the writes that carry them were initiated.  A header of the framed transport is
a 32-bit identifier and a 32-bit size, little-endian.  What the machine cannot know (the clock
reading behind a challenge, the answer of `OnClientConnect`, the codes with which operations
end) is a parameter of an event.

## Results worth knowing

- A zero-size message does not clear the receiver's scratch body
  (`src/network/NetCommon/net_connection.hpp:175-180`).  Delivery is therefore exact only
  through the header; `ForwardableAt` and `ForwardableIff` say exactly when received messages
  may be sent on as they are, `StaleReceived` reaches one that may not, and
  `StaleForwardDesynchronises` says what happens then.
- A client that sends before it has answered the challenge writes its messages into the
  handshake.  `HandshakeVerdict` gives the exact condition under which it is validated;
  otherwise it is refused (`EarlyClientRejected`) and delivers nothing.  If the header of its
  first message is the answer, messages can be misdelivered (`ForgedAnswerMisdelivers`); that is
  the only exception to `Network.EndToEnd`, and `QuiescentIff` says exactly when it occurs.
- The question in the comment at `src/qasioeventdispatcher.cpp:365`, what happens if a
  descriptor is registered again while old handlers are pending, is answered by
  `NoMisdelivery`, `SafeReclamation` and `ChainAlive`: nothing goes wrong.
  `DeliversToRegistered` and `SilentOnceUnregistered` say so in terms of the calls alone.  With
  an I/O error of its own the assertion in the cleanup loop can fail (`IoErrorBreaksAssertion`).
- `tsqueue::wait` can miss a wake-up.  `MissedItems` says exactly which items a sleeping
  consumer can be missing, `LostWakeup` reaches the state, and `CompletedPushSignals` shows
  that the next push repairs it.
- Cancelling one request of the asynchronous client twice can deadlock it for ever
  (`SecondCancelDeadlocks`, `DeadlockForever`); cancelling each at most once cannot
  (`NoDeadlock`).
- `MessageClient` resets the handle before it searches the deque for it, so a dead client stays
  in the deque and is reported again each time (`MessageOneEffect`).
- Connection identifiers stop increasing after 2^32 - 10000 approvals (`IdsWrap`).

## Model

| member | source | states |
|---|---|---|
| `Framing.ParseSound` | src/network/NetCommon/net_connection.hpp:170-200 | parsing a byte stream yields only well-formed frames, and these with the unparsed rest are the whole stream |
| `Framing.ParseConcat` | src/include/chat_message.hpp:81-91 | whatever follows, parsing a concatenation of frames returns those frames first |
| `Framing.PrefixCode` | src/network/NetCommon/net_connection.hpp:170-200 | frames form a prefix code: a byte prefix of a frame sequence is a prefix of the sequence |
| `Bytes.U32RoundTrip` | src/network/NetCommon/net_message.hpp:33-36 | a 32-bit header field is read back from its four bytes |
| `Bytes.U64RoundTrip` | src/network/NetCommon/net_connection.hpp:224-241 | a handshake word is read back from its eight bytes |
| `Bytes.U64BytesRoundTrip` | src/network/NetCommon/net_connection.hpp:224-241 | and eight bytes are written back from the word they are read as, so only one byte sequence is the answer |
| `Bytes.U32Layout` | src/network/NetCommon/net_message.hpp:33-36 | the four bytes of a header field, least significant first |
| `Bytes.U64Layout` | src/network/NetCommon/net_connection.hpp:224-241 | the eight bytes of a handshake word, least significant first: dividing it by 256 moves them up by one |
| `WritePump.StepKeepsInv` | src/network/NetCommon/net_connection.hpp:117-167 | every step of the pump (enqueue, bytes leaving, write completed or failed, a write from outside) keeps its invariant and changes what was accepted only by what was enqueued |
| `WritePump.SinglePump` | src/network/NetCommon/net_connection.hpp:117-167 | on every run at most one message write is outstanding, one exactly if the queue is non-empty and no write has failed; enqueued is popped plus queued, in order |
| `WritePump.SilentAfterFailure` | src/network/NetCommon/net_connection.hpp:145-149 | after the first failed message write the queue stays non-empty and no message byte is submitted or moved again, on any continuation |
| `WritePump.ProducedIsPrefix` | src/network/NetCommon/net_connection.hpp:131-167 | submitted plus not yet submitted is exactly the handshake prefix and the accepted messages, so the wire always carries a prefix of it |
| `FrameReader.StepKeepsInv` | src/network/NetCommon/net_connection.hpp:171-212 | every byte consumed is preamble, a delivered frame, or part of the read in progress |
| `FrameReader.ReaderParses` | src/network/NetCommon/net_connection.hpp:171-212 | while it waits for bytes, a read loop has handed over exactly the parse of what it consumed |
| `FrameReader.FramesArePrefix` | src/network/NetCommon/net_connection.hpp:171-200 | at any point, also after a failure, the frames handed over are a prefix of that parse |
| `FrameReader.AnyChunking` | src/network/server.cpp:114-149 | however arriving bytes are cut into chunks, the frames are those of the whole stream |
| `Link.FramesInOrder` | src/network/NetCommon/net_connection.hpp:117-212 | a pump and a read loop on one byte stream: the frames read are the first messages accepted, in order, once each, whatever the chunks and failures |
| `Handshake.ScrambleBijection` | src/network/NetCommon/net_connection.hpp:216-220 | scramble is a bijection of 64-bit words, undone by Unscramble |
| `Handshake.ScrambledDifference` | src/network/NetCommon/net_connection.hpp:216-220 | two answers differ, octet by octet, by the difference of their challenges with its nibbles exchanged |
| `Handshake.ScrambledZero` | src/network/NetCommon/net_connection.hpp:216-220 | the answer to challenge 0 is 0x8E4100A7BD0FF508, and every other answer differs from it by the challenge with the nibbles of each octet exchanged; this determines the function |
| `Handshake.ResponsesDistinct` | src/network/NetCommon/net_connection.hpp:245-258 | the answer a client computes for a challenge is accepted for that challenge and for no other |
| `Messages.MessageObject.Push` | src/network/NetCommon/net_message.hpp:54-70 | operator<<, in place: the value is appended to the body, header.size is the new length modulo 2^32, the identifier stays |
| `Messages.MessageObject.Pop` | src/network/NetCommon/net_message.hpp:73-88 | operator>>, in place: the body is cut into what is left and the bytes returned, header.size is the new length modulo 2^32 |
| `Messages.StackRoundTrip` | src/network/NetCommon/net_message.hpp:53-88 | for any values of any sizes, pushing all and popping in reverse returns every value and restores the message |
| `Messages.BuiltConsistent` | src/network/NetCommon/net_message.hpp:54-70 | a message built by << has header.size equal to its body length exactly if it stays below 2^32 bytes |
| `Transport.HeaderRoundTrip` | src/network/NetCommon/net_message.hpp:33-36 | a header is read back from its bytes |
| `Transport.HeaderLayout` | src/network/NetCommon/net_message.hpp:33-36 | a header is, byte by byte, the identifier and then the size, each least significant byte first |
| `Transport.FrameIffConsistent` | src/network/NetCommon/net_connection.hpp:131-167 | a written message is delimited by the receiver as the sender wrote it exactly if header.size is its body length |
| `Transport.FramesDecoded` | src/network/NetCommon/net_connection.hpp:171-212 | every well-formed frame is the frame of the message it is read as, so no two messages are written alike |
| `Transport.ReceivedAt` | src/network/NetCommon/net_connection.hpp:171-212 | message by message: a positive-size body arrives as sent, a zero-size one arrives with the body delivered before it |
| `Transport.ReceivedViews` | src/network/NetCommon/net_connection.hpp:171-212 | seen through their headers, the received messages are those sent |
| `Transport.ForwardableIff` | src/network/NetServer/SimpleServer.cpp:54-63 | received messages all have header.size equal to their body length exactly if no zero-size message followed a positive-size one |
| `Transport.ForwardableAt` | src/network/NetServer/SimpleServer.cpp:54-63 | message by message, what a forwarder can test: a received message may be sent on exactly if it has a body or no message before it had one |
| `Transport.StaleReceived` | src/network/NetCommon/net_connection.hpp:175-180 | two consistent messages after which the second is received with the body of the first |
| `Transport.StaleForwardDesynchronises` | src/network/NetCommon/net_connection.hpp:135 | forwarding one that has not breaks the framing: the stale body is parsed as the next header |
| `Endpoints.StepKeepsInv` | src/network/NetCommon/net_connection.hpp:75-267 | every step of a connection (handshake, pump, read loop, failures, close) keeps the endpoint invariant |
| `Endpoints.EndpointIsPump` | src/network/NetCommon/net_connection.hpp:117-167 | every connection step is at most one step of the shared pump |
| `Endpoints.ServerGate` | src/network/NetCommon/net_connection.hpp:239-256 | whatever the peer sends, a server validates and enqueues only after its first eight bytes were the scrambled challenge, and its challenge precedes all its message bytes |
| `Endpoints.ClosedIsSilent` | src/network/NetCommon/net_connection.hpp:145-149 | no handler opens a socket again, and given that a closed socket moves no bytes nothing else does, on any continuation |
| `Endpoints.ClosedBy` | src/network/NetCommon/net_connection.hpp:100-104 | a connection closes in exactly these steps: Disconnect, an operation that fails, a wrong answer |
| `Endpoints.WrittenListens` | src/network/NetCommon/net_connection.hpp:226-231 | when its handshake word is written a client begins to read headers, a server changes nothing else |
| `Network.EndToEnd` | src/network/NetCommon/net_connection.hpp:117-212 | in every reachable state of two endpoints and two wires, if header.size is the body length of every message sent, what each application was given is, through the headers, an in-order, exactly-once prefix of what the other passed to Send; the one exception (Spoilt) is a client that sends before it answers, whose first header happens to be the answer, and whose answer then cuts the following bytes where they do not commute with it |
| `Network.Conservation` | src/network/NetCommon/net_connection.hpp:117-212 | in both directions consumed, on the wire, in the socket, queued and posted add up to exactly the handshake word and then everything sent; for a client that sent before answering, to everything sent with the answer somewhere inside |
| `Network.HandshakeVerdict` | src/network/NetCommon/net_connection.hpp:75-98 | a client that answers first is always validated; one that sends first exactly if its first header happens to be the answer |
| `NetworkWitnesses.EarlyClientRejected` | src/network/NetCommon/net_connection.hpp:75-98 | for every challenge and first message whose header is not the answer there is a run on which a client that sends first is rejected and its connection closed |
| `NetworkWitnesses.ForgedAnswerMisdelivers` | src/network/NetCommon/net_connection.hpp:244-255 | the exception of EndToEnd is reached: a run on which the header of the first message is taken for the answer and the second message is delivered as the first |
| `Network.QuiescentExactlyOnce` | src/network/NetCommon/net_connection.hpp:75-267 | with nothing left to do, both sockets open, and no header taken for the answer, the client is validated, it answered before it sent, and both applications have exactly what was sent |
| `Network.QuiescentIff` | src/network/NetCommon/net_connection.hpp:75-267 | with nothing left to do and both sockets open, the server has exactly what the client sent if and only if the exception of EndToEnd has not occurred |
| `Network.StackOverTheWire` | src/network/NetCommon/net_message.hpp:53-88 | on every run, values pushed with << at one end are popped with >> from the message delivered at the other, in both directions |
| `Link.Settled` | src/network/NetCommon/net_connection.hpp:117-212 | when the pump has written everything and nothing is on the wire, the frames read are exactly the messages accepted |
| `IncomingQueues.SharedDelivery` | src/network/NetCommon/net_connection.hpp:203-212 | in the incoming queue that all connections of a server share, and in what Update has taken from it, the messages of each connection are an in-order, exactly-once prefix of what its client sent, however the connections interleave |
| `IncomingQueues.TakenInOrder` | src/network/NetCommon/net_server.hpp:141-149 | the shared queue is first in, first out: taken and queued together only grow at the end, and each pop moves exactly one message from one to the other |
| `ConnectionObjects.Connection.Send` | src/network/NetCommon/net_connection.hpp:117-126 | posts the message; one endpoint step |
| `ConnectionObjects.Connection.RunPosted` | src/network/NetCommon/net_connection.hpp:119-125 | the posted closure: enqueue, and start writing if the queue was empty; one endpoint step |
| `ConnectionObjects.Connection.OnHeaderWritten` | src/network/NetCommon/net_connection.hpp:133-143 | continues with the body, or pops and continues with the next header; one endpoint step |
| `ConnectionObjects.Connection.OnBodyWritten` | src/network/NetCommon/net_connection.hpp:155-161 | pops and continues with the next header; one endpoint step |
| `ConnectionObjects.Connection.OnMessageWriteError` | src/network/NetCommon/net_connection.hpp:145-148 | closes the socket and leaves the queue; one endpoint step |
| `ConnectionObjects.Connection.ConnectToClient` | src/network/NetCommon/net_connection.hpp:75-87 | on an open server socket takes the identifier, writes the challenge and reads the answer; on a closed one, or for a client, nothing |
| `ConnectionObjects.Connection.OnConnected` | src/network/NetCommon/net_connection.hpp:89-98 | a connected client reads the challenge; one endpoint step |
| `ConnectionObjects.Connection.OnAnswerRead` | src/network/NetCommon/net_connection.hpp:244-255 | validates, reporting that it calls OnClientValidated, and listens, or closes, by whether the eight bytes are the scrambled challenge; one endpoint step |
| `ConnectionObjects.Connection.OnChallengeRead` | src/network/NetCommon/net_connection.hpp:256-262 | answers the challenge; one endpoint step |
| `ConnectionObjects.Connection.OnValidationWritten` | src/network/NetCommon/net_connection.hpp:226-231 | a client then listens; one endpoint step |
| `ConnectionObjects.Connection.OnHeaderRead` | src/network/NetCommon/net_connection.hpp:171-180 | reads the body, or enqueues with the scratch body as it is; one endpoint step |
| `ConnectionObjects.Connection.OnBodyRead` | src/network/NetCommon/net_connection.hpp:190-212 | enqueues the message and reads the next header; one endpoint step |
| `ConnectionObjects.Connection.OnReadError` | src/network/NetCommon/net_connection.hpp:181-184 | closes the socket; one endpoint step |
| `NotifierSafety.StepKeepsInv` | src/qasioeventdispatcher.cpp:200-370 | every step (register, unregister, completion, handler, cleanup) keeps the protocol invariant |
| `NotifierSafety.AssertionIffUnbroken` | src/qasioeventdispatcher.cpp:221-226 | cleanup's assertion holds exactly if no chain that has run dry was ended by an I/O error |
| `NotifierTheorems.NoMisdelivery` | src/qasioeventdispatcher.cpp:241-269 | on every run every event goes to the notifier whose registration began the handler chain, and no freed record or null notifier is used |
| `NotifierTheorems.RevisionsIdentify` | src/qasioeventdispatcher.cpp:241-285 | a revision is odd exactly while registered; an outstanding handler is never ahead, and current only for its own notifier |
| `NotifierTheorems.SafeReclamation` | src/qasioeventdispatcher.cpp:217-285 | pending_operations is the number of outstanding handlers, cleanup keeps every record such a handler points to, and no descriptor has two records |
| `NotifierTheorems.ChainAlive` | src/qasioeventdispatcher.cpp:241-370 | whatever errors occur, each registered notifier has exactly one outstanding handler of the current revision, its own and not aborted, or none if an I/O error of that handler ended its chain; each unregistered kind has none |
| `NotifierTheorems.ChainsAlive` | src/qasioeventdispatcher.cpp:241-370 | if errors come only from cancel, each registered notifier has exactly one live handler of the current revision, each unregistered kind none, and cleanup never fails its assertion |
| `NotifierTheorems.IoErrorBreaksAssertion` | src/qasioeventdispatcher.cpp:221-226 | one registration and one I/O error suffice to fail the assertion |
| `NotifierTheorems.DrainStep` | src/qasioeventdispatcher.cpp:241-269 | without notifiers, a record changes only by its handlers, each lowering its pending count by one, until cleanup removes it |
| `NotifierTheorems.DrainsAway` | src/qasioeventdispatcher.cpp:217-236 | nothing leaks: its handlers can all run, and there is a schedule of exactly as many of them as are pending, and cleanup, that removes the record |
| `NotifierTheorems.DrainsAlways` | src/qasioeventdispatcher.cpp:217-269 | on every schedule without re-registration the count of a record without notifiers has fallen by exactly the handlers of it that ran, until cleanup removes it for good |
| `NotifierEvents.SlotIsRegistered` | src/qasioeventdispatcher.cpp:287-370 | on every run a slot holds the notifier that the calls of register and unregister, read from the events alone, leave registered; or it is empty because cleanup removed the record against its assertion |
| `NotifierEvents.SlotsExact` | src/qasioeventdispatcher.cpp:287-370 | if errors come only from cancel, a slot holds exactly the notifier registered by the calls |
| `NotifierEvents.DeliversToRegistered` | src/qasioeventdispatcher.cpp:241-269 | a step delivers exactly if it runs a handler that completed without error and is current, and then to the notifier registered by the calls at that moment |
| `NotifierEvents.ReadyIsDelivered` | src/qasioeventdispatcher.cpp:241-269 | if errors come only from cancel, whoever is registered by the calls has an outstanding handler whose next turn delivers to it |
| `NotifierEvents.SilentOnceUnregistered` | src/qasioeventdispatcher.cpp:330-370 | from its unregistration until its next registration nothing is delivered to a notifier, on any run |
| `DispatcherObjects.Dispatcher.Find` | src/qasioeventdispatcher.cpp:202-205 | the search loop finds the first record of the descriptor, or none |
| `DispatcherObjects.Dispatcher.SocketNotifierForFd` | src/qasioeventdispatcher.cpp:200-215 | returns the record of the descriptor, appending a new one if there is none |
| `DispatcherObjects.Dispatcher.RegisterSocketNotifier` | src/qasioeventdispatcher.cpp:287-328 | the slot holds the notifier, its revision and the pending count are one higher, one handler bound to that revision is added, all else stays; one step of the notifier machine |
| `DispatcherObjects.Dispatcher.UnregisterSocketNotifier` | src/qasioeventdispatcher.cpp:330-370 | the slot is empty, its revision one higher, the other slots and records as before; the waiting handlers of the descriptor are aborted exactly if no notifier is left; one step of the notifier machine |
| `DispatcherObjects.Dispatcher.Ready` | src/qasioeventdispatcher.cpp:241-269 | fdReadReady and fdWriteReady: the handler is consumed; it delivers, and starts again, exactly if it has no error and its revision is that of the slot, and then to the notifier of the slot, which is the one that began the chain; one step |
| `DispatcherObjects.Dispatcher.RemoveIdle` | src/qasioeventdispatcher.cpp:219-235 | the remove-without-advance loop terminates and leaves exactly the records with outstanding operations, in order; the assertion holds exactly if no removed record had a notifier |
| `DispatcherObjects.Dispatcher.CleanupSocketNotifiers` | src/qasioeventdispatcher.cpp:217-236 | one step; reports whether its assertion held, which it does without I/O errors |
| `ChatMessages.LengthRoundTrip` | src/include/chat_message.hpp:81-98 | every length encode_header writes is read back by decode_header |
| `ChatMessages.CanonicalHeader` | src/include/chat_message.hpp:93-98 | the header written for a length is the only one that is right-justified, by blanks and without leading zeros, and is read back as that length |
| `ChatMessages.HeaderInRange` | src/include/chat_message.hpp:81-91 | a header is accepted exactly if the number atoi reads in it is between 0 and 512, and that number is then the length |
| `ChatMessages.AtoiReads` | src/include/chat_message.hpp:81-91 | atoi passes over white space, heeds one sign, and reads the decimal number up to the first character that is no digit |
| `ChatMessages.EncodedIsFrame` | src/include/chat_message.hpp:93-98 | an encoded message is a frame of the stream, with its body |
| `ChatMessages.StreamRoundTrip` | src/include/chat_message.hpp:81-98 | parsing the concatenation of any encoded messages returns exactly those messages |
| `ChatMessages.NonCanonicalHeader` | src/include/chat_message.hpp:81-91 | accepted headers that encode_header never writes, and refused ones |
| `ChatMessages.ChatMessage.SetBodyLength` | src/include/chat_message.hpp:73-78 | the length is cut to 512 |
| `ChatMessages.ChatMessage.DecodeHeader` | src/include/chat_message.hpp:80-91 | accepts exactly the decodable headers, after which the contents are a frame; else the length is 0 |
| `ChatMessages.ChatMessage.EncodeHeader` | src/include/chat_message.hpp:93-98 | the first four bytes become the right-justified decimal length, blanks before it, the body bytes untouched |
| `ChatRooms.StepKeepsInv` | src/network/server.cpp:53-178 | every handler of every session keeps the room invariant |
| `ChatRooms.RoomWindow` | src/network/server.cpp:56-76 | a participant has been handed exactly the room log's slice from 100 messages before its join to its leaving, or now |
| `ChatRooms.Presence` | src/network/server.cpp:56-66 | a session is in the room from its accept, at which its place in the log is fixed, to the step in which an operation of its own fails or its header is refused, and leaves in no other; the log grows by complete messages only |
| `ChatRooms.RelayTransparent` | src/network/server.cpp:114-149 | the frames relayed from a session are byte for byte the frames its stream parses to, and the relayed stream parses back to the log |
| `ChatRooms.ClientSeesSlice` | src/network/client.cpp:120-154 | over any wire between them, what a client reads, in any chunking and with failures, is a prefix of its slice of the log |
| `ChatRooms.ClientReachesRoom` | src/network/client.cpp:56-64 | over any wire between them, what the room accepted from a client is a prefix of what that client wrote |
| `ChatRooms.SessionPump` | src/network/server.cpp:103-172 | one write outstanding per session exactly while its queue is non-empty and no write has failed; a failed session keeps a non-empty queue |
| `ChatRooms.SessionSilent` | src/network/server.cpp:103-172 | after the first failed write of a session nothing more is submitted to its socket or leaves it, on any continuation of the room |
| `ChatNetwork.EndToEnd` | src/network/server.cpp:53-178 | on every run of the room, its clients and the wires, a client has read a prefix of its slice of the log, and what the room has from a client is a prefix of what it wrote |
| `ChatNetwork.WrittenFromEvents` | src/network/client.cpp:56-64 | what a client counts as written is what its application passed to write, read from the events; after k posted closures exactly the first k of these have been enqueued |
| `ChatNetwork.QuiescentExactlyOnce` | src/network/client.cpp:56-154 | with nothing left to do, a session that is up at both ends has been served exactly: its client has read the whole slice and the room has everything the client wrote |
| `ChatObjects.ChatPeer.Deliver` | src/network/server.cpp:103-111 | enqueues, and starts a write if none was in progress; one pump step |
| `ChatObjects.ChatPeer.OnWritten` | src/network/server.cpp:157-166 | pops, and writes the next message if any; one pump step |
| `ChatObjects.ChatPeer.Arrive` | src/network/server.cpp:117-136 | a chunk is copied to its place in read_msg_; one read-loop step |
| `ChatObjects.ChatPeer.OnHeaderRead` | src/network/server.cpp:119-129 | goes on to the body exactly if the header is accepted; one read-loop step |
| `ChatObjects.ChatRoom.Join` | src/network/server.cpp:56-61 | the replay loop hands the newcomer every recent message in order |
| `ChatObjects.ChatRoom.Deliver` | src/network/server.cpp:68-76 | the trimming and broadcast loops: the window moves on and every participant is handed the message once |
| `ChatObjects.ChatRoom.Accept` | src/network/server.cpp:97-101 | start of a new session; one room step |
| `ChatObjects.ChatRoom.OnHeaderRead` | src/network/server.cpp:119-129 | one room step; leaves on a refused header |
| `ChatObjects.ChatRoom.OnBodyRead` | src/network/server.cpp:137-143 | delivers read_msg_ to the room and reads on; one room step |
| `ChatObjects.ChatRoom.OnWritten` | src/network/server.cpp:157-166 | one room step |
| `ChatObjects.ChatRoom.OnWriteError` | src/network/server.cpp:167-170 | the session leaves; one room step |
| `ChatObjects.ChatRoom.OnReadError` | src/network/server.cpp:125-128 | the session leaves; one room step |
| `ChatObjects.ChatClient.Write` | src/network/client.cpp:56-64 | posts the message |
| `ChatObjects.ChatClient.RunPosted` | src/network/client.cpp:57-63 | the posted closure, one pump step; nothing written is lost or reordered |
| `ChatObjects.ChatClient.OnBodyRead` | src/network/client.cpp:137-148 | prints the body and reads on; what is shown is the bodies of the frames read |
| `ChatObjects.ShownIsSlice` | src/network/client.cpp:137-148 | over any wire between them, whatever a client object shows is, in order, a prefix of the bodies of its slice of the room log |
| `ChatObjects.ShownIsEncoded` | src/network/client.cpp:137-148 | the body shown of an encoded message is the body that was encoded |
| `ChatObjects.WrittenReachesRoom` | src/network/client.cpp:56-64 | over any wire between them, what the room accepted from a client object is a prefix of what it wrote |
| `TsQueues.StepKeepsInv` | src/network/NetCommon/net_tsqueue.hpp:54-112 | every lock, unlock, access, notify and sleep of any thread keeps the queue invariant |
| `TsQueues.MutualExclusion` | src/network/NetCommon/net_tsqueue.hpp:116-119 | no two threads are between lock and unlock of the same mutex |
| `TsQueues.NoDeadlock` | src/network/NetCommon/net_tsqueue.hpp:54-112 | in every reachable state some thread can step, exactly unless nothing is left to do |
| `TsQueues.WorkEnds` | src/network/NetCommon/net_tsqueue.hpp:54-112 | without new calls or spurious wake-ups only boundedly many steps remain |
| `TsQueues.WaitAndPop` | src/network/NetCommon/net_server.hpp:136-150 | a guarded pop_front never meets an empty deque, and whoever has tested the queue non-empty still finds it so |
| `TsQueues.WaitReturns` | src/network/NetCommon/net_tsqueue.hpp:107-112 | however the consumer was woken, wait returns only in a step at which the queue is not empty; Update returns only with its maximum reached or the queue found empty |
| `TsQueues.UpdateDelivers` | src/network/NetCommon/net_server.hpp:136-150 | however the threads interleave, what one Update has handed over and what it may still hand over make up its maximum |
| `TsQueues.PushPlaces` | src/network/NetCommon/net_tsqueue.hpp:54-69 | however the threads interleave, the item that a call of push_back or push_front gave is emplaced at that end, and nothing else moves |
| `TsQueues.Delivery` | src/network/NetCommon/net_server.hpp:141-149 | everything pushed is delivered once, and in order if nothing is pushed to the front |
| `TsQueues.MissedItems` | src/network/NetCommon/net_tsqueue.hpp:107-112 | a sleeping unsignalled consumer misses exactly the items notified between its test and its sleep, plus at most one still to be notified |
| `TsQueues.NextPushSignals` | src/network/NetCommon/net_tsqueue.hpp:58-59 | while the consumer sleeps unsignalled there has been no notification: the first one signals it |
| `TsQueues.CompletedPushSignals` | src/network/NetCommon/net_tsqueue.hpp:54-60 | the next push to complete has signalled the sleeping consumer, however the producers interleave |
| `TsQueues.LostWakeup` | src/network/NetCommon/net_tsqueue.hpp:107-112 | the gap is reachable: a push between test and sleep leaves the consumer asleep for good beside its item |
| `TsQueueObjects.TsQueue.PushAt` | src/network/NetCommon/net_tsqueue.hpp:54-69 | an uninterrupted push: item in place, sleeper signalled, both mutexes free |
| `TsQueueObjects.TsQueue.NotifyOne` | src/network/NetCommon/net_tsqueue.hpp:59 | wakes the consumer if it sleeps unsignalled; one machine step |
| `TsQueueObjects.TsQueue.DequePop` | src/network/NetCommon/net_tsqueue.hpp:92-97 | removes and returns the front, which is there; one machine step |
| `TsQueueObjects.TsQueue.Wait` | src/network/NetCommon/net_tsqueue.hpp:109-110 | releases the mutex and sleeps in one step |
| `TsQueueObjects.TsQueue.Update` | src/network/NetCommon/net_server.hpp:136-150 | an uninterrupted Update hands over exactly the first min(max, size) messages in order; asked to wait, it goes to sleep exactly if there is none |
| `AsyncClients.StepKeepsInv` | sample_implementing_client/asynchronous_tcp_client.cpp:82-185 | every instruction of every thread keeps the client invariant |
| `AsyncClients.ExactlyOnce` | sample_implementing_client/asynchronous_tcp_client.cpp:160-185 | no request is reported twice, and with all threads idle each either waits for its operation, at most three times in all, or has been reported |
| `AsyncClients.WorkEnds` | sample_implementing_client/asynchronous_tcp_client.cpp:82-185 | without new calls only boundedly many steps remain, ends of operations included |
| `AsyncClients.AllReported` | sample_implementing_client/asynchronous_tcp_client.cpp:160-185 | with at most one cancel per request, in a state that only new calls can leave every request has been reported exactly once and is out of the table |
| `AsyncClients.ReportedCode` | sample_implementing_client/asynchronous_tcp_client.cpp:176-184 | the report, judged at any later time: the failed operation's code, else 125 (operation_aborted) exactly if cancelled, else 0; the response is the line read exactly if all three operations succeeded |
| `AsyncClients.CancelReachesSocket` | sample_implementing_client/asynchronous_tcp_client.cpp:139-149 | the step of a cancel at the socket ends a pending operation as aborted and touches no other; a cancelled request with an operation pending is in its connect or has that step still to come |
| `AsyncClientEvents.ReportFromEvents` | sample_implementing_client/asynchronous_tcp_client.cpp:95-185 | the report from the events of the run alone, that is, from how the operations of the request ended: at most three, each but the last a success; a failed last one gives its code and no response, else the response is the line of the third and the code says whether it was cancelled |
| `AsyncClients.ActiveExactly` | sample_implementing_client/asynchronous_tcp_client.cpp:91-93 | the table holds exactly the requests inserted and not yet erased |
| `AsyncClients.StuckIsCycle` | sample_implementing_client/asynchronous_tcp_client.cpp:139-174 | if unfinished calls are all stuck, it is a handler with the guard wanting the table and a cancel with the table wanting the guard |
| `AsyncClients.CycleNeedsTwoCancels` | sample_implementing_client/asynchronous_tcp_client.cpp:102-107 | that takes two cancels of the same request |
| `AsyncClients.NoDeadlock` | sample_implementing_client/asynchronous_tcp_client.cpp:139-174 | with at most one cancel per request some unfinished call can always go on |
| `AsyncClients.SecondCancelDeadlocks` | sample_implementing_client/asynchronous_tcp_client.cpp:139-149 | a second cancel of one request can reach the cycle |
| `AsyncClients.DeadlockForever` | sample_implementing_client/asynchronous_tcp_client.cpp:167 | and then it lasts: the request is never reported |
| `AsyncClientObjects.AsyncTcpClient.EmulateLongComputationOp` | sample_implementing_client/asynchronous_tcp_client.cpp:82-95 | an uninterrupted call: the session is in the table, waiting for its connect |
| `AsyncClientObjects.AsyncTcpClient.CancelRequest` | sample_implementing_client/asynchronous_tcp_client.cpp:139-149 | an uninterrupted call: an active session is flagged, its operation, if pending, finished with code 125, any other left; the other sessions, the table and both locks as before |
| `AsyncClientObjects.AsyncTcpClient.RunHandler` | sample_implementing_client/asynchronous_tcp_client.cpp:95-135 | the three handlers: on to the next operation under the guard, or erased and reported once, with the code of the failed operation, else 125 exactly if cancelled, and with the line read |
| `AsyncClientObjects.AsyncTcpClient.OnRequestComplete` | sample_implementing_client/asynchronous_tcp_client.cpp:160-185 | erases the session and calls its callback with the code |
| `ServerTables.StepKeepsInv` | src/network/NetCommon/net_server.hpp:69-133 | accepts, closes, broadcasts and single messages keep the table invariant |
| `ServerTables.SweptMeans` | src/network/NetCommon/net_server.hpp:117-128 | the broadcast loop, against an independent description: kept, sent to and dropped, each in order and once |
| `ServerTables.TableOverRuns` | src/network/NetCommon/net_server.hpp:69-133 | between calls no null handle, approved connections in accept order, identifiers increasing for at most 2^32 - 10000 approvals |
| `ServerTables.Identifiers` | src/network/NetCommon/net_server.hpp:77-79 | the k-th connection approved on a run, read from the events, has identifier 10000 + k modulo 2^32 |
| `ServerTables.TableFromEvents` | src/network/NetCommon/net_server.hpp:113-133 | after a broadcast the table is, whatever went before, exactly the connections approved and not closed by the events, in order, and exactly the approved and closed ones have been reported, once each |
| `ServerTables.Broadcast` | src/network/NetCommon/net_server.hpp:113-133 | leaves exactly the connected subsequence, sends once to each of it but the ignored, reports each other once |
| `ServerTables.ReportedOnce` | src/network/NetCommon/net_server.hpp:122-132 | after a broadcast exactly the dead approved connections have been reported by broadcasts, each once ever |
| `ServerTables.MessageOneEffect` | src/network/NetCommon/net_server.hpp:101-110 | never changes the table; a dead client is reported and stays to be reported again |
| `ServerTables.IdsWrap` | src/network/NetCommon/net_server.hpp:190 | one approval beyond the bound the newest connection has identifier 0 |
| `ServerObjects.RemoveNulls` | src/network/NetCommon/net_server.hpp:131 | remove and erase leave the non-null pointers in order |
| `ServerObjects.ServerInterface.OnAccept` | src/network/NetCommon/net_server.hpp:70-87 | an approved connection is appended with the counter as its identifier, the counter moves on, and it is started; a refused one changes neither; one table step |
| `ServerObjects.ServerInterface.MessageClient` | src/network/NetCommon/net_server.hpp:101-110 | sends to a live client, else reports it; one table step, the deque unchanged |
| `ServerObjects.ServerInterface.MessageAllClients` | src/network/NetCommon/net_server.hpp:113-133 | the broadcast loop over connection objects: one table step, and exactly the receivers have had the message sent |

## Left out

- Boost.Asio, the sockets, DNS, endpoints and real time: replaced by the environment above.
- Network.EndToEnd: promises nothing of the client-to-server direction once the header of a message sent too early has been taken for the answer and has spoilt the framing; there it is false (`ForgedAnswerMisdelivers`, and `QuiescentIff` for every such run that settles).  A message whose header.size is not its body length breaks the framing (`FrameIffConsistent`), so both directions are for messages with that length.
- ConnectionObjects.Connection.OnHeaderRead: the object has an inbox of its own; that a server's connections share one queue is modelled on values, in `IncomingQueues`.
- ConnectionObjects.Connection.OnBodyRead: as OnHeaderRead.
- Messages.MessageObject.Pop: popping more bytes than the body has is undefined in the program and required not to happen.
- TsQueueObjects.TsQueue.PushAt: states a push that no other thread interrupts, as Update below.
- TsQueueObjects.TsQueue.Update: states an Update that no other thread interrupts; interleavings are covered by the theorems of `TsQueues`.
- AsyncClientObjects.AsyncTcpClient.EmulateLongComputationOp: states an uninterrupted call, as do CancelRequest and OnRequestComplete, with the locks they need free; see RunHandler.
- AsyncClientObjects.AsyncTcpClient.RunHandler: states a handler that no other thread interrupts; interleavings are covered by the theorems of `AsyncClients`.
- TsQueues.NoDeadlock: for one consumer thread; front, back, pop_back, count and clear are not modelled, each being one access under one mutex.
- AsyncClients.ExactlyOnce: request identifiers are distinct, callbacks do not call the client again, and socket calls do not throw.
- ServerTables.TableOverRuns: calls on the deque are taken one after another; the accept thread and the application thread of the program are not synchronised.
- NotifierTheorems.ChainsAlive: revisions are unbounded integers, and registering twice or unregistering what is not registered is excluded as by the assertions in the code.
- Re-entrant event delivery in the dispatcher: delivering is a handler's last action, so what the receiver calls is modelled as the steps that follow.
- Exception-type notifiers, which the code answers with a fatal error, the thread and descriptor-range checks of debug builds, and forced cleanup in the destructor.
- Qt timers, processEvents, wakeUp and interrupt: they rest on private classes of Qt.
- The deadline and heartbeat timers and the endpoint iteration of the chat client, and the bytes a closed chat socket could still take: closing is recorded, later reads and writes are left possible.
- ChatNetwork.QuiescentExactlyOnce: a chat client is modelled from its successful connect on; messages written before that wait in its posted closures.
- The end of a chat session's life: the session object stays while handlers refer to it, and its socket is not closed by leaving.
- Host byte order, struct padding, object lifetime, logging, and the printing of messages and identifiers.
- The user interface, `bugs_server` and the other sample programs: thin wrappers or parsers that would only add easy members.
