# Models of the libraries behind codefest

This project models five parts of the C++ libraries in `codefest/lib` and proves what they are for.

- **Catch's sections** (`Trackers`, `SectionPlans`, `RunContexts`, `Generators`, `SectionTheorems`). The tracker tree
  is a set of objects that `RunContext` updates while a test body runs, is left by exceptions and runs again. The proof
  follows the tree with a value that mirrors it; each such value has a plan, the cycles still to run, and every method
  uses up the head of the plan. The theorems are about the plan of the whole section tree.
- **Socket.IO packets** (`Texts`, `SioMessages`, `SioPackets`, `SioJsonText`, `SioHeaders`, `SioPacketManager`,
  `SioReassembly`, `SioFrames`). Messages are flattened to JSON with numbered placeholders, written behind a text header and put
  together again from frames.
- **WebSocket bytes** (`Utf8Validator`, `Utf8CodePoints`, `FrameWords`, `FrameMasking`, `FrameHeader`). A table-driven
  decoder against section 4 of RFC 3629, masking a word at a time against section 5.3 of RFC 6455, and the frame header
  of section 5.2 of RFC 6455. Word size and byte order are parameters.
- **Socket.IO sockets and client** (`SioSocket`, `SioSocketThreads`, `SioBackoff`, `SioClient`). The offline queue as
  an object and, at the level of single locks, as a state machine of any number of threads; connecting, closing and
  reconnecting as a state machine whose events are calls, handlers and the network.
- **Text** (`TextFormat`, `Uri`, with `Texts`). Line wrapping, and reading and printing addresses.

Methods of classes, and methods with loops, follow the C++ code step by step. Each is proved against a function or a
predicate, and the lemmas are about those.

Some properties that one might expect hold only under a condition. The model keeps the code as it is and states the
condition.

- A section tree needs one more cycle than it has leaves for each body whose last section is a leaf that throws
  (`SectionTheorems.CycleCount`): failing the leaf leaves its parent to be run again, with nothing left to enter.
- An object with a `_placeholder` member is read as an attachment if the member is true, and stops the program if it is
  no boolean (`SioMessages.RoundTrip`).
- A double comes back as the JSON library rounds it (`SioMessages.RoundedRoundTrip`).
- A packet's text is read back if and only if its namespace, id, message and attachment count are in the form that the
  parser needs (`SioHeaders.ParseUndoesAccept`); a comma cuts the namespace (`SioHeaders.NspRecovered`).
- An attachment that does not start with byte 4 is not taken for one (`SioReassembly.DeliveredIffTagged`). The encoder
  sends attachments as they are.
- A thread that has found the socket not connected queues its packet later. If by then the handler of a connection has
  found the queue empty, or a disconnection is about to clear it, the packet can wait in a connected socket and be
  discarded by a disconnection. Without such a step none is (`SioSocketThreads.NothingDiscarded`,
  `SioSocketThreads.StrayCanBeDiscarded`).
- A connection that opens after `close()` is not closed, because the open handler does not keep it
  (`SioClient.ClosingReachesConnection`, `SioClient.StrandedStays`).
- A client for which no connection object can be made goes on connecting, and `connect()` does nothing until it is
  closed (`SioClient.StuckAfterFailure`, `SioClient.StuckStays`).
- `close()` on a socket closes it even when its timer is cancelled (`SioSocket.Socket.CancelledHandler`).
- A line with room for one character does not get on in the middle of a word (`TextFormat.NextPiece`).
- An address whose host came out of brackets is printed without them (`Uri.PrintedReadsBackIff`).

## Model

| member | source | states |
|---|---|---|
| RunContexts.RunContext.RunTest | codefest/lib/catch/single_include/catch.hpp:6615-6640 | a test case runs as many times as the product of the generators' sizes, in counting order, so that every combination of indices has its run; each time it executes exactly the planned cycles; it ends with all indices back at zero |
| SectionTheorems.EveryLeafOnce | codefest/lib/catch/single_include/catch.hpp:6615-6640 | the planned cycles enter every leaf body exactly once and nothing else, in depth-first order, at most one to a cycle; how many cycles there are, and that without throws there is one for each leaf |
| RunContexts.RunContext.RunCycles | codefest/lib/catch/single_include/catch.hpp:6631-6636 | the inner loop ends, with the test case's tracker successfully completed, after exactly the cycles that the section tree plans, whatever leaf sections throw |
| RunContexts.RunContext.RunCycle | codefest/lib/catch/single_include/catch.hpp:6632-6634 | a cycle takes the first planned cycle off what the tracker tree has still to run and leaves the rest; complete trackers, and all below them, stay as they are, and at least one more tracker is complete |
| RunContexts.RunContext.RunCurrentTest | codefest/lib/catch/single_include/catch.hpp:6822-6865 | the body of a test case with exceptions caught, the test case's tracker closed and the unfinished sections reported: the entered leaf is the first planned one |
| RunContexts.RunContext.Invoke | codefest/lib/catch/single_include/catch.hpp:6867-6871 | what running a body does to its trackers: siblings stay complete ones first, then at most one partly run, then untouched ones |
| RunContexts.RunContext.RunBody | codefest/lib/catch/single_include/catch.hpp:6867-6871 | the sections of a body in order: one is entered in a cycle, those before it were complete and those after it stay as they were or are only noted; a throw stops the body |
| RunContexts.RunContext.SectionDestroyed | codefest/lib/catch/single_include/catch.hpp:6733-6754 | leaving a section by its end or by an exception gives its tracker the state that the next cycles depend on |
| RunContexts.RunContext.SectionStarted | codefest/lib/catch/single_include/catch.hpp:6703-6720 | a section is entered exactly if no section has been completed in this cycle and its own tracker is not complete |
| RunContexts.RunContext.SectionEnded | codefest/lib/catch/single_include/catch.hpp:6733-6744 | the innermost active section is closed and popped; without active sections nothing changes |
| RunContexts.RunContext.SectionEndedEarly | codefest/lib/catch/single_include/catch.hpp:6746-6754 | the first section that an exception leaves is failed and its parent needs another run; the ones around it are closed; each is noted as unfinished |
| RunContexts.RunContext.HandleUnfinishedSections | codefest/lib/catch/single_include/catch.hpp:6882-6891 | late reports change no tracker, because no section is active any more |
| RunContexts.AcquireChild | codefest/lib/catch/single_include/catch.hpp:6216-6237 | acquiring a section's tracker keeps the tracker tree the shape it had: the child is found by name or added at the end, and opened where it may be |
| Trackers.Acquire | codefest/lib/catch/single_include/catch.hpp:6216-6237 | which tracker is found or made for a name, and that it is opened exactly if it is not complete and the cycle is not over |
| Trackers.Tracker.Open | codefest/lib/catch/single_include/catch.hpp:6142-6148 | a tracker that opens is executing and current, and all its ancestors are executing children |
| Trackers.Tracker.OpenChild | codefest/lib/catch/single_include/catch.hpp:6131-6138 | exactly the trackers from here up to the first one that is already executing children change |
| Trackers.Tracker.Close | codefest/lib/catch/single_include/catch.hpp:6149-6177 | the state after closing by the state before and the last child; closing an unopened or completed tracker is a logic error |
| Trackers.Tracker.Fail | codefest/lib/catch/single_include/catch.hpp:6178-6184 | the tracker is failed, its parent needs another run, the parent is current and the cycle is over |
| Trackers.Tracker.FindChild | codefest/lib/catch/single_include/catch.hpp:6120-6125 | the first child with the name and location, and none if and only if no child has it |
| Trackers.TrackerContext.StartRun | codefest/lib/catch/single_include/catch.hpp:6302-6307 | a run starts with a new root, executing, without children |
| Trackers.TrackerContext.StartCycle | codefest/lib/catch/single_include/catch.hpp:6046-6049 | a cycle starts at the root |
| SectionPlans.BodyEnded | codefest/lib/catch/single_include/catch.hpp:6149-6184 | ending a body, normally or by a throwing leaf, uses up exactly the first planned cycle of its section and keeps the order of siblings |
| SectionPlans.SteppedBody | codefest/lib/catch/single_include/catch.hpp:6703-6754 | one cycle through a body with sections takes the first planned cycle off the plans of its sections |
| SectionTheorems.CyclesEnterLeaves | codefest/lib/catch/single_include/catch.hpp:6615-6640 | the leaves entered over all planned cycles are the leaves of the tree in depth-first order |
| SectionTheorems.LeavesExact | codefest/lib/catch/single_include/catch.hpp:6703-6720 | these leaves are all the paths to leaf bodies, each once |
| SectionTheorems.CycleCount | codefest/lib/catch/single_include/catch.hpp:6631-6636 | the number of cycles is the number of leaves plus the number of bodies whose last section is a throwing leaf |
| SectionTheorems.ThrowingLeafCyclesTwice | codefest/lib/catch/single_include/catch.hpp:6631-6636 | a test case whose one section throws: one leaf, and a second cycle that enters nothing |
| Generators.NextCounts | codefest/lib/catch/single_include/catch.hpp:8059-8067 | one step of the generators adds one to the mixed-radix number of the indices, and reports the end exactly at the largest number, where it goes back to zero |
| Generators.GeneratorInfo.MoveNext | codefest/lib/catch/single_include/catch.hpp:8023-8029 | one generator's index goes up, or back to zero at its size |
| Generators.ValueInjective | codefest/lib/catch/single_include/catch.hpp:8016-8037 | different combinations of indices have different numbers, so that counting visits each once |
| Generators.EveryCombination | codefest/lib/catch/single_include/catch.hpp:8016-8067 | runs that count through all values meet every combination of indices |
| Generators.GeneratorsForTest.MoveNext | codefest/lib/catch/single_include/catch.hpp:8059-8067 | the loop over generators is that step |
| Generators.GeneratorsForTest.GetGeneratorInfo | codefest/lib/catch/single_include/catch.hpp:8048-8057 | a generator is made once for each name and keeps its place; a new one starts at zero |
| SioMessages.Attachments.AcceptMessage | codefest/lib/socketio/internal/sio_packet.cpp:47-129 | the JSON and the attachment list that are built in place, as functions of the message and of the number of attachments there were |
| SioMessages.Attachments.AcceptArrayMessage | codefest/lib/socketio/internal/sio_packet.cpp:59-67 | the items of an array take consecutive attachment numbers |
| SioMessages.Attachments.AcceptObjectMessage | codefest/lib/socketio/internal/sio_packet.cpp:69-79 | and so do the values of an object, in the order of its keys |
| SioMessages.ObjectRead | codefest/lib/socketio/internal/sio_packet.cpp:154-166 | an object stops the reader if and only if it maps the placeholder key to no boolean, and is taken for a placeholder if and only if it maps it to true |
| SioMessages.RoundTrip | codefest/lib/socketio/internal/sio_packet.cpp:47-188 | reading a flattened message back with its attachments gives the same message if and only if no object in it maps the placeholder key to anything but false; otherwise it gives another one or a failed assertion stops the program |
| SioMessages.PlaceholderStopsReader | codefest/lib/rapidjson/include/rapidjson/document.h:786 | a message whose placeholder member is a string: the assertion in the JSON library stops the program |
| SioMessages.PlaceholderFoolsReader | codefest/lib/socketio/internal/sio_packet.cpp:154-166 | an object that is read as an attachment |
| SioMessages.RoundedRoundTrip | codefest/lib/socketio/internal/sio_packet.cpp:131-188 | the same with doubles that are rounded on the way: the message comes back with its doubles rounded, on the same condition |
| SioMessages.RoundedSame | codefest/lib/socketio/internal/sio_packet.cpp:137-140 | a message without doubles comes back as it is |
| SioMessages.ObjectReadAsMap | codefest/lib/socketio/internal/sio_packet.cpp:167-177 | an object that neither stops the reader nor is a placeholder is read as a map in key order: its keys are exactly the names of the members, and each has the reading of the last member of that name |
| SioMessages.ArrayReadByItem | codefest/lib/socketio/internal/sio_packet.cpp:146-153 | an array is read item by item, and as nothing else |
| SioMessages.PlaceholderReadByNumber | codefest/lib/socketio/internal/sio_packet.cpp:157-166 | a placeholder is the attachment of its number, or a null pointer if there is none of that number |
| SioMessages.StopsExactly | codefest/lib/socketio/internal/sio_packet.cpp:154-166 | reading stops the program if and only if somewhere, but not within a placeholder, an object has a placeholder member that is no boolean, or one that is true without a number that is an int |
| SioMessages.PlaceholdersNumbered | codefest/lib/socketio/internal/sio_packet.cpp:47-57 | placeholders are numbered upwards in traversal order, one for each binary leaf, from the number of attachments there were |
| SioMessages.BinariesFromBuffers | codefest/lib/socketio/internal/sio_packet.cpp:131-188 | whatever the JSON, every binary leaf that is read is one of the attachments |
| SioHeaders.ParseUndoesAccept | codefest/lib/socketio/internal/sio_packet.cpp:266-392 | reading the text of a packet recovers its type, attachment count, namespace, id and message, or the exact JSON text if attachments are to come, if and only if each part is in the form that the parser needs |
| SioHeaders.NspRecovered | codefest/lib/socketio/internal/sio_packet.cpp:289-316 | a namespace that starts with a slash is recovered if and only if it has no comma, unless the message stops the program |
| SioHeaders.CommaEndsNsp | codefest/lib/socketio/internal/sio_packet.cpp:296-307 | a namespace that does not come back |
| SioFrames.OtherFrameRead | codefest/lib/socketio/internal/sio_packet.cpp:266-338 | a frame of any other kind, like the handshake, has its JSON for its message, behind a namespace and an id or without them |
| SioFrames.BareFrameRead | codefest/lib/socketio/internal/sio_packet.cpp:289-338 | so has one with its JSON alone, and then the namespace is / and there is no id |
| SioFrames.EmptyFrameRead | codefest/lib/socketio/internal/sio_packet.cpp:289-294 | a frame without JSON has no message |
| SioFrames.BareFrameDelivered | codefest/lib/socketio/internal/sio_packet.cpp:496-508 | such a frame is delivered at once, whether or not a packet waits for attachments, which goes on waiting |
| SioFrames.EmptyFrameDelivered | codefest/lib/socketio/internal/sio_packet.cpp:496-508 | and so is a frame without JSON, as a packet without a message |
| SioFrames.BareMessageDelivered | codefest/lib/socketio/internal/sio_packet.cpp:468-508 | so is a message without attachments, unless reading it stops the program |
| SioFrames.ShortFrames | codefest/lib/socketio/internal/sio_packet.cpp:266-294 | an empty frame and one of a single character are read up to the terminating zero |
| SioFrames.UnknownTypeRead | codefest/lib/socketio/internal/sio_packet.cpp:275-280 | a message of an unknown type is a packet without anything |
| SioFrames.CountWithoutDash | codefest/lib/socketio/internal/sio_packet.cpp:282-325 | without the dash behind an attachment count, the id is read from the frame character on |
| SioFrames.EarlyCommaIgnored | codefest/lib/socketio/internal/sio_packet.cpp:296-307 | a comma before the namespace does not end it, and the namespace takes the rest of the text |
| SioFrames.BadIdThrows | codefest/lib/socketio/internal/sio_packet.cpp:322-325 | what stands for an id throws if it starts with no number, or with one that is no int |
| SioFrames.BadCountThrows | codefest/lib/socketio/internal/sio_packet.cpp:282-286 | what stands for an attachment count throws if it has no number |
| SioFrames.RefusedFrames | codefest/lib/socketio/internal/sio_packet.cpp:485-495 | a frame that throws changes nothing, nor does an attachment that no packet waits for |
| Texts.FrontNumberSigned | codefest/lib/socketio/internal/sio_packet.cpp:284-324 | a number may have spaces and a sign before it, and anything but a digit behind it |
| SioPacketManager.Packet.Accept | codefest/lib/socketio/internal/sio_packet.cpp:341-392 | the text and the attachments that a packet object writes, and the type that it then has |
| Texts.NumbersThatFit | codefest/lib/socketio/internal/sio_packet.cpp:282-325 | a number that fits no int, or as a count no unsigned long, is refused, and a negative count wraps around |
| SioPackets.FlagCleared | codefest/lib/socketio/internal/sio_packet.cpp:355 | the flag of an undetermined type is cleared, and nothing else |
| SioPacketManager.Packet.Parse | codefest/lib/socketio/internal/sio_packet.cpp:266-339 | a packet object's parser takes exactly the steps of the specification, exceptions of the number parsers and failed assertions included |
| SioPacketManager.Packet.ParseBuffer | codefest/lib/socketio/internal/sio_packet.cpp:246-264 | an attachment is collected, and the last one completes the message |
| SioPacketManager.PacketManager.Encode | codefest/lib/socketio/internal/sio_packet.cpp:436-466 | the frames of a packet: its text, then its attachments in order |
| SioPacketManager.PacketManager.PutPayload | codefest/lib/socketio/internal/sio_packet.cpp:468-509 | what a frame does to the partial packet and what it delivers |
| SioReassembly.FrameWhileWaiting | codefest/lib/socketio/internal/sio_packet.cpp:246-264 | while a packet waits, attachments received plus attachments pending stays the same, and other frames are delivered without touching it |
| SioReassembly.AttachmentsComplete | codefest/lib/socketio/internal/sio_packet.cpp:468-509 | the last attachment delivers the packet, whatever frames came between, or stops the program if reading its text does, and leaves nothing waiting |
| SioReassembly.PacketDelivered | codefest/lib/socketio/internal/sio_packet.cpp:436-509 | feeding what was encoded makes exactly one delivery for the packet, with equal content but for the rounding of doubles, next to one for each frame that came between |
| SioReassembly.OnlyTaggedDelivered | codefest/lib/socketio/internal/sio_packet.cpp:231-234 | no sequence of frames ever delivers a binary leaf that does not start with byte 4 |
| SioReassembly.DeliveredIffTagged | codefest/lib/socketio/internal/sio_packet.cpp:231-264 | a packet's own frames deliver it, with doubles rounded, if and only if every attachment starts with byte 4 |
| SioReassembly.UntaggedIsLost | codefest/lib/socketio/internal/sio_packet.cpp:468-509 | an attachment that is not tagged is taken for a packet, and its own packet goes on waiting |
| Utf8Validator.TableStates | codefest/lib/websocketpp/websocketpp/utf8_validator.hpp:44-62 | the table's second part is the transition function on byte classes, and indices stay in range |
| Utf8Validator.TableTypes | codefest/lib/websocketpp/websocketpp/utf8_validator.hpp:44-62 | the table's first part is the classification of bytes by range |
| Utf8Validator.Validator.Decode | codefest/lib/websocketpp/websocketpp/utf8_validator.hpp:105-118 | the validator stops at the first byte that rejects, and otherwise ends in the state and code point of the whole input |
| Utf8Validator.Validator.Consume | codefest/lib/websocketpp/websocketpp/utf8_validator.hpp:91-97 | one byte at a time does the same |
| Utf8Validator.Validator.Complete | codefest/lib/websocketpp/websocketpp/utf8_validator.hpp:124-126 | whether all bytes since the last reset are well formed and the last character is whole |
| Utf8Validator.Validate | codefest/lib/websocketpp/websocketpp/utf8_validator.hpp:143-149 | a string is valid if and only if it is a concatenation of well-formed sequences of section 4 of RFC 3629 |
| Utf8Validator.AcceptsWellFormed | codefest/lib/websocketpp/websocketpp/utf8_validator.hpp:69-78 | the automaton accepts exactly the concatenations of well-formed sequences |
| Utf8Validator.LowBitsAreLow | codefest/lib/websocketpp/websocketpp/utf8_validator.hpp:72-74 | of the first byte of a character the decoder keeps as many low bits as ones are left after the shift by its type |
| Utf8Validator.RejectAbsorbs | codefest/lib/websocketpp/websocketpp/utf8_validator.hpp:69-78 | nothing leads out of the rejecting state |
| Utf8Validator.ChunksVerdict | codefest/lib/websocketpp/websocketpp/utf8_validator.hpp:105-126 | cutting the input into chunks for one validator does not change the verdict |
| Utf8CodePoints.AcceptedIsEncoding | codefest/lib/websocketpp/websocketpp/utf8_validator.hpp:69-78 | of accepted input, the emitted code points are Unicode scalar values, and encoding them in shortest form gives the input back |
| Utf8CodePoints.DecodeEncoding | codefest/lib/websocketpp/websocketpp/utf8_validator.hpp:69-78 | decoding the encoding of any scalar values accepts it and emits these values |
| Utf8CodePoints.EncodeCodePoint | codefest/lib/websocketpp/websocketpp/utf8_validator.hpp:69-78 | a well-formed sequence is the shortest encoding of its code point, which is a scalar value |
| Utf8CodePoints.CodePointEncode | codefest/lib/websocketpp/websocketpp/utf8_validator.hpp:69-78 | the encoding of a scalar value is a well-formed sequence with that code point |
| FrameWords.PreparedBytes | codefest/lib/websocketpp/websocketpp/frame.hpp:595-604 | on every machine the bytes of a prepared key in memory are the masking key, over and over |
| FrameWords.CircshiftBytes | codefest/lib/websocketpp/websocketpp/frame.hpp:612-623 | on every machine the shift moves the bytes of the key towards the front of memory, around its end |
| FrameWords.MaskedWord | codefest/lib/websocketpp/websocketpp/frame.hpp:709-711 | masking a word that was read from memory and is stored there is masking its bytes, for both byte orders |
| FrameMasking.MaskWords | codefest/lib/websocketpp/websocketpp/frame.hpp:702-711 | the loop over whole words masks the bytes up to the last whole word and leaves the rest of both buffers alone |
| FrameMasking.ByteMask | codefest/lib/websocketpp/websocketpp/frame.hpp:644-655 | every byte of the input is combined with the key byte of its place, in place or into another buffer, and no byte beyond is changed |
| FrameMasking.WordMaskExact | codefest/lib/websocketpp/websocketpp/frame.hpp:702-717 | the same result a word at a time, for both word sizes and byte orders |
| FrameMasking.WordMaskCirc | codefest/lib/websocketpp/websocketpp/frame.hpp:768-789 | the same result with a prepared key, and what the returned key is |
| FrameMasking.ByteMaskCirc | codefest/lib/websocketpp/websocketpp/frame.hpp:830-841 | the same a byte at a time, with the key narrowed to 32 bits |
| FrameMasking.NarrowedBytes | codefest/lib/websocketpp/websocketpp/frame.hpp:833-834 | the narrowed key is the low 32 bits of the prepared one, in the byte order of the machine |
| FrameMasking.ChunksMaskWhole | codefest/lib/websocketpp/websocketpp/frame.hpp:768-841 | however data is cut and whichever of the two circular functions masks each part, feeding the key forward gives byte_mask of the whole |
| FrameMasking.MaskedTwice | codefest/lib/websocketpp/websocketpp/frame.hpp:644-655 | masking again restores the data |
| FrameHeader.NewBasicHeader | codefest/lib/websocketpp/websocketpp/frame.hpp:194-229 | the two bytes that setting flags and size code one after the other makes |
| FrameHeader.BasicRecovered | codefest/lib/websocketpp/websocketpp/frame.hpp:321-433 | flags, opcode and size code do not run into each other in the two bytes |
| FrameHeader.JumboByte | codefest/lib/websocketpp/websocketpp/frame.hpp:555-559 | a 64-bit size is read with its most significant byte first, on every machine |
| FrameHeader.ExtendedByte | codefest/lib/websocketpp/websocketpp/frame.hpp:540-544 | so is a 16-bit size |
| FrameHeader.NewExtendedHeader | codefest/lib/websocketpp/websocketpp/frame.hpp:236-276 | the bytes of size and key, for both byte orders, with zeros behind them |
| FrameHeader.NetworkOrder | codefest/lib/websocketpp/websocketpp/common/network.hpp:66-85 | on every machine the converted size lies in memory with its most significant byte first |
| FrameHeader.HeaderRecovered | codefest/lib/websocketpp/websocketpp/frame.hpp:321-585 | a reader with any byte order recovers flags, opcode, size and key from the bytes of the header, for every 64-bit size, and finds the header's length |
| FrameHeader.SentCanBeRead | codefest/lib/websocketpp/websocketpp/frame.hpp:489-502 | what is sent is always enough to read a header |
| FrameHeader.HeadersSelfDelimiting | codefest/lib/websocketpp/websocketpp/frame.hpp:445-502 | equal bytes on the wire come from equal headers, keys and payloads: the bytes alone say where the header ends |
| FrameHeader.ShortestForm | codefest/lib/websocketpp/websocketpp/frame.hpp:212-220 | no header with the same payload size and mask flag is shorter |
| FrameHeader.HeaderOnWire | codefest/lib/websocketpp/websocketpp/frame.hpp:194-276 | the bits of the first two bytes, and which bytes hold the size, the most significant one first, and the key, as section 5.2 of RFC 6455 has them |
| SioSocket.Socket.SendPacket | codefest/lib/socketio/sio_socket.cpp:489-513 | a packet is handed over behind all that waits, or queued, or dropped without a client |
| SioSocket.Socket.OnConnected | codefest/lib/socketio/sio_socket.cpp:298-323 | the first connection hands over the queue and what its listener sends, in the order of acceptance |
| SioSocket.Socket.OnClose | codefest/lib/socketio/sio_socket.cpp:325-345 | closing discards the queue; what its listener asks for comes to nothing |
| SioSocket.Socket.OnDisconnect | codefest/lib/socketio/sio_socket.cpp:352-363 | the socket is not connected and its queue is empty, if it was connected |
| SioSocket.Socket.TimeoutConnection | codefest/lib/socketio/sio_socket.cpp:476-487 | the timeout of a connect packet closes the socket unless it reports an error |
| SioSocket.Socket.TimerExpires | codefest/lib/socketio/sio_socket.cpp:269-296 | the one timer has two handlers, and either closes the socket when the timer expires |
| SioSocket.Socket.CancelledHandler | codefest/lib/socketio/sio_socket.cpp:280-296 | a cancelled wait of close() closes the socket all the same, because its handler ignores the error; a cancelled timeout does nothing |
| SioSocket.Socket.SendConnect | codefest/lib/socketio/sio_socket.cpp:269-278 | a connect packet goes straight to the client and its timeout takes the place of any other wait |
| SioSocket.Socket.Drain | codefest/lib/socketio/sio_socket.cpp:492-505 | the queue goes to the client in order |
| SioSocket.Socket.OnMessagePacket | codefest/lib/socketio/sio_socket.cpp:365-436 | what a packet of the server does, for every kind of packet and whatever the application asks for in reply |
| SioSocket.Socket.OnSocketioEvent | codefest/lib/socketio/sio_socket.cpp:438-454 | an event that asks for an answer is answered after all that its listener sent |
| SioSocket.Socket.OnSocketioAck | codefest/lib/socketio/sio_socket.cpp:456-469 | a callback is called at most once |
| SioSocket.Socket.Do | codefest/lib/socketio/sio_socket.cpp:250-296 | emitting and closing: the packet that is sent, the number of its acknowledgement, which is new, and the wait that close() puts on the timer in place of any other |
| SioSocket.HandedInOrder | codefest/lib/socketio/sio_socket.cpp:298-513 | in every run the client has got a gapless prefix of the accepted packets in order, all of them while connected; only closing discards |
| SioSocket.ReceivedSettled | codefest/lib/socketio/sio_socket.cpp:365-513 | the same balance after any packet of the server and any requests in reply |
| SioSocket.ConnectReceived | codefest/lib/socketio/sio_socket.cpp:365-379 | the first connect packet connects the socket and hands over what waited, then what the listener asks for; another one does nothing |
| SioSocket.DisconnectReceived | codefest/lib/socketio/sio_socket.cpp:380-385 | a disconnect packet ends the socket and discards what waited |
| SioSocket.ReplyReceived | codefest/lib/socketio/sio_socket.cpp:386-432 | an event, an acknowledgement or an error sends what its listener or callback asks for, if one runs, and behind it the answer to an event that has a number; at once if the socket is connected, into the queue if not |
| SioSocket.ForeignReceived | codefest/lib/socketio/sio_socket.cpp:365-369 | a packet of another namespace does nothing, and none does without a client |
| SioSocket.RequestsWhileConnected | codefest/lib/socketio/sio_socket.cpp:250-296 | every request of the application comes to one packet, and acknowledgements are numbered in order |
| SioSocket.RequestsWhileOffline | codefest/lib/socketio/sio_socket.cpp:250-296 | in a socket that is not connected a close comes to nothing |
| SioSocket.WaitsOutstand | codefest/lib/socketio/sio_socket.cpp:269-296 | cancelling the timer or setting it again forgets no handler |
| SioSocket.DisconnectedKeeps | codefest/lib/socketio/sio_socket.cpp:352-363 | disconnecting discards nothing |
| SioSocket.WaitingIsDelivered | codefest/lib/socketio/sio_socket.cpp:298-323 | connecting hands over all that was accepted before |
| SioSocketThreads.NothingLostOrDoubled | codefest/lib/socketio/sio_socket.cpp:298-513 | however any number of threads take turns, each accepted packet is in exactly one place: queue, thread, client or discarded |
| SioSocketThreads.SendAlone | codefest/lib/socketio/sio_socket.cpp:489-513 | a packet sent while no other thread moves goes where the socket as a whole puts it: the model of single steps refines the other one |
| SioSocketThreads.ConnectAlone | codefest/lib/socketio/sio_socket.cpp:298-323 | so does a connection |
| SioSocketThreads.DisconnectAlone | codefest/lib/socketio/sio_socket.cpp:352-363 | so does a disconnection |
| SioSocketThreads.CloseAlone | codefest/lib/socketio/sio_socket.cpp:325-345 | so does a close |
| SioSocketThreads.NothingDiscarded | codefest/lib/socketio/sio_socket.cpp:298-513 | as long as no packet is queued after the handler of the connection has found the queue empty, or just before a disconnection clears it, and nobody closes the socket, no disconnection discards anything and a connected socket keeps nothing waiting |
| SioSocketThreads.StrayCanBeDiscarded | codefest/lib/socketio/sio_socket.cpp:298-513 | and from every such step the run can go on so that its packet is discarded |
| SioSocketThreads.LatePacketStrands | codefest/lib/socketio/sio_socket.cpp:492-512 | a run in which a packet is queued after the connection was made and waits in a connected socket |
| SioSocketThreads.PacketMeetsDisconnection | codefest/lib/socketio/sio_socket.cpp:352-363 | a run in which a packet is queued between the two steps of a disconnection and is discarded |
| SioClient.ConnectionStates | codefest/lib/socketio/internal/sio_client_impl.cpp:73-482 | in every run a pending reconnection timer means that there is no connection and none is attempted, an open client has a live connection, and at most one connection is on its way |
| SioClient.ClosedStaysClosed | codefest/lib/socketio/internal/sio_client_impl.cpp:148-165 | after close(), whenever it comes, no run without connect() is opening or opened again |
| SioClient.MadeWithinLimit | codefest/lib/socketio/internal/sio_client_impl.cpp:338-353 | for a fixed limit the attempts made never exceed it |
| SioClient.FailureIsRetried | codefest/lib/socketio/internal/sio_client_impl.cpp:388-414 | an attempt that fails is followed by another one, with one more attempt made, if and only if the limit allows it; otherwise the client stays closed without a timer |
| SioClient.LossIsRetried | codefest/lib/socketio/internal/sio_client_impl.cpp:433-482 | so is a connection that is lost, but not one that is closed normally |
| SioClient.SuccessResets | codefest/lib/socketio/internal/sio_client_impl.cpp:416-431 | a connection that opens makes the client open and sets the attempts made back to 0 |
| SioClient.ConnectAttempts | codefest/lib/socketio/internal/sio_client_impl.cpp:73-116 | a client without a thread attempts a connection when it is told to connect, with no attempts made |
| SioClient.ConnectAttemptsAgain | codefest/lib/socketio/internal/sio_client_impl.cpp:73-116 | so does a closed client, once its old thread has ended |
| SioClient.ConnectComesLast | codefest/lib/socketio/internal/sio_client_impl.cpp:73-116 | what was dispatched before is done before the connection is attempted |
| SioClient.FailuresAfterConnect | codefest/lib/socketio/internal/sio_client_impl.cpp:338-414 | k failures in a row leave the attempts made at the smaller of k and the limit; up to the limit another attempt is under way, beyond it nothing is and no timer runs |
| SioClient.GivenUpConnection | codefest/lib/socketio/internal/sio_client_impl.cpp:328-336 | a connection that the client gives up is being closed and counts as open until it is |
| SioClient.ClosedLoopEnds | codefest/lib/socketio/internal/sio_client_impl.cpp:155-165 | when all that a close dispatched is done and no connection is left, the network thread ends, and a call that waits for it returns |
| SioClient.CloseReturns | codefest/lib/socketio/internal/sio_client_impl.cpp:148-153 | close() does not wait |
| SioClient.SyncCloseJoins | codefest/lib/socketio/internal/sio_client_impl.cpp:155-165 | sync_close() waits for the network thread, if there is one |
| SioClient.ClosingReachesConnection | codefest/lib/socketio/internal/sio_client_impl.cpp:148-165 | if a connection is left after close() and all that it dispatched, it is being closed if and only if the client had it when close() was called; that is, unless the client was closing already, if it was open |
| SioClient.StrandedStays | codefest/lib/socketio/internal/sio_client_impl.cpp:416-422 | a connection that opens while the client is closing is closed by nothing that the client does, and connect() waits for it |
| SioClient.ClosingEarlyStrands | codefest/lib/socketio/internal/sio_client_impl.cpp:416-422 | a run in which this happens |
| SioClient.ConnectHasEffect | codefest/lib/socketio/internal/sio_client_impl.cpp:73-97 | connect() does nothing if and only if the client has a thread and is connecting or open |
| SioClient.StuckAfterFailure | codefest/lib/socketio/internal/sio_client_impl.cpp:224-271 | a connecting client gets stuck exactly when a connection object cannot be made, at first or after a reconnection timer |
| SioClient.StuckStays | codefest/lib/socketio/internal/sio_client_impl.cpp:73-97 | it stays stuck until it is closed, however often it is connected |
| SioClient.ConnectingGetsStuck | codefest/lib/socketio/internal/sio_client_impl.cpp:224-271 | a run in which this happens, after which connect() does nothing |
| SioClient.Client.ConnectCall | codefest/lib/socketio/internal/sio_client_impl.cpp:73-116 | connect(): the timer is cancelled first; an opening or open client is left alone; otherwise it joins or starts |
| SioClient.Client.CloseCall | codefest/lib/socketio/internal/sio_client_impl.cpp:148-153 | close(): the client is closing at once, the rest is left to the network thread |
| SioClient.Client.HandleTask | codefest/lib/socketio/internal/sio_client_impl.cpp:224-290 | the dispatched work: connecting, or cancelling the timer and closing the connection that is known |
| SioClient.Client.HandleOpen | codefest/lib/socketio/internal/sio_client_impl.cpp:416-431 | the open handler, also while closing |
| SioClient.Client.HandleFail | codefest/lib/socketio/internal/sio_client_impl.cpp:388-414 | the fail handler: the timer is set, with the delay for the attempts made, exactly if attempts are left |
| SioClient.Client.HandleClose | codefest/lib/socketio/internal/sio_client_impl.cpp:433-482 | the close handler: a normal or requested close is not followed by a reconnection |
| SioClient.Client.HandleTimeout | codefest/lib/socketio/internal/sio_client_impl.cpp:338-353 | the timer's handler does something only in a closed client |
| SioBackoff.NextDelayBounds | codefest/lib/socketio/internal/sio_client_impl.cpp:355-360 | after any settings the delay is between the two settings, does not decrease with the attempts and is constant from 32 on |
| SioBackoff.NextDelayIs | codefest/lib/socketio/internal/sio_client_impl.cpp:355-360 | the delay is the setting times 3/2 for every attempt made, up to 32, rounded down, or the maximum if that is less |
| SioBackoff.NextDelayFits | codefest/lib/socketio/internal/sio_client_impl.cpp:355-360 | it fits 32 bits if the settings do |
| SioBackoff.AppliedOrdered | codefest/lib/socketio/internal/sio_client_impl.h:122-124 | any sequence of setters keeps the delay at most the maximum |
| SioBackoff.SettersMoveLittle | codefest/lib/socketio/internal/sio_client_impl.h:122-124 | a setter sets its own value and moves the other one only as far as it must |
| SioClient.Client.SetReconnectDelay | codefest/lib/socketio/internal/sio_client_impl.h:122 | the delay is set, and the maximum raised to it if need be |
| SioClient.Client.SetReconnectDelayMax | codefest/lib/socketio/internal/sio_client_impl.h:124 | the maximum is set, and the delay lowered to it if need be |
| TextFormat.FindBreak | codefest/lib/catch/include/external/tbc_text_format.h:85-121 | the line is broken at the last place where it can be, spaces before it are dropped, and it is hyphenated only if there is none |
| TextFormat.NextPiece | codefest/lib/catch/include/external/tbc_text_format.h:70-126 | each round takes a piece of the text and gets on, unless there is room for one character only in the middle of a word |
| TextFormat.Wrap | codefest/lib/catch/include/external/tbc_text_format.h:54-128 | the lines are the pieces of the text behind their indentations; pieces and gaps of spaces and line ends make up the text, or its start if a thousand lines are full; each piece is as long as its line allows |
| TextFormat.WrapPromise | codefest/lib/catch/include/external/tbc_text_format.h:54-128 | with a width of at least two more than both indentations, no line but the notice is longer than the width, and text is cut off only beyond a thousand characters |
| TextFormat.LinesShowPieces | codefest/lib/catch/include/external/tbc_text_format.h:60-125 | a line is as many spaces as its indentation has, its piece, and a hyphen if a word goes on; a hyphenated line has the full width, and only the line at the end of the text may end in a space |
| TextFormat.LineEnds | codefest/lib/catch/include/external/tbc_text_format.h:70-126 | the rest of the text goes on one line if it fits; any other line ends behind a space, a line end or closing punctuation or before an opening bracket, with no such place further on within its reach; a word is broken only where there is none |
| TextFormat.WrappingUnique | codefest/lib/catch/include/external/tbc_text_format.h:54-128 | these conditions leave only one way to wrap a text |
| Uri.ParseUri | codefest/lib/websocketpp/websocketpp/uri.hpp:51-168 | the parser's loops find the scheme, host, port and resource that the specification names |
| Uri.BracketedHost | codefest/lib/websocketpp/websocketpp/uri.hpp:84-120 | a host in brackets ends at the first closing bracket, and what may follow it |
| Uri.PlainHost | codefest/lib/websocketpp/websocketpp/uri.hpp:121-137 | any other host ends at the first slash or colon |
| Uri.ExtractPort | codefest/lib/websocketpp/websocketpp/uri.hpp:139-155 | the port's text ends at the first slash |
| Uri.AddressWithPort | codefest/lib/websocketpp/websocketpp/uri.hpp:51-168 | for each of the four schemes, any host or literal, and with or without a resource: the port is what its digits say, and an address whose port is 0 or above 65535 is not valid |
| Uri.AddressWithoutPort | codefest/lib/websocketpp/websocketpp/uri.hpp:51-168 | without a port the port is 80 or 443, by the scheme |
| Uri.BadPortInvalid | codefest/lib/websocketpp/websocketpp/uri.hpp:321-341 | a port text without a number is not valid |
| Uri.BadLiteralInvalid | codefest/lib/websocketpp/websocketpp/uri.hpp:84-120 | nor is a literal that is not closed, or is followed by anything but a port or a resource |
| Uri.OtherSchemeInvalid | codefest/lib/websocketpp/websocketpp/uri.hpp:62-78 | nor is any other scheme |
| Uri.PrintedReadsBackIff | codefest/lib/websocketpp/websocketpp/uri.hpp:51-168 | reading what an address prints as gives the address back if and only if its host has no slash or colon and does not start with a bracket |
| Uri.LiteralNeedsBrackets | codefest/lib/websocketpp/websocketpp/uri.hpp:274-285 | an address that is not read back |
| Uri.UnbracketedReadsBack | codefest/lib/websocketpp/websocketpp/uri.hpp:121-137 | that is so for every address whose host was written without brackets |
| Uri.PortPrinted | codefest/lib/websocketpp/websocketpp/uri.hpp:321-341 | a port that is printed is read back, and one that is not printed is the default |
| Uri.DefaultPortOmitted | codefest/lib/websocketpp/websocketpp/uri.hpp:274-285 | the default port of the scheme is left out, and only that one |

## Left out

- Catch: section filters, `-x` aborting, signals, reporters, assertion counts and messages have no part in the model.
- Catch: `IndexTracker`, and the branch of `close` that closes children which are still open, cannot come up with section trackers that are entered and left in order.
- Catch: an exception thrown outside a leaf section, where later siblings may not have been discovered, is not modelled; a section tree says only of leaves whether they throw.
- Catch: a section's code is given as a tree with distinct siblings in a fixed order; which sections a real body visits may depend on anything.
- SioPackets.Parse: JSON text is not modelled; writing and reading it are parameters. Reading must undo writing but for a rounding of doubles, objects, arrays and strings must start with their own marks, and other text must have nothing that the header parser looks for (`SioPackets.Faithful`, which `SioJsonText.FaithfulExists` shows can be met for every rounding). rapidjson is called without full precision here, so its rounding is not exact.
- SioMessages.FromJson: a failed assertion of rapidjson stops the program; what happens in a build without assertions is not modelled.
- SioMessages.RoundTrip: doubles are their bits, and only finite ones, since JSON has no others; a double is not rounded to an infinite one.
- Utf8Validator.Validator.Decode: shifts and masks of the decoder are written as divisions and remainders.
- FrameWords.CircshiftPreparedKey: a machine word is a 64-bit value even where words have 32 bits; the shifts then drop what leaves the low half.
- FrameMasking.WordMaskCirc: input and output are the same buffer or do not overlap, and the alignment of words is not modelled.
- FrameHeader.HeaderRecovered: the header setters (`set_fin` and the like) and checks of received frames are left out.
- SioSocket.Socket.OnMessagePacket: message contents are opaque text, and `named` says whether an event's message is an array that starts with a string; acknowledgement numbers do not wrap around.
- SioSocket.Socket.OnSocketioAck: a callback is represented by its number; what it asks for is part of `OnMessagePacket`.
- SioSocket.Socket.CancelledHandler: that the socket object is still there when a handler runs is taken for granted; handlers of a timer are called in the order of their cancellation.
- SioSocketThreads.Step: a thread that would call the client after `on_close` has cleared the pointer, which is undefined in C++, stays where it is; handlers run on the network thread only, although the destructor of the client calls `on_close` too; a listener that emits is covered as another thread, and order is not claimed.
- SioClient.Enabled: handlers are atomic; the websocket calls a handler only for a connection of its own, and a cancelled timer only reports an error. Sockets, ping timers and listeners' own calls are left out.
- SioBackoff.NextDelay: exact arithmetic stands for `double`.
- TextFormat.Wrap: no room beside an indentation, where the C++ code leaves the string, is excluded; a width smaller than an indentation wraps around as `size_t` does.
- Uri.Parse: the value of `atoi` for a number that is no int is undefined; it is a parameter, and the results hold for any value.
- Uri.PrintedReadsBackIff: the constructors from parts, the query and the other printers are left out.
- The rest of `codefest/`: the game, rapidjson, asio, TLS and the connection and endpoint classes.
