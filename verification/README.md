# A Dafny model of the smoke-detector mesh relay

Smoke detectors with Bluetooth LE radios relay messages and announces to each other. This project
models the logic of the packet library they share (`src/BLEPacket`) and proves what it keeps:

- **the log buffer** (`CircularBuffer`): a ring that drops its oldest text, read back a line at a time;
- **the packet codec** (`BinaryReader`, `BinaryWriter`, `Base`, `Message`, `Announce`,
  `MicroMeshPreferences`): a header, a list of type-length-value fields, and a parser whose loop guard
  is unsigned;
- **one node** (`BleConnectionTracker`, `ProtocolProcessor`): the stores, queues and send records, and
  what every operation makes of them;
- **a network of nodes**: what a message can do between being made and dying out.

Where the original changes objects step by step the model does too: `CircularBuffer`, `BinaryReader`,
`BinaryWriter`, `Message`, `Announce`, `MicroMeshPreferences`, `BleConnectionTracker` and
`ProtocolProcessor` are classes whose methods loop over arrays, sequences and maps. Each method is
proved against a function on values, and the theorems are about those functions.

## Main results

1. *Every flood ends* (`FloodEnds.FloodTerminates`, `Flood.FloodIsBounded`, `TtlBound.TtlBoundsFlood`).
   In a network with fixed links, in any interleaving of sends, deliveries, lost frames and refusing
   radios, and with messages of any ttl: as long as no node cleans up, each node queues a message at
   most once, the message is handed to the radio at most once per port, and the number of times it
   leaves a queue, is delivered or is lost is at most the number of ports plus the number of nodes. A
   cleanup makes a node forget a message and accept it again; even so, with at most d ports per node,
   each making of a message with ttl t costs at most `Cost(t, d)` such moves (1 + 2d + 2d^2 + d^3 for
   the ttl of 3 that nodes use), whatever is cleaned up and when.
2. *Every copy is the original, and the ttl is the radius* (`Flood.EveryCopyIsCounted`,
   `Radius.FramesAreRelays`, `Radius.TtlIsRadius`, `Coverage.TtlIsExactlyRadius`). Cleanups or not,
   every copy has paid one ttl for each hop; every frame of a message in the air is, byte for byte but
   for the ttl, the frame of a message that some node made, with the ttl counted down once for every
   link but the first from there to here; and no node further away from every maker than the ttl it was
   made with ever learns of the message. Conversely, where every link carries frames and nothing has
   been sent yet, there is a run that takes the message to every node within that many links.
3. *Referential integrity* (`TrackerRuns.RunsKeepReferences`). After any sequence of events nothing a
   list refers to is missing from its table, and no list holds anything twice.
4. *What is sent, and what is not* (`SendLog.SendsExactly`, `BroadcastReach.BroadcastReachesExactly`,
   `AtMostOnce.RunsSendOnce` and its corollaries, `BroadcastQueue.QueueIsFifo`, `Receiving.NoEcho`). A
   send hands the radio exactly one frame for each packet and connection that is due, and nothing else;
   over a run nothing goes to a connection twice, packets leave first in first out, and a message never
   goes back over the connection it came in on. The search for an earlier send runs past the packet's
   own entries, so a broadcast can skip a connection: the condition is exact, `BroadcastCanSkip` is a
   run from power-on in which it happens, and `GoneForGood` says that the connection does not get the
   message later either.
5. *What the tables hold* (`TrackerStores.StoreHoldsNewest`, `PeerOwners.PeersAreBest`,
   `PeerOwners.OwnersAreBest`, `OwnAnnounces.AnnounceIs`, `Sessions.ConnectionsShow`), after any run from
   power-on: of every announce the first of the newest, of every peer its best ttl, its last connection
   and its name, of every connection the peer that owns it and whether it is up since when, and of the
   own announce what it says and when it was stamped. `TrackerStores.CleanupAges` and `CleanupLists` say
   in milliseconds what a cleanup keeps.
6. *The format* (`Layouts.FrameParsed`, `FrameRefused`, `PayloadIs`, `FrameIs`; `Frames.RoundTripExactly`,
   `SignatureExactly`, `RelayExactly`, `HopsExactly`, `PreferencesRoundTrip`): where each field of a frame
   of version 1 or 2 lies, in numbers, that the parser takes it from there or refuses it, and that
   packets are written so; exactly which packets and signatures survive being written and parsed with
   anything behind them, and exactly when relaying changes the ttl byte only.
7. *Every parse ends, up to a size* (`ParseEnds.EndsExactly`): all frames of a type and size are parsed
   to an end exactly up to 65277 bytes for announces and 65529 for the others; beyond, the 16-bit read
   cursor can wrap, and there is a frame with a valid header on which the loop never ends.
8. *The line reader* (`LineRead.LineReadIsExact`, `LogDrain.DrainsExactly`, `LogDrain.FillUntilStuck`):
   exactly the states in which a line read loses its place, exactly the states from which the drain of
   the log ends having printed every character once, and a single write to a new buffer after which it
   never ends.

Several properties the code suggests are false of it; each is stated with the exact condition under
which it holds: the single-item ring write (`Ring.ItemRefines`), the empty-string write
(`CircularBuffers.EmptyStringClobbers`), the line read, the signature round trip, the round trip of a
message with a channel but no content or an announce with more than 31 neighbours, the relaying of an
announce that carries a location, the end of a parse, the drain of the log, and the reach of a
broadcast.

## Files

| files | part |
|---|---|
| Ring, LineRead, CircularBuffer, LogDrain | the log buffer and its drain |
| Bytes, BinaryIO, PacketFormat, Packets, ParseEnds, RoundTrip, Layouts, Frames | the codec |
| TrackerState, TrackerInvariant, Tracker, ProtocolProcessor | one node - values, what is kept, the program |
| TrackerRuns, AtMostOnce, TargetedSends, BroadcastQueue, BroadcastReach, SendLog, Receiving, TrackerStores, PeerOwners, OwnAnnounces, Sessions | one node over runs |
| Wire, MeshNode, Mesh, Flood, FloodEnds, TtlBound, Radius, Coverage | the network |

## Model

| member | source | states |
|---|---|---|
| CircularBuffers.CircularBuffer.constructor | src/BLEPacket/CircularBuffer.h:31-33 | a new buffer holds nothing |
| CircularBuffers.CircularBuffer.WriteItem | src/BLEPacket/CircularBuffer.h:35-47 | the new contents are the newest n-1 of the old contents and the item, except that the write from the last slot with tail 0 leaves the buffer empty |
| Ring.ItemRefines | src/BLEPacket/CircularBuffer.h:35-47 | exactly when a single-item write keeps the newest n-1 items; in the one other case everything is lost |
| CircularBuffers.CircularBuffer.WriteString | src/BLEPacket/CircularBuffer.h:49-69 | a non-empty string of any length leaves the newest n-1 of old contents and string, with terminators in place |
| Ring.AppendRefines | src/BLEPacket/CircularBuffer.h:55-61 | one round of the copying loop appends one character and drops the oldest when full |
| Ring.TerminateRefines | src/BLEPacket/CircularBuffer.h:62-68 | the terminator falls on a dead slot and restores the sentinel invariant |
| CircularBuffers.EmptyStringClobbers | src/BLEPacket/CircularBuffer.h:49-69 | the empty string leaves the queue alone exactly when slot 1 holds nothing queued |
| CircularBuffers.CircularBuffer.Clear | src/BLEPacket/CircularBuffer.h:71-78 | clearing empties the buffer and zeroes slot 0 only |
| CircularBuffers.CircularBuffer.ClearIfEmpty | src/BLEPacket/CircularBuffer.h:80-89 | contents never change; an empty buffer goes back to slot 0 |
| CircularBuffers.CircularBuffer.Full | src/BLEPacket/CircularBuffer.h:95-97 | reports n-1 items, except when tail is 0 |
| CircularBuffers.CircularBuffer.Consume | src/BLEPacket/CircularBuffer.h:99-111 | takes the oldest item, or a default when empty |
| Ring.ConsumeRefines | src/BLEPacket/CircularBuffer.h:106-108 | advancing tail by one removes exactly the first item and keeps the sentinels |
| CircularBuffers.CircularBuffer.ConsumeBlock | src/BLEPacket/CircularBuffer.h:113-125 | block and rest make up the old contents |
| CircularBuffers.CircularBuffer.ConsumeBlockInto | src/BLEPacket/CircularBuffer.h:127-143 | copied block and rest make up the old contents; nothing else of the target changes; a zero-size read of a full buffer alone breaks the flag |
| Ring.AdvanceRefines | src/BLEPacket/CircularBuffer.h:127-143 | advancing over k contiguous items splits the view after k |
| CircularBuffers.CircularBuffer.ConsumeLine | src/BLEPacket/CircularBuffer.h:181-239 | the line, its terminator and the new tail are those of the line outcome, and nothing else of the target changes |
| LineRead.LineReadIsExact | src/BLEPacket/CircularBuffer.h:181-239 | output and rest make up the old contents exactly outside the misread states, and then the output is the next line |
| LineRead.LineReadRefines | src/BLEPacket/CircularBuffer.h:181-239 | outside the misread states a line read is a read of the next line from the queue |
| LineRead.MisreadLosesText | src/BLEPacket/CircularBuffer.h:213-237 | in every misread state more text is left and returned than there was |
| Ring.NextLineIsLine | src/BLEPacket/CircularBuffer.h:181-239 | the next line is a non-empty prefix within the limit with no newline but at its end |
| LogDrain.DrainsExactly | src/BLEPacket/Debugging.cpp:40-50 | repeated line reads come to an empty buffer having handed out exactly what was queued, if and only if the condition on the state they start from holds |
| LogDrain.FaithfulOrMore | src/BLEPacket/Debugging.cpp:40-50 | after any number of reads, either all were faithful or what was handed out and what is left are more than there was |
| LogDrain.DrainsStep | src/BLEPacket/Debugging.cpp:40-50 | the condition is the same before and after every faithful line read |
| LogDrain.ReadShrinks | src/BLEPacket/Debugging.cpp:40-50 | a faithful line read of a non-empty buffer shortens it |
| LogDrain.DrainCanStick | src/BLEPacket/CircularBuffer.h:213-237 | a family of states that a line read does not change |
| LogDrain.FillUntilStuck | src/BLEPacket/CircularBuffer.h:49-69 | one long write without a newline to a new buffer leads to a drain that never ends |
| LogDrain.PrintAvailableLogging | src/BLEPacket/Debugging.cpp:32-52 | a line is dropped exactly from a buffer that reports itself full; if the reads come to an end, the dropped text and the printed lines are what they hand out and the log is empty; under the condition they are the old contents, line by line |
| LogDrain.PutLine | src/BLEPacket/Debugging.cpp:42-48 | a line is printed once, with exactly one newline at its end |
| Bytes.BigEndianRoundTrip | src/BLEPacket/BinaryWriter.cpp:9-40 | fixed-width integers survive being written and read |
| Bytes.SignedRoundTrip | src/BLEPacket/BinaryWriter.cpp:22-28 | two's-complement coordinates survive as unsigned words |
| Bytes.TwosComplement | src/BLEPacket/BinaryWriter.cpp:22-28 | signed and unsigned words name the same residue of 2^32 |
| BinaryIO.BinaryReader.ReadUint8 | src/BLEPacket/BinaryReader.cpp:5-13 | a byte, or zero past the end; the 16-bit cursor moves either way |
| BinaryIO.BinaryReader.ReadUint16 | src/BLEPacket/BinaryReader.cpp:15-23 | two bytes in network order, or zero past the end |
| BinaryIO.BinaryReader.ReadInt32 | src/BLEPacket/BinaryReader.cpp:25-36 | a signed word in network order |
| BinaryIO.BinaryReader.ReadUint32 | src/BLEPacket/BinaryReader.cpp:38-49 | four bytes in network order, or zero past the end |
| BinaryIO.BinaryReader.ReadUint64 | src/BLEPacket/BinaryReader.cpp:51-66 | eight bytes in network order, or zero past the end |
| BinaryIO.BinaryReader.ReadRemainderLen | src/BLEPacket/BinaryReader.cpp:99-101 | size minus position in 16 bits, wrapping past the end |
| BinaryIO.BinaryReader.ReadData | src/BLEPacket/BinaryReader.cpp:103-111 | a slice, or nothing past the end |
| BinaryIO.BinaryWriter.WriteUint16 | src/BLEPacket/BinaryWriter.cpp:9-12 | appends two bytes in network order |
| BinaryIO.BinaryWriter.WriteUint32 | src/BLEPacket/BinaryWriter.cpp:14-20 | appends four bytes in network order |
| BinaryIO.BinaryWriter.WriteInt32 | src/BLEPacket/BinaryWriter.cpp:22-28 | appends the two's complement |
| BinaryIO.BinaryWriter.WriteUint64 | src/BLEPacket/BinaryWriter.cpp:30-40 | appends eight bytes in network order |
| BinaryIO.BinaryWriter.WriteData | src/BLEPacket/BinaryWriter.cpp:42-47 | appends the first len bytes |
| Packets.ReadHeader | src/BLEPacket/Base.cpp:35-65 | the header reads what the format puts there, by version and flags |
| Packets.ReadSignature | src/BLEPacket/Base.cpp:67-77 | the next 64 bytes if the flags say so, malformed if they are missing |
| Packets.WriteHeader | src/BLEPacket/Base.cpp:165-184 | appends the header of version 1 |
| Packets.Message.Parse | src/BLEPacket/Message.cpp:13-82 | the parsing constructor computes the specified parse |
| Packets.Message.ReadPayload | src/BLEPacket/Message.cpp:16-80 | the do-while loop computes the loop function and ends |
| Packets.Message.ReadField | src/BLEPacket/Message.cpp:19-78 | one round of the loop |
| Packets.Message.GetPayloadLength | src/BLEPacket/Message.cpp:137-155 | the declared or computed length, which is stored |
| Packets.Message.WritePacketPayload | src/BLEPacket/Message.cpp:157-186 | appends the fields in order |
| Packets.Message.Write | src/BLEPacket/Base.cpp:165-200 | appends the whole frame and stores the length |
| Packets.Announce.Parse | src/BLEPacket/Announce.cpp:9-69 | the parsing constructor computes the specified parse |
| Packets.Announce.ReadPayload | src/BLEPacket/Announce.cpp:11-67 | the do-while loop computes the loop function and ends |
| Packets.Announce.ReadNeighbours | src/BLEPacket/Announce.cpp:34-40 | the nested loop reads neighbour ids until the length is used up |
| Packets.Announce.GetPayloadLength | src/BLEPacket/Announce.cpp:91-104 | the declared or computed length, which is stored |
| Packets.Announce.WritePacketPayload | src/BLEPacket/Announce.cpp:128-143 | appends the fields in order, the location under the types of messages |
| Packets.MicroMeshPreferences.Parse | src/BLEPacket/MicroMeshPreferences.cpp:10-62 | the parsing constructor computes the specified parse |
| Packets.MicroMeshPreferences.ReadPayload | src/BLEPacket/MicroMeshPreferences.cpp:12-60 | the do-while loop computes the loop function and ends |
| Packets.MicroMeshPreferences.GetPayloadLength | src/BLEPacket/MicroMeshPreferences.cpp:69-80 | the declared or computed length, which is stored |
| Packets.MicroMeshPreferences.WritePacketPayload | src/BLEPacket/MicroMeshPreferences.cpp:82-89 | appends the fields in order |
| PacketFormat.StepProgress | src/BLEPacket/BinaryReader.cpp:5-13 | in a buffer of up to 65277 or 65529 bytes, by type, a round inside it moves forward, and the first round past its end marks the packet malformed |
| ParseEnds.LoopIsRounds | src/BLEPacket/Message.cpp:18-80 | in such a buffer the loop is a number of rounds, the last of which is the first that meets its stopping test |
| ParseEnds.EndsExactly | src/BLEPacket/BinaryReader.cpp:99-101 | all frames of a type and size are parsed to an end, from any offset, exactly up to those sizes |
| ParseEnds.LoopFrameNeverEnds | src/BLEPacket/Message.cpp:79-80 | for every larger size a frame of version 1, with its declared length in its own header, on which the loop never ends |
| RoundTrip.IdsRoundTrip | src/BLEPacket/Announce.cpp:132-139 | neighbour ids come back in order |
| RoundTrip.HeaderRoundTrip | src/BLEPacket/Base.cpp:165-184 | a written header is parsed back field by field, up to its end |
| RoundTrip.SkipLocation | src/BLEPacket/Announce.cpp:140-142 | the location fields of an announce are skipped whole by its parser and disturb nothing |
| RoundTrip.StepOnTlv | src/BLEPacket/Message.cpp:19-78 | one round on a written field takes exactly that field |
| RoundTrip.LoopOverTlvs | src/BLEPacket/Message.cpp:18-80 | the loop takes all written fields and stops at the payload boundary, whatever follows |
| RoundTrip.Framing | src/BLEPacket/Base.cpp:218-226 | the declared length is the number of bytes written exactly when nothing counted is left unwritten |
| RoundTrip.FieldsRoundTrip | src/BLEPacket/Message.cpp:157-186 | the written fields rebuild the body, clipped, an announce without its location |
| Layouts.HeaderParsed | src/BLEPacket/Base.cpp:35-65 | a header of either version, wherever it lies, is parsed field by field up to its end: in version 2 a length of 4 bytes and a counted route |
| Layouts.FrameParsed | src/BLEPacket/Message.cpp:13-82 | a frame of either version with any well-formed fields and a 64-byte signature is parsed into exactly these, whatever follows |
| Layouts.UndeclaredIsOneField | src/BLEPacket/Message.cpp:79-80 | a frame that declares no length is read for one field and then has that field's length |
| Layouts.FrameRefused | src/BLEPacket/Message.cpp:19-78 | a payload with a number of the wrong length, or with bytes that run past the buffer, is malformed, and what came before is kept |
| Layouts.BodyParsed | src/BLEPacket/Announce.cpp:9-69 | a body laid out in a frame of either version comes back, its texts clipped |
| Layouts.PayloadIs | src/BLEPacket/PacketTypes.h:36-105 | every payload is written as its fields in order under their type numbers, texts cut after 255 bytes, numbers in four bytes |
| Layouts.FrameIs | src/BLEPacket/Base.cpp:165-200 | every packet is written as version, type, header, payload, a signature behind its length, and a zero byte |
| Layouts.SmokeReportFrames | test/test_ble_smoke_detector.cpp:13-14 | the two smoke reports are written, byte for byte, as these frames |
| Frames.UnsignedRoundTrip | src/BLEPacket/Base.cpp:165-200 | an unsigned packet comes back from its frame with any bytes behind it, stopping at the payload boundary |
| Frames.RoundTripExactly | src/BLEPacket/Message.cpp:13-82 | the unsigned round trip holds for all trailing bytes exactly when the payload is not empty and everything counted is written |
| Frames.SignatureExactly | src/BLEPacket/Base.cpp:67-77 | the signature of a packet with a non-empty, fully written payload survives exactly when shifting it by its length byte does not change it |
| Frames.OverlongIsOneField | src/BLEPacket/Message.cpp:79-80 | a payload declared longer than the buffer is parsed for one field: the unsigned guard wraps |
| Frames.LoopConsumes | src/BLEPacket/Message.cpp:79-80 | a loop that ends well has read at least the payload and is inside the buffer |
| Frames.ParseConsumes | src/BLEPacket/Announce.cpp:66-67 | the same for whole packets of every kind and version, from any offset |
| Frames.PreferencesRoundTrip | src/BLEPacket/MicroMeshPreferences.cpp:64-67 | read back with a flash sector behind them, preferences compare equal exactly when no string exceeds 255 bytes, and when they are accepted |
| Frames.RelayExactly | src/BLEPacket/ProtocolProcessor.cpp:66-75 | relaying changes the ttl byte only, exactly unless an announce carries a location |
| Frames.HopsExactly | src/BLEPacket/ProtocolProcessor.cpp:66-75 | over any number of hops the frame changes in the ttl byte only, and passes ttl - 1 nodes |
| Trackers.BleConnectionTracker.constructor | src/BLEPacket/BleConnectionTracker.h:127-152 | a new node is in order and knows nothing |
| Trackers.EraseIf | src/BLEPacket/BleConnectionTracker.cpp:656-666 | the loop behind erase_if keeps what is not stale, in order |
| Trackers.BleConnectionTracker.ConnectionForConnHandle | src/BLEPacket/BleConnectionTracker.cpp:54-60 | a connection is found or created under its handle |
| Trackers.BleConnectionTracker.StoreMessageAndReturnIfNew | src/BLEPacket/BleConnectionTracker.cpp:62-70 | a well-formed message of an unknown id is stored and new |
| Trackers.BleConnectionTracker.StoreAnnounceAndReturnIfNew | src/BLEPacket/BleConnectionTracker.cpp:72-86 | a newer announce replaces the stored one; only an unknown one is new, because the name is compared with the entry just overwritten |
| Trackers.BleConnectionTracker.CheckSenderInPeers | src/BLEPacket/BleConnectionTracker.cpp:102-107 | the sender is a peer afterwards |
| Trackers.BleConnectionTracker.EnqueueTargetedPacket | src/BLEPacket/BleConnectionTracker.cpp:109-125 | queued for the connection unless it is already |
| Trackers.BleConnectionTracker.EnqueueBroadcastPacket | src/BLEPacket/BleConnectionTracker.cpp:127-131 | queued last while the ttl lasts |
| Trackers.BleConnectionTracker.EnqueueBroadcastPacketFrom | src/BLEPacket/BleConnectionTracker.cpp:133-137 | the same, with a record of the peer |
| Trackers.BleConnectionTracker.ReportConnection | src/BLEPacket/BleConnectionTracker.cpp:174-210 | the neighbour becomes the connection under the handle; the node stays in order |
| Trackers.BleConnectionTracker.ReportDisconnection | src/BLEPacket/BleConnectionTracker.cpp:219-257 | the connection goes down, and records of own announces on it are dropped; the node stays in order |
| Trackers.BleConnectionTracker.SendPacketToConnection | src/BLEPacket/BleConnectionTracker.cpp:339-430 | whether the send succeeds and what the radio is given |
| Trackers.BleConnectionTracker.SentBefore | src/BLEPacket/BleConnectionTracker.cpp:489-495 | the loop finds an entry of the packet for the handle if there is one |
| Trackers.BleConnectionTracker.FoundFrom | src/BLEPacket/BleConnectionTracker.cpp:514-521 | the search from the packet's first entry to the end of the whole list |
| Trackers.BleConnectionTracker.SendTargetedPackets | src/BLEPacket/BleConnectionTracker.cpp:496-503 | the loop over the targeted list |
| Trackers.BleConnectionTracker.SendBroadcastPacket | src/BLEPacket/BleConnectionTracker.cpp:513-528 | the loop over the available connections |
| Trackers.BleConnectionTracker.SendPackets | src/BLEPacket/BleConnectionTracker.cpp:475-542 | a whole send computes the specified send and keeps the node in order |
| Trackers.BleConnectionTracker.SetupAnnounceIfNeeded | src/BLEPacket/BleConnectionTracker.cpp:564-588 | location refreshed each time, the rest set up once |
| Trackers.BleConnectionTracker.AnnounceToConnections | src/BLEPacket/BleConnectionTracker.cpp:590-628 | queues the announce as specified and keeps the node in order |
| Trackers.BleConnectionTracker.CleanupStaleItems | src/BLEPacket/BleConnectionTracker.cpp:648-687 | erases as specified and keeps the node in order |
| Trackers.BleConnectionTracker.FindDuplicate | src/BLEPacket/BleConnectionTracker.cpp:776-789 | finds two handles of one peer if and only if there are such, zero aside |
| Trackers.BleConnectionTracker.GetAnyDuplicateHandle | src/BLEPacket/BleConnectionTracker.cpp:776-791 | zero exactly when no two nonzero handles share a peer, and then nothing changes; otherwise one whose twin was seen no earlier, and both have connections afterwards |
| ProtocolProcessing.ProtocolProcessor.UpdateOrStorePeerNameFromAnnouncement | src/BLEPacket/ProtocolProcessor.cpp:30-38 | the peer behind an announce is updated, and owns the handle at its best ttl |
| ProtocolProcessing.ProtocolProcessor.ProcessAnnounce | src/BLEPacket/ProtocolProcessor.cpp:52-65 | the receive step for announces |
| ProtocolProcessing.ProtocolProcessor.ProcessMessage | src/BLEPacket/ProtocolProcessor.cpp:66-77 | the receive step for messages |
| ProtocolProcessing.ProtocolProcessor.OnWrite | main.cpp:511-525 | a notification is processed on the connection of its handle, which is created if unknown |
| ProtocolProcessing.ProtocolProcessor.ProcessWrite | src/BLEPacket/ProtocolProcessor.cpp:40-86 | any bytes at any offset: parsed by the packet classes and received as specified, the node stays in order |
| TrackerInvariant.PutMessageInv | src/BLEPacket/BleConnectionTracker.cpp:62-70 | storing a message keeps the node in order |
| TrackerInvariant.ReceiveMessageInv | src/BLEPacket/ProtocolProcessor.cpp:66-77 | receiving any message keeps the node in order |
| TrackerInvariant.ReceiveAnnounceInv | src/BLEPacket/ProtocolProcessor.cpp:52-65 | receiving any announce keeps the node in order |
| TrackerInvariant.ReportConnectionInv | src/BLEPacket/BleConnectionTracker.cpp:174-210 | a connection keeps the node in order |
| TrackerInvariant.ReportDisconnectionInv | src/BLEPacket/BleConnectionTracker.cpp:219-257 | a disconnection keeps the node in order |
| TrackerInvariant.SendPacketsInv | src/BLEPacket/BleConnectionTracker.cpp:475-542 | a send keeps the node in order |
| TrackerInvariant.AnnounceToConnectionsInv | src/BLEPacket/BleConnectionTracker.cpp:590-628 | announcing keeps the node in order |
| TrackerInvariant.CleanupIntact | src/BLEPacket/BleConnectionTracker.cpp:648-687 | nothing a cleanup keeps refers to anything it drops |
| TrackerInvariant.CleanupInv | src/BLEPacket/BleConnectionTracker.cpp:648-687 | a cleanup keeps the node in order |
| TrackerRuns.ReceiveInv | src/BLEPacket/ProtocolProcessor.cpp:40-86 | any frame keeps the node in order |
| TrackerRuns.HappenInv | src/BLEPacket/BleConnectionTracker.cpp:475-687 | every event keeps the node in order |
| TrackerRuns.RunsKeepReferences | src/BLEPacket/BleConnectionTracker.cpp:648-687 | after any run every reference in a list is to something that is there, and no list repeats itself |
| AtMostOnce.DisconnectionForgets | src/BLEPacket/BleConnectionTracker.cpp:230-254 | a disconnection forgets exactly that own announces went to that handle |
| AtMostOnce.HappenRespects | src/BLEPacket/BleConnectionTracker.cpp:475-542 | one event sends nothing that is settled, and records what it settles |
| AtMostOnce.RunsSendOnce | src/BLEPacket/BleConnectionTracker.cpp:475-542 | over any run nothing is handed to the radio again for a connection it is settled for |
| AtMostOnce.MessagesGoOnce | src/BLEPacket/BleConnectionTracker.cpp:509-528 | no message goes twice to one connection in a run without cleanup |
| AtMostOnce.OwnAnnounceGoesOnce | src/BLEPacket/BleConnectionTracker.cpp:489-503 | per session the own announce is taken once per connection, and not tried after that |
| AtMostOnce.AnnouncesToUnannounced | src/BLEPacket/BleConnectionTracker.cpp:602-627 | the announce is queued for exactly the available connections without a record |
| AtMostOnce.EligibleAgain | src/BLEPacket/BleConnectionTracker.cpp:219-257 | a connection that went down and came back is announced to again |
| OwnAnnounces.AnnounceIs | src/BLEPacket/BleConnectionTracker.cpp:564-628 | after any run the own announce has the node's id and name, ttl 3 and no flags, the place where it last announced and the time when it last did so to someone; before the first announcing it is as it was |
| OwnAnnounces.NoTimeNoAnnounce | src/BLEPacket/BleConnectionTracker.cpp:590-600 | without the time nothing is queued |
| OwnAnnounces.AnnounceFrame | src/BLEPacket/BleConnectionTracker.cpp:564-588 | the frame that goes out for it, byte for byte |
| OwnAnnounces.AnnounceHeard | src/BLEPacket/ProtocolProcessor.cpp:30-38 | whoever hears it knows the node under its id, by the first 255 bytes of its name, on that connection |
| TargetedSends.TargetedExactly | src/BLEPacket/BleConnectionTracker.cpp:489-507 | exactly which targeted entries get a record, and that a packet that got through to anyone is taken off the list for everyone |
| SendLog.SendsExactly | src/BLEPacket/BleConnectionTracker.cpp:475-542 | for each packet and connection the radio gets one frame, the stored packet as written, if that is due, did not come in there and fits; otherwise nothing |
| BroadcastQueue.ReceivedQueue | src/BLEPacket/ProtocolProcessor.cpp:52-77 | a frame adds to the queue exactly a well-formed unknown packet with hops left |
| BroadcastQueue.SendQueue | src/BLEPacket/BleConnectionTracker.cpp:509-541 | a send takes the oldest packet exactly when a connection is available |
| BroadcastQueue.QueueIsFifo | src/BLEPacket/BleConnectionTracker.cpp:127-137 | over any run without cleanup the queue is the old one and the arrivals, less as many of the oldest as there were sends with a listener |
| BroadcastQueue.NothingQueuedTwice | src/BLEPacket/ProtocolProcessor.cpp:52-77 | without cleanup nothing enters the queue twice or after being known |
| BroadcastReach.BroadcastReachesExactly | src/BLEPacket/BleConnectionTracker.cpp:509-535 | exactly which available connections a broadcast counts as sent to when it leaves the queue |
| BroadcastReach.BroadcastCanSkip | src/BLEPacket/BleConnectionTracker.cpp:515-521 | a run from power-on after which a message has left the queue without having gone to an available connection |
| BroadcastReach.GoneForGood | src/BLEPacket/BleConnectionTracker.cpp:509-541 | a known packet that is not queued is not handed to the radio again in any run without cleanup |
| Receiving.OnlyTheseFrames | src/BLEPacket/ProtocolProcessor.cpp:40-84 | frames of version 1 or 2 with an announce or a message are received, any other changes nothing but the table of connections |
| Receiving.EventRecords | src/BLEPacket/BleConnectionTracker.cpp:133-137 | exactly the received packets that are passed on are recorded for their senders |
| Receiving.NoEcho | src/BLEPacket/BleConnectionTracker.cpp:339-342 | in no run without cleanup is a message handed over for the connection it came in on |
| Receiving.ReceivedHasNoEcho | src/BLEPacket/ProtocolProcessor.cpp:66-77 | the same from the moment a message comes in and is passed on |
| Sessions.ConnectionsShow | src/BLEPacket/BleConnectionTracker.cpp:174-257 | after any run a handle is up exactly when connected and not disconnected since, with the time and role of the connection and what discovery has found since |
| Sessions.NeighboursShow | src/BLEPacket/BleConnectionTracker.cpp:161-172 | after any run without cleanup the neighbours are the addresses advertised and not connected to since, with the time of the last advertisement |
| Sessions.LinkStartsAfresh | src/BLEPacket/BleConnectionTracker.cpp:174-188 | a connection to an advertised neighbour forgets what was found out under its handle, any other keeps it; no other connection changes |
| TrackerStores.StoreHoldsNewest | src/BLEPacket/BleConnectionTracker.cpp:72-86 | after any run from power-on without cleanup, the store holds the first of the newest announces of every identity heard, counted down if it was passed on |
| TrackerStores.NewOncePerIdentity | src/BLEPacket/ProtocolProcessor.cpp:57-63 | an announce is passed on exactly when it is the first well-formed one of its identity in the run and has hops left |
| TrackerStores.CleanupKeepsExactly | src/BLEPacket/BleConnectionTracker.cpp:648-687 | a cleanup keeps exactly what is not stale, and exactly the entries both of whose ends are kept |
| TrackerStores.CleanupTwice | src/BLEPacket/BleConnectionTracker.cpp:648-687 | a second cleanup at the same time changes nothing |
| TrackerStores.SameIdentity | src/BLEPacket/Announce.cpp:113-126 | two announces have one identity exactly when seven fields agree |
| TrackerStores.CleanupAges | src/BLEPacket/BleConnectionTracker.h:24 | what is stamped at most 600000 ms ago, and connections that are up or were seen so recently, are kept, and nothing else |
| TrackerStores.CleanupLists | src/BLEPacket/BleConnectionTracker.cpp:651-666 | of every list exactly the entries whose packet and connection are kept |
| TrackerStores.NewAgainWhenStale | src/BLEPacket/BleConnectionTracker.cpp:673-676 | a message is accepted again after a cleanup exactly when it was unknown or stamped more than 600000 ms ago |
| PeerOwners.PeersAreBest | src/BLEPacket/ProtocolProcessor.cpp:30-38 | after any run from power-on, who is a peer, and that a peer has the largest ttl its announces came with and the connection and name of the last one |
| PeerOwners.EventMeets | src/BLEPacket/BleConnectionTracker.cpp:219-257 | what each event makes of peers and owners: announces, messages passed on and disconnections, and nothing else |
| PeerOwners.OwnersAreBest | src/BLEPacket/ProtocolProcessor.cpp:34-37 | after any run from power-on a connection belongs to the sender of the last announce, since it was last lost, that came over it at its sender's best |
| Wire.WireRoundTrip | src/BLEPacket/Message.cpp:13-82 | the frame of a wireable message is parsed into the same body under the header as it was sent |
| Wire.ArrivedIsWireable | src/BLEPacket/ProtocolProcessor.cpp:66-75 | what arrives is wireable and is written as the same frame again |
| Wire.SmokeMessageIsWireable | main.cpp:852-916 | every message a node makes of its own is wireable |
| Wire.ContentSays | main.cpp:858-905 | what a message says and how it is marked, for every reason |
| Wire.SmokeMessageSays | main.cpp:852-916 | the channel, ttl, minute, id, text and place of a message a node makes |
| Wire.SameIdExactly | main.cpp:893-909 | two messages share an id exactly when they share sender, minute and mark |
| MeshNode.MessageArrives | src/BLEPacket/ProtocolProcessor.cpp:66-77 | a known message changes nothing; an unknown one is kept, with all but its ttl as sent, counted down and queued while it has hops left |
| MeshNode.NodeIsHop | src/BLEPacket/ProtocolProcessor.cpp:52-77 | a node that receives a frame of an unknown packet queues exactly what one hop lets through, and stores it as the hop writes it |
| MeshNode.VersionTwoGoesOnAsOne | src/BLEPacket/Base.cpp:165-200 | a message that comes in a version 2 frame is passed on in a version 1 frame, without its route, one hop less |
| MeshNode.SendsOldest | src/BLEPacket/BleConnectionTracker.cpp:475-542 | a send hands over only frames of stored packets, never back to where they came from and never above the mtu, and only the own announce and the oldest broadcast |
| Mesh.MoveOk | src/BLEPacket/ProtocolProcessor.cpp:40-86 | every move of the network keeps every node and every frame in the air in order |
| Mesh.TransmitFlies | src/BLEPacket/BleConnectionTracker.cpp:509-528 | after a send the air holds what it held and a flight for exactly every frame the radio took for a linked port |
| Flood.EveryCopyIsCounted | src/BLEPacket/ProtocolProcessor.cpp:70-71 | in every reachable state ttl plus hops is the ttl the message was made with, for every queued copy and every frame; at least one ttl is left, and the frame is the first one but for its ttl byte |
| Flood.HistoryKept | src/BLEPacket/BleConnectionTracker.cpp:475-542 | no node queues a packet twice and no port is tried twice for a message, over any run of the network without cleanup |
| Flood.FloodIsBounded | src/BLEPacket/ProtocolProcessor.cpp:66-77 | in any run without cleanup a message is handed over at most as often as there are ports |
| Radius.TtlIsRadius | src/BLEPacket/ProtocolProcessor.cpp:69-75 | in any run, a node that knows a message is at most as many links away from a node that made it as the ttl it was made with |
| Radius.FramesAreRelays | src/BLEPacket/ProtocolProcessor.cpp:66-75 | in any run every frame of a message in the air is that of a message a node made, its ttl counted down once per link but the first between there and here |
| Coverage.TtlIsExactlyRadius | src/BLEPacket/ProtocolProcessor.cpp:69-75 | where every link carries frames and nothing has been sent yet, the nodes that can learn of a message are exactly those within its ttl of links of its maker |
| FloodEnds.MoveSpends | src/BLEPacket/BleConnectionTracker.cpp:509-541 | no move but a cleanup raises what a message can still cost, and every move of the message lowers it |
| FloodEnds.FloodTerminates | src/BLEPacket/ProtocolProcessor.cpp:66-77 | in any run without cleanup a message leaves queues, is delivered and is lost at most as often as there are ports and nodes |
| TtlBound.MoveCosts | src/BLEPacket/ProtocolProcessor.cpp:70-71 | every move of a message spends of what its copies can cost by their ttl; nothing but making it adds to that, a cleanup included |
| TtlBound.TtlBoundsFlood | src/BLEPacket/ProtocolProcessor.cpp:66-77 | in any run, cleanups included, a message makes at most as many moves as the ttls it was made with and the largest number of ports allow |
| TtlBound.CostIsTrees | src/BLEPacket/ProtocolProcessor.cpp:70-71 | what one making can cost is, less one, the nodes of the trees of its ttl's depth and of one less, with as many children everywhere as a node has ports |

## Left out

- PacketFormat.StepProgress: buffers above those sizes are not parsed in the model, because the loop need not end there (`ParseEnds.LoopFrameNeverEnds`); frames above them that do end are not followed.
- CircularBuffers.CircularBuffer.WriteString: strings of 65536 characters and more, on which the 16-bit counter wraps, are excluded; so is a buffer of size zero, whose index arithmetic divides by zero.
- CircularBuffers.CircularBuffer.ConsumeLine: requires the slot behind the buffer to be zero; the original never writes it before the first line read unless a write ends there and relies on what the allocation held. It copies into the caller's array at the end of the read instead of piecewise.
- LogDrain.PrintAvailableLogging: requires that the reads come to an end, since a method has to; the states from which they do not are those of `LogDrain.StuckForEver` among others.
- Frames.RoundTripExactly: requires a stored payload length, if any, to be that of the body; a setter called after the first write leaves the old length in place.
- Frames.SignatureExactly: does not cover signed packets whose payload is empty or not fully written; there the field loop reads into the signature, and no signature is made by the code.
- Trackers.BleConnectionTracker.ReportConnection: does not keep the Bluetooth address on the connection and does not register the listener for notifications.
- Trackers.BleConnectionTracker.ReportDisconnection: does not clear the notification flag and does not remove the listener.
- Trackers.BleConnectionTracker.SendPacketToConnection: does not store the payload length that writing a stored packet caches, so a later change of the own announce's location does not show up as a stale length; the raw notify and write queues behind the radio (src/BLEPacket/BleConnectionTracker.cpp:714-774) are one answer of the radio.
- ProtocolProcessing.ProtocolProcessor.ProcessAnnounce: does not update the clock offset; whether the time is known is an input of announcing.
- ProtocolProcessing.ProtocolProcessor.ProcessWrite: parses received preferences and does not keep them; does not update the clock offset.
- ProtocolProcessing.ProtocolProcessor.OnWrite: leaves out what `ProcessWrite` leaves out.
- Trackers.BleConnectionTracker.FoundFrom: the order of the multimaps is given by a function from packets to addresses; entries of one packet keep the order they were added in.
- TrackerStores.StoreHoldsNewest: covers runs without cleanup; what a cleanup keeps is `CleanupKeepsExactly`.
- Announce identities: the tuple of hashed fields stands for its hash, so collisions of `std::hash` are not modelled.
- Version 2 frames are read but never written, as in the original.
- RSSI, statistics, failure reasons, neighbour selection and `requestNextRssi`: inputs or observations.
- `updatePreferences` and flash; locations are inputs.
- Mutexes and interrupts in the log buffer: calls are sequential; `writeF` is a string write.
- Hex helpers of the reader and writer: not used by the codec.
- Advertising, scanning, service discovery, GPIO, sleep and the main loops.
- Foreign frames in the network: every frame in the air comes from a node of the network, and messages start wireable, as `Wire.SmokeMessage` makes them; the single-node theorems take arbitrary bytes.
- Connections that change during a flood: the network theorems keep linked connections up; the single-node theorems cover connections that come and go.
