# FlexiHAL simulator: verified model

This project models four parts of the FlexiHAL grblHAL simulator in Dafny and proves what they promise.

**Keep-out geometry.** A straight move is a segment between two positions. `Geometry` says what it means for a segment to
cross a box, to dwell in it, and to enter it first at some parameter; `Clipping` is the theory of the Liang-Barsky window.
`Zones`, `ExclusionZones` and `AtciKeepout` hold the loops and the travel hooks of the two plugins, each proved against
those meanings. `JogSafety` answers the question the jog hook leaves open: it clips a jog against one zone after the other
and never looks back, and a zone without a Z range cuts X and Y but keeps the requested Z. The result is exact. The loop is
safe for every jog if and only if every all-depths zone that bans jogging stands before every one with a Z range; for level
jogs it is always safe. A concrete table and jog show the failure for every other order. `KeepoutRuns` carries this to whole
runs with both plugins and the core's own limiter chained, while tables, settings and the guard change: in every state the
two hooks act as one loop over the zones followed by an active guard that zone 0 does not mirror, and the same order
condition is exact for that chain. `KeepoutPlugins` shows that the two plugin objects refine that run model: every move,
jog, tool change, switch, setting and command does to them what the model's events say.

**Byte streams.** `WebSocketFrames` defines what a stream of RFC 6455 frames amounts to (`Drain`), independent of how it
arrives, and proves the round trip with a sender in all length forms. `WebSocket` is the receiver and sender with their
buffers updated in place; `Ring`, `Serial` and `SerialPipeline` continue to the controller's stream through the UART. Ghost
histories state conservation end to end in both directions. `McuTimers` gives the closed form of the prescaled timers.
`Handshake` covers base64 and the SHA-1 padding.

**Macro calls.** `Macros` is the plugin's call stack as a class; `MacroRuns` feeds it lines and proves that it produces the
trace of the recursive meaning: run the called body as often as asked, then go on after the call. The step machine in
between is what the plugin object and the core's line loop do (`MacroRuns.PerformStep`).

**Tool table.** `ToolText`, `ToolLines` and `ToolFile` are the printer, the tokenising parser and the line reader;
`ToolTable` holds the operations, every one of which rewrites the whole file; `ToolTableFacts` relates operations. A file
stands for an ordered list of tools, and every run of operations does to that list what it should.

Objects that the program updates in place are classes (`ExclusionZones`, `AtciKeepout`, `WebSocket`, `Ring`, `Uart`,
`Serial`, `Mcu`, `MacroPlugin`, `ToolTable`), fixed buffers are arrays, and loops stay loops; their contracts equate the new
state with a function of the old one, and the lemmas are about those functions. Fields marked `ghost` are histories that
exist for the proofs only.

Some results are corrections of what one might expect:

- the jog loop is not safe for every zone order (`JogSafety.OrderIsExact`, `JogSafety.WrongOrderFails`);
- the ATCi guard takes a new rectangle at once, zone 0 only later; in between the guard clips after all zones and keeps the
  requested Z, so that a jog can pass through the depth of a zone that bans everything, from a table in safe order
  (`KeepoutRuns.NewRectangleFails`); the jogs are safe in that state exactly if no zone that bans jogging has a Z range
  (`KeepoutRuns.StaleGuardIsExact`);
- the tool printer casts tool numbers to 16 bits, so printing and parsing undo each other exactly for numbers below 65536
  (`ToolLines.RoundTripIff`, `ToolLines.WideNumberIsLost`); registering a wider number leaves the table well-formed exactly
  if what is left of it was not listed already (`ToolTable.AssignKeepsWf`).

Where comment and code differ the code is followed: plugins/tooltable.h line 41 announces a "tool already in pocket" result
for registering a tool that has a pocket; the code renames it or answers "already registered".

## Model

| member | source | states |
|---|---|---|
| Zones.SegmentIntersectsZone | plugins/exclusion_zones.c:143-167 | The answer is true exactly if the move stays in the closed, tolerance-shrunk zone over an interval of positive length (X and Y only for a zone without Z range) |
| Zones.LiangBarsky | plugins/exclusion_zones.c:143-167 | Gives up only if no parameter in [0,1] satisfies all slab constraints; otherwise the window left is exactly the set of parameters that do |
| Zones.ClipToZoneBoundary | plugins/exclusion_zones.c:169-202 | Succeeds exactly if the move enters the full zone from outside; the result is the first-entry point in X and Y, and in Z only for a zone with a Z range; on failure the output is untouched |
| Zones.ClipFailsIff | plugins/exclusion_zones.c:169-202 | A first entry exists exactly if the start is not in the closed zone and some point of the move is |
| Geometry.EntryTimeUnique | plugins/exclusion_zones.c:193-200 | There is at most one first entry, so the clip's result is determined by the zone and the move |
| Zones.DeepPointMeansCrossing | plugins/exclusion_zones.c:134-167 | One deep point anywhere on the move makes the crossing test true; so a move that passes the test has no deep point |
| Zones.DeepTargetMeansCrossing | plugins/exclusion_zones.c:236-257 | The separate test for a deep target is redundant |
| Zones.NarrowZoneNeverBlocks | plugins/exclusion_zones.c:134-167 | A zone narrower than a millimetre along an axis it constrains is crossed by no move; Z is constrained unless both bounds are zero |
| Zones.WideZoneBlocks | plugins/exclusion_zones.c:112-167 | A zone wider than a millimetre along every axis it constrains blocks every move to its middle; with both Z bounds zero it does so at every depth |
| Zones.FlagBits | plugins/exclusion_zones.c:206-214 | Bits 0 to 3 of the permission byte allow G-code, jogging and tool changes and enable the zone, in this order |
| Zones.Normalise | plugins/exclusion_zones.c:117-123 | Bounds come out in order, each pair keeps its two values, permissions and the missing Z range are preserved, ordered zones are unchanged |
| Zones.ClippedClearsOwnZone | plugins/exclusion_zones.c:169-202 | After clipping against a zone the move does not cross that zone |
| Zones.ClippedKeepsUncrossed | plugins/exclusion_zones.c:193-200 | Clipping against one zone makes no other zone crossed, provided the clip shortens every axis the other looks at |
| ExclusionZones.ExclusionZones.CheckTravel | plugins/exclusion_zones.c:223-264 | With exclusion enabled, accepts exactly if the previous hook accepts and no enabled zone is crossed that bans tool changes, while a tool-change macro runs, or G-code, otherwise; a missing plan position counts as the origin |
| ExclusionZones.ExclusionZones.CurrentOp | plugins/exclusion_zones.c:216-219 | Moves count as tool change exactly while a tool-change macro runs, and as G-code otherwise |
| ExclusionZones.ExclusionZones.ClipAgainstZones | plugins/exclusion_zones.c:266-305 | The zone loop alone: it passes the clipped jog on, or brings a blocked one back to where it starts |
| ExclusionZones.ExclusionZones.ApplyTravel | plugins/exclusion_zones.c:266-311 | A blocked jog ends where it starts, any other ends where the zone-by-zone clip takes it and then where the previous hook puts it |
| ExclusionZones.ExclusionZones.SetZone | plugins/exclusion_zones.c:362-388 | Rejects short commands, slot 0 and slots past 15; else exactly that slot holds the ordered zone, a gap is filled with blanks, the whole is saved |
| ExclusionZones.ExclusionZones.DeleteZone | plugins/exclusion_zones.c:342-360 | Slots count modulo 256; slot 0 and unused slots are refused and nothing changes, otherwise exactly that zone leaves the sequence and the table stays valid |
| ExclusionZones.ExclusionZones.SetGlobalEnabled | plugins/exclusion_zones.c:333-340 | Anything but a leading 0 enables; zones are untouched and the setting is saved |
| ExclusionZones.ExclusionZones.Restore | plugins/exclusion_zones.c:462-467 | Empty, enabled, saved |
| ExclusionZones.ExclusionZones.Load | plugins/exclusion_zones.c:469-475 | What was saved comes back unchanged, since saved zones already are in order; with nothing saved the defaults are in force |
| ExclusionZones.ExclusionZones.SyncZone0FromAtci | plugins/exclusion_zones.c:80-103 | Zone 0 becomes the ordered ATCi rectangle, absent settings reading as 0, open to tool changes only; all other zones stay |
| ExclusionZones.ExclusionZones.ToolSelected | plugins/exclusion_zones.c:315-319 | A tool change is under way |
| ExclusionZones.ExclusionZones.ToolChanged | plugins/exclusion_zones.c:321-325 | The tool change is over |
| ExclusionZones.AtciZone | plugins/exclusion_zones.c:80-103 | The mirrored zone has the four given bounds in order, no Z range, and bans G-code and jogging but not tool changes |
| ExclusionZones.SetSlot | plugins/exclusion_zones.c:375-384 | Only the named slot changes, and slots in between are blank |
| ExclusionZones.RemoveSlot | plugins/exclusion_zones.c:350-354 | The zones behind the deleted one move down by one, all others stay |
| ExclusionZones.StoredFlags | plugins/exclusion_zones.c:379 | An omitted or small flag word enables the zone and keeps its permissions; a full one is taken as a byte |
| ExclusionZones.DeleteOnlyFrees | plugins/exclusion_zones.c:342-360 | After deleting a zone a move is accepted exactly if the others accept it; so deletion never rejects a move that was accepted |
| ExclusionZones.GapIsHarmless | plugins/exclusion_zones.c:375-384 | Setting a zone beyond the end adds that zone's own ban and nothing else |
| ExclusionZones.CommandsKeepTable | plugins/exclusion_zones.c:342-388 | No run of set and delete commands touches zone 0, exceeds sixteen zones or leaves bounds out of order |
| JogSafety.JogIsClear | plugins/exclusion_zones.c:266-311 | The jog let through crosses no zone that bans jogging, although earlier zones are not rechecked, for every level jog and, with all-depths zones first, for every jog |
| JogSafety.OrderIsExact | plugins/exclusion_zones.c:266-311 | All-depths zones before zones with a Z range is exactly the table order for which the loop is safe for all zones and jogs |
| JogSafety.WrongOrderFails | plugins/exclusion_zones.c:193-200 | For every other order a table of that layout and one fixed jog end in a move that crosses a banning zone |
| JogSafety.JogThroughShape | plugins/exclusion_zones.c:266-311 | The result is on the requested line in X and Y, at least as far along in Z, other axes as requested; a jog that meets nothing is unchanged |
| JogSafety.NothingMet | plugins/exclusion_zones.c:266-311 | A jog from outside that crosses no zone is neither blocked nor changed |
| JogSafety.NeverBlockedOutside | plugins/exclusion_zones.c:266-311 | A jog that starts in no zone that bans jogging, boundaries included, is never blocked altogether |
| AtciKeepout.AtciKeepout.KeepoutSet | plugins/sienci-atci-plugin.c:97-103 | The guarded rectangle is the same zone that the exclusion plugin mirrors from the settings |
| AtciKeepout.AtciKeepout.ToolSelected | plugins/sienci-atci-plugin.c:118-126 | With macro monitoring on, the guard is off while a tool is changed; with it off, nothing changes |
| AtciKeepout.AtciKeepout.ToolChanged | plugins/sienci-atci-plugin.c:128-137 | With macro monitoring on, the guard follows the rack again; with it off, nothing changes |
| AtciKeepout.AtciKeepout.SetKeepoutState | plugins/sienci-atci-plugin.c:110-116 | State and source are the new ones |
| AtciKeepout.AtciKeepout.Active | plugins/sienci-atci-plugin.c:105-108 | The guard is active exactly if the plugin is enabled and the guard switched on |
| AtciKeepout.AtciKeepout.LineIntersectsKeepout | plugins/sienci-atci-plugin.c:165-193 | Answers the same geometric question as the zone plugin's test, for the guarded rectangle |
| AtciKeepout.AtciKeepout.CalculateClippedPoint | plugins/sienci-atci-plugin.c:245-292 | Succeeds on the same moves and yields the same point as the zone plugin's clip |
| AtciKeepout.AtciKeepout.TravelLimitsCheck | plugins/sienci-atci-plugin.c:195-243 | An active guard accepts exactly the moves that do not cross the rectangle and that the previous hook accepts |
| AtciKeepout.AtciKeepout.ApplyTravelLimits | plugins/sienci-atci-plugin.c:294-349 | From deep inside a jog stays put, a jog that crosses is stopped at the first entry or where it starts, any other goes to the previous hook |
| KeepoutRuns.AtciFallsThrough | src/my_plugin.c:8-12 | With zone 0 mirrored and the zone hook outermost, a jog the zone loop lets through and a G-code move it accepts pass the ATCi guard unchanged |
| KeepoutRuns.HooksAreOneLoop | src/my_plugin.c:8-12 | In any state the two jog hooks together give what one loop over the zones and then the active, unmirrored guard gives, up to the limiter behind them |
| KeepoutRuns.ChainedJogIsClear | plugins/exclusion_zones.c:266-311 | With all hooks chained, mirrored or not, a level jog, or any jog if all-depths keep-outs come first in the chain, either stays put or crosses nothing in force that bans jogging |
| KeepoutRuns.StepIsClear | plugins/exclusion_zones.c:206-325 | One event moves the machine through the depth of anything in force that bans G-code and jogging only as a move of a tool-change macro through a zone open to it |
| KeepoutRuns.NeverDeep | plugins/exclusion_zones.c:206-325 | Over every run of moves, jogs, tool-change events and changes of zones, guard and settings, as long as a zone that bans everything is in force, no point travelled from a start that is not deep in it is deep in it |
| KeepoutRuns.DeepOnlyInToolChange | plugins/exclusion_zones.c:206-325 | In every step of such a run, whatever is then in force and bans G-code and jogging is travelled in depth only while a tool-change macro runs |
| KeepoutRuns.ChainOrderIsExact | plugins/exclusion_zones.c:266-311 | For every layout of the chain: all states and jogs are safe exactly if all-depths keep-outs come first in it |
| KeepoutRuns.StaleGuardIsExact | plugins/sienci-atci-plugin.c:294-349 | With an active guard that zone 0 does not mirror, all jogs are safe for a table layout exactly if no zone that bans jogging has a Z range |
| KeepoutRuns.StaleGuardFails | plugins/sienci-atci-plugin.c:294-349 | For every other layout a table, a guard and one fixed jog end in a move that crosses a banning zone |
| KeepoutRuns.NewRectangleFails | plugins/sienci-atci-plugin.c:402-406 | From a mirrored table in safe order, a new guard rectangle and one jog lead through the depth of a zone that bans everything |
| KeepoutPlugins.Perform | plugins/exclusion_zones.c:206-475 | Every action on the two plugin objects does to the state they stand for what its events of the run model say |
| KeepoutPlugins.CarryMove | src/my_plugin.c:8-12 | The three check hooks chained accept exactly the moves the run model accepts |
| KeepoutPlugins.CarryJog | src/my_plugin.c:8-12 | The three jog hooks chained end a jog exactly where the run model does |
| KeepoutPlugins.CarryToolChange | plugins/sienci-atci-plugin.c:118-137 | Tool-change events reach both plugins, and the guard's switch follows if it monitors them |
| KeepoutPlugins.CarryGuard | plugins/sienci-atci-plugin.c:97-116 | Switching the guard and giving it a rectangle take effect at once |
| KeepoutPlugins.CarryCommand | plugins/exclusion_zones.c:342-388 | Set and delete commands change the zones in force as the command semantics says |
| KeepoutPlugins.CarryTable | plugins/exclusion_zones.c:80-103 | Mirroring, enabling and restoring change the zones in force accordingly |
| KeepoutPlugins.AfterIsLast | plugins/exclusion_zones.c:206-325 | The state after a list of events is the last state of their run |
| Ring.Ring.Push | src/websocket.c:151-158 | The byte joins the end of the queue, or the buffer was full and nothing changes |
| Ring.Ring.Pop | src/websocket.c:452-456 | The oldest byte is taken, if there is one |
| Ring.Ring.Count | src/serial.c:36-40 | The number of bytes waiting, whether or not the buffer has wrapped around |
| Ring.Ring.Free | src/serial.c:42-45 | One slot is always kept free |
| WebSocketFrames.DrainInPieces | src/websocket.c:242-352 | Chunk independence: parsing what has arrived and later the tail with the next chunk is parsing everything at once; after a Close nothing more counts |
| WebSocketFrames.FitsInPieces | src/websocket.c:242-352 | Whether all frames fit the buffer can be judged piece by piece as well |
| WebSocketFrames.TailIsShort | src/websocket.c:320-325 | The unfinished tail of a stream of fitting frames leaves room for the next read |
| WebSocketFrames.NeverWedgesIff | src/websocket.c:320-325 | A receiver never runs out of room on whole frames, wherever the stream is cut, exactly if no frame up to the first Close exceeds its buffer |
| WebSocketFrames.MaskTwice | src/websocket.c:284-288 | Unmasking undoes masking |
| WebSocketFrames.XorIsBitwise | src/websocket.c:284-288 | Masking sets exactly the bits in which payload and key differ |
| WebSocketFrames.HeaderRoundTrip | src/websocket.c:249-267 | A header in any of the three length forms, masked or not, is read as what it announces |
| WebSocketFrames.FrameRoundTrip | src/websocket.c:242-317 | An encoded frame is recognised as complete, with its opcode, its unmasked payload and exactly the bytes behind it left over |
| WebSocketFrames.FramesRoundTrip | src/websocket.c:242-317 | Any list of frames is received as the text and binary payloads in order up to the first Close, with the pings before it counted and nothing left over |
| WebSocketFrames.SingleFrame | src/websocket.c:290-311 | A frame delivers data for opcodes 1 and 2, closes for 8, is a ping for 9 and is passed over otherwise |
| WebSocketFrames.StandardExamples | src/websocket.c:242-317 | The unmasked, masked and ping examples of section 5.7 of RFC 6455 are read as that section says |
| WebSocketFrames.FramesAreWhole | src/websocket.c:320-325 | A sent list of frames is whole frames, and fits the buffer exactly if each encoded frame up to the first Close does |
| WebSocketFrames.DeliveryIsPrefix | src/websocket.c:242-352 | However the stream is cut, what has been delivered is a prefix of what is owed, and all of it once everything has arrived |
| WebSocketFrames.DrainText | src/websocket.c:356-381 | A frame sent by the server is read back as exactly its data |
| WebSocketFrames.TextFrameShape | src/websocket.c:356-381 | A sent frame is a final, unmasked text frame with a header of 2, 4 or 10 bytes, the shortest that can hold the length |
| WebSocketFrames.PongsKeepData | src/websocket.c:306-310 | Pongs between frames do not disturb the outgoing data |
| WebSocket.WebSocket.RxPush | src/websocket.c:151-158 | The byte is offered; it joins the ring, or is lost exactly if the ring is full, which the overflow history records |
| WebSocket.KeptTwice | src/websocket.c:151-158 | What a ring keeps, and whether it loses anything, does not depend on how the offered data is cut into pieces |
| WebSocket.WebSocket.PushPayload | src/websocket.c:291-295 | The payload is offered in order: the ring keeps as much of its beginning as there is room for |
| WebSocket.WebSocket.ParseHeader | src/websocket.c:244-268 | Reads the header as RFC 6455 defines it, or finds that part of it is missing |
| WebSocket.WebSocket.Unmask | src/websocket.c:284-288 | The payload is combined with the key where it lies, all other bytes stay |
| WebSocket.WebSocket.LocateFrame | src/websocket.c:244-288 | Decides whether a whole frame is there; then its payload lies unmasked in place and the rest is untouched |
| WebSocket.WebSocket.TakeFrame | src/websocket.c:290-316 | One frame is consumed: its data is offered, a ping is answered, a Close ends the connection, other frames leave no trace |
| WebSocket.WebSocket.ProcessRawBuffer | src/websocket.c:242-317 | Offers exactly the data, answers exactly the pings and keeps exactly the tail that the buffered stream amounts to |
| WebSocket.WebSocket.ProcessIncoming | src/websocket.c:320-352 | Whatever the chunks were, the bytes offered on this connection are those of the stream received so far, the ring keeps those it has room for, each ping in the chunk is answered by one pong, and the connection stays open exactly until a Close, disconnect or error |
| WebSocket.WebSocket.RoomLeft | src/websocket.c:320-325 | On frames of at most 4096 encoded bytes the connected receiver always has room |
| WebSocket.WebSocket.Accept | src/websocket.c:422-445 | A new connection starts with an empty buffer and an empty stream; an existing one is left alone |
| WebSocket.WebSocket.NextByte | src/websocket.c:451-458 | The oldest byte, or 0 and nothing taken |
| WebSocket.WebSocket.GetChar | src/websocket.c:420-459 | A received chunk is parsed and offered at once; finding no data keeps the client, losing it ends the connection; then the oldest byte of what the ring holds is taken, and 0 without taking one exactly if it holds none |
| WebSocket.WebSocket.MakeHeader | src/websocket.c:360-377 | The minimal header of a final text frame, for every length below 2^63 |
| WebSocket.WebSocket.LengthBytes | src/websocket.c:372-376 | The shifts give the length in big-endian order |
| WebSocket.WebSocket.SendFrame | src/websocket.c:356-381 | A connected client gets exactly one text frame with the data, in the shortest length form |
| WebSocket.WebSocket.PutChar | src/websocket.c:461-476 | Sent frames decoded, plus the line buffer, are the bytes written; a frame goes out at a line end or at 511 bytes and is never empty; without a client nothing changes, while muted pending bytes go |
| WebSocket.WebSocket.ToggleTxMuted | src/websocket.c:478-484 | Muting discards the pending line, unmuting nothing |
| WebSocket.WebSocket.KickClient | src/websocket.c:486-497 | The client and its pending line are gone; without one nothing changes |
| Serial.QueueDrains | src/mcu.c:134-145 | n queued bytes are delivered, in order, after n + 1 serial steps |
| Serial.QueueNeedsSteps | src/mcu.c:134-145 | After any smaller number of steps, from the first on, a byte is still in the register, so n + 1 is exact |
| Serial.TxStepKeepsAll | src/serial.c:125-141 | A step loses, duplicates and reorders nothing |
| Serial.Serial.GetC | src/serial.c:23-34 | The oldest received byte, or -1; conservation is kept |
| Serial.Serial.PutC | src/serial.c:60-74 | A byte is queued exactly if there is room, and then the transmit interrupt is on |
| Serial.Serial.TxInterrupt | src/serial.c:130-141 | The oldest queued byte moves to the data register; the interrupt goes off exactly when the queue is empty |
| Serial.Serial.RxInterrupt | src/serial.c:143-158 | A byte the realtime handler does not claim joins the queue; a full queue sets the overflow flag; byte 6 requests the exit unless the queue is full |
| Serial.Serial.UartInterruptHandler | src/serial.c:125-159 | Both halves together, each acting only if its interrupt is pending |
| Serial.Serial.PollTx | src/mcu.c:144-145 | Transmission advances by exactly one byte, whatever the interrupt state was |
| Serial.Serial.Receive | src/mcu.c:148-153 | The byte joins the receive queue unless the realtime handler claims it; read and buffered bytes remain exactly the unclaimed arrived ones, without overflow |
| SerialPipeline.Simulator.SimulateSerial | src/mcu.c:134-155 | One byte time: the byte in the register is written to a connected, unmuted client, and only otherwise is the listening history broken; transmission advances by one step; with more than 100 slots free the network is read and exactly the oldest waiting byte is taken over, unless it is NUL; conservation holds in both directions and the UART path never overflows |
| SerialPipeline.Simulator.StepTx | src/mcu.c:139-145 | The byte in the register reaches a connected, unmuted client; the inbound side is untouched |
| SerialPipeline.Simulator.DeliverRegister | src/mcu.c:139-142 | The register's byte is delivered, and to a listening client's stream |
| SerialPipeline.Simulator.KickClient | src/websocket.c:486-497 | Kicking a client ends the listening history; without a client nothing is lost |
| SerialPipeline.Simulator.ToggleTxMuted | src/websocket.c:478-484 | Muting ends the listening history, unmuting loses nothing |
| SerialPipeline.Simulator.Putchar | src/main.c:123-125 | A byte reaches a listening client's stream, is dropped without a client, and while muted the pending line goes; nothing else is disturbed |
| SerialPipeline.Simulator.Getchar | src/main.c:123-125 | Network input is taken in and the connection kept or lost as the poll found; the byte returned is the oldest then waiting; 0 without one exactly if none waits |
| SerialPipeline.Simulator.PollRx | src/mcu.c:147-154 | With more than 100 slots free exactly the oldest waiting byte is taken, and arrives unless it is NUL; otherwise nothing is touched |
| SerialPipeline.Simulator.ReadByte | src/serial.c:23-34 | Reading keeps conservation over the whole pipeline |
| SerialPipeline.Simulator.WriteByte | src/serial.c:60-74 | Writing keeps conservation over the whole pipeline |
| SerialPipeline.Simulator.InboundConserved | src/mcu.c:147-154 | After any interleaving in which the WebSocket ring never filled: bytes read, then buffered, then still to come are exactly the received payloads minus NULs and bytes claimed by the realtime handler |
| SerialPipeline.Simulator.OutboundConserved | src/mcu.c:139-145 | While a client listens: frames sent decoded, line buffer, register and queue are exactly the bytes the controller wrote |
| SerialPipeline.Simulator.NeverWedged | src/websocket.c:320-325 | If the frames up to the first Close encode to at most 4096 bytes each, the client can always send more, delivery is a prefix of what is owed, and complete once all has arrived |
| McuTimers.Mcu.MasterClock | src/mcu.c:52-95 | Every enabled timer and the tick timer advance by one clock and their handlers run as often as they fire; before booting nothing happens |
| McuTimers.Mcu.ClockTimer | src/mcu.c:60-78 | One timer's prescaler, count-down, reload and interrupt; no other timer changes |
| McuTimers.TimerState | src/mcu.c:59-79 | Where a started timer stands after any number of clocks: whole prescaler periods, loads counted down, and the exact rest |
| McuTimers.FiringCount | src/mcu.c:59-79 | After n >= 1 clocks from a cold start the handler has run floor((n - 1) / (prescaler * load)) times, prescaler 0 acting as 1 |
| McuTimers.RunClocks | src/main.c:154-161 | After n clocks of the main loop every started timer has called its handler floor((n - 1) / (prescaler * load)) times, the tick timer floor((n - 1) / load) times |
| McuTimers.NeverFires | src/mcu.c:59-79 | A timer disabled, masked or with nothing to load never fires |
| McuTimers.MaskedClock | src/mcu.c:73-76 | With interrupts disabled timers count on just the same and nothing fires |
| Macros.MacroPlugin.EndMacro | src/macros.c:70-98 | The top call runs again with one repetition fewer, or is over: its file closed, or its caller's position restored; an emptied stack puts the hook back |
| Macros.MacroPlugin.PluginReset | src/macros.c:100-105 | All pending calls are abandoned, innermost first |
| Macros.MacroPlugin.OnG65MacroError | src/macros.c:107-117 | A rejected line abandons one call |
| Macros.MacroPlugin.OnG65MacroEOF | src/macros.c:119-131 | The end of the top call's file ends its body; a failure abandons all calls; other files are ignored |
| Macros.MacroPlugin.StackPush | src/macros.c:133-148 | The call is on top; the first one saves the hook and installs the plugin's |
| Macros.MacroPlugin.MacroStart | src/macros.c:150-166 | A full stack or a missing file is refused and nothing changes; check mode only looks; else the file is read from its start with the call on top |
| Macros.MacroPlugin.CallLocal | src/macros.c:181-187 | A full stack is refused; else reading goes on at the local macro in the same stream, with the way back remembered |
| Macros.MacroPlugin.MacroExit | src/macros.c:168-174 | A return ends the top call's body |
| Macros.MacroPlugin.MacroExecute | src/macros.c:176-201 | Ids below 100 get the earlier handler's answer and change nothing; others run a local macro if asked for and present, else a file; a full stack or a missing file is refused and nothing changes |
| Macros.EndKeepsLinked | src/macros.c:70-98 | Ending or abandoning a call keeps every other pending call on its own stream and the hook in place exactly while calls are pending |
| Macros.PushKeepsLinked | src/macros.c:133-148 | So does starting one |
| MacroRuns.RunBody | src/macros.c:70-98 | From any place in a body the machine reads to its end with exactly the trace the rest of the body means |
| MacroRuns.RunRepeats | src/macros.c:70-98 | From the start of its body a call produces the body's trace as often as asked and returns |
| MacroRuns.Times | src/macros.c:74 | A repeat count of 0 wraps around to 2^32 runs, any other is taken as it is |
| MacroRuns.CallRefines | src/macros.c:70-98 | A call in any reachable state yields exactly the trace of recursive execution, resumes after the call and leaves stack, streams and hook as they were |
| MacroRuns.ProgramRefines | src/macros.c:70-201 | A whole main program yields exactly the trace it means recursively, and everything else is as before |
| MacroRuns.CallStep | src/macros.c:176-201 | A line with a call stands at the start of the right body, and returning from there leads to just after the line |
| MacroRuns.CallRefused | src/macros.c:176-201 | A call halts the machine exactly if it leads nowhere or the stack is full, and then everything is as it was |
| MacroRuns.EarlierHandlerAnswers | src/macros.c:180-200 | For every library a call with an id below 100 returns the earlier handler's answer and changes nothing |
| MacroRuns.PerformStep | src/macros.c:70-201 | The plugin object, fed one line or end of stream, does exactly what the step machine does |
| MacroRuns.EndStep | src/macros.c:70-98 | At the end of a body, a return line or the end of a file that a call opened, the machine starts over or returns, according to the repetitions left |
| MacroRuns.EndIsOurs | src/macros.c:119-131 | A body that means anything inside a call never runs off the end of the main program, whose end the plugin does not hear of |
| MacroRuns.StepKeepsLinked | src/macros.c:70-201 | Every step of every run, errors of calls included, keeps streams, handles and hook linked |
| MacroRuns.ResetRestores | src/macros.c:100-105 | Reset closes every file a call opened, leaves the main stream just after the outermost call and puts back the hook found at the first push |
| ToolText.SplitJoin | plugins/tooltable.c:187-196 | Splitting at blanks undoes joining with spaces |
| ToolText.SplitAtBlank | plugins/tooltable.c:113 | A space or a tab anywhere separates what is before it from what is behind it |
| ToolText.SplitNoBlank | plugins/tooltable.c:113 | Text without spaces and tabs is a single word |
| ToolText.ReadUintOfDec | plugins/tooltable.c:275-276 | Reading an unsigned number undoes printing it |
| ToolText.ReadFloatOfFixed | plugins/tooltable.c:278-288 | Reading a number with three decimals undoes printing it, sign included |
| ToolLines.LineParses | plugins/tooltable.c:104-209 | Parsing a printed line gives the tool back, for any number, with number and pocket cut to 16 bits and the name single-spaced and without bars |
| ToolLines.RoundTripIff | plugins/tooltable.c:271-297 | Parser and printer undo each other exactly if number and pocket fit 16 bits |
| ToolLines.WideNumberIsLost | plugins/tooltable.c:275-276 | Tool 65536 is printed, and read back, as tool 0 |
| ToolLines.LineExample | plugins/tooltable.c:271-297 | Field order, three decimals, zero offsets and diameters left out, pocket 0 for none, the name behind a semicolon: two lines in full |
| ToolLines.ParseName | plugins/tooltable.c:186-199 | A name that fits comes back with its words single-spaced and its bars replaced |
| ToolLines.Unbarred | plugins/tooltable.c:198-199 | Every bar becomes a percent sign, every other character stays |
| ToolLines.TidyReads | plugins/tooltable.c:186-199 | A name read back is its single-spaced form, character by character, but for the bars |
| ToolLines.GrowOneMore | plugins/tooltable.c:188-196 | Each further word of a name is appended if it fits and skipped otherwise, whatever was skipped before |
| ToolLines.TidyTwice | plugins/tooltable.c:186-199 | A name once written and read stays as it is and never grows |
| ToolLines.ParsedIsSettled | plugins/tooltable.c:104-209 | Whatever the line, a parsed tool has a number, a pocket of at least 1 or none, and a name that fits, is already tidy and contains no bar |
| ToolLines.LettersMean | plugins/tooltable.c:119-183 | Number, pocket (0 meaning none), offsets and diameter are set by their letters in either case, and only from readable numbers |
| ToolLines.OtherLetters | plugins/tooltable.c:119-202 | Words with any other letter are passed over |
| ToolLines.BadWordRejects | plugins/tooltable.c:115-208 | One unreadable number before the name makes the line describe no tool |
| ToolLines.NumberNeeded | plugins/tooltable.c:104-208 | A line that describes a tool has a T word and is neither empty nor a comment |
| ToolFile.ReadLine | plugins/tooltable.c:76-98 | The next line without its end, cut to the buffer; false exactly at the end of the file |
| ToolFile.LineEnds | plugins/tooltable.c:81-96 | A carriage return before the line feed belongs to the line end, the last line needs none, and a line is cut to 299 characters |
| ToolFile.NextWord | plugins/tooltable.c:111-206 | The next blank-separated word, or none |
| ToolFile.ParseLine | plugins/tooltable.c:104-209 | The word-by-word loop computes what the line's words mean, and rejects exactly the lines that describe no tool |
| ToolFile.ReadName | plugins/tooltable.c:187-196 | Words that fit are appended with one space, others skipped |
| ToolFile.LineIsPlain | plugins/tooltable.c:271-297 | A printed line is not empty and contains no line break, whatever the numbers |
| ToolFile.WritableFits | plugins/tooltable.c:271-297 | With values below a million millimetres and a name of at most 200 characters the line fits the reader's 300-character buffer |
| ToolFile.RenderReads | plugins/tooltable.c:76-297 | A written file whose lines fit the reader's buffer is read back as the same tools in the same order, as each line reads |
| ToolTable.ToolTable.LoadTools | plugins/tooltable.c:899-923 | After mounting there is a table: the existing file as it is, or an empty one |
| ToolTable.ToolTable.FileFind | plugins/tooltable.c:214-235 | Finds the first entry with the number in any file, and reports none exactly if there is none |
| ToolTable.ToolTable.FindFreePocket | plugins/tooltable.c:240-266 | In any file: the least pocket in 1..max not in use; -1 exactly if all are |
| ToolTable.ToolTable.MarkPockets | plugins/tooltable.c:245-258 | A pocket is marked exactly if some tool occupies it |
| ToolTable.ToolTable.CopyEdited | plugins/tooltable.c:325-353 | In any file: the new file is the old list with the edit applied to every tool, in order, nothing else |
| ToolTable.ToolTable.RewriteFile | plugins/tooltable.c:313-362 | The file becomes the old list with the overrides applied |
| ToolTable.ToolTable.AppendTool | plugins/tooltable.c:367-400 | The file becomes the old list with the tool at the end |
| ToolTable.ToolTable.RegisterTool | plugins/tooltable.c:632-665 | An unlisted tool is listed without a pocket, a listed one renamed and kept in its pocket, or nothing changes; other tools and their order stay; the table stays well-formed exactly if the number fits 16 bits or what is left of it was free |
| ToolTable.ToolTable.WriteEntry | plugins/tooltable.c:640-664 | Overriding the listed entry or appending a new one leaves the file reading as the list with that tool assigned |
| ToolTable.ToolTable.CarouselAdd | plugins/tooltable.c:667-708 | The tool gets the least free pocket, else the reason is reported and nothing changes: already in a pocket, or all of 1..max occupied; well-formedness as for registering |
| ToolTable.ToolTable.CarouselRemove | plugins/tooltable.c:710-724 | Only the tool's pocket is cleared; a tool without one is refused |
| ToolTable.ToolTable.Delete | plugins/tooltable.c:726-743 | Exactly the tool's entry leaves the list; a tool in a pocket is refused |
| ToolTable.ToolTable.SetTool | plugins/tooltable.c:508-545 | Only the tool's offsets and diameter change; an unlisted tool stays unlisted |
| ToolTable.ToolTable.ClearTools | plugins/tooltable.c:586-622 | Offsets and diameters are zero, numbers, pockets, names and order stay |
| ToolTable.AssignKeepsWf | plugins/tooltable.c:632-708 | Assigning a free pocket keeps numbers unique, pockets unshared and every entry writable, exactly if the number fits 16 bits or what is left of it is not listed |
| ToolTable.EditOne | plugins/tooltable.c:325-353 | A rewrite that concerns one tool acts at its place in the list only |
| ToolTable.OverrideAssigns | plugins/tooltable.c:632-708 | A rewrite with one override, read back, is the list with that tool's pocket and name changed |
| ToolTable.OverrideRemoves | plugins/tooltable.c:719-720 | A rewrite that clears one pocket, read back, is the list with only that changed |
| ToolTable.OverrideDeletes | plugins/tooltable.c:738-739 | A rewrite that deletes, read back, is the list without that entry |
| ToolTable.AppendAssigns | plugins/tooltable.c:654-697 | An appended entry, read back, is the list with the tool added under what 16 bits hold of its number |
| ToolTableFacts.OthersUntouched | plugins/tooltable.c:508-743 | No operation on one tool changes what a lookup of another finds, but for the number its own is cut to |
| ToolTableFacts.OwnEntry | plugins/tooltable.c:508-743 | What a lookup of the tool itself finds after each operation: only the fields it is about have changed |
| ToolTableFacts.NewEntry | plugins/tooltable.c:654-697 | A tool listed anew stands at the end, with zero offsets and diameter |
| ToolTableFacts.OrderStays | plugins/tooltable.c:508-743 | Every other tool keeps its entry and its place in the order |
| ToolTableFacts.FirstOverrideDecides | plugins/tooltable.c:332-345 | Of several overrides for a tool the first decides, others do not matter |
| ToolTableFacts.RemoveUndoesAdd | plugins/tooltable.c:667-743 | Taking a tool out of the carousel undoes putting it in, and deleting undoes listing |
| ToolTableFacts.RewriteIsStable | plugins/tooltable.c:313-362 | Rewriting without overrides keeps the list of any file whose numbers and lines fit, and a second rewrite changes no byte |
| ToolTableFacts.FullMeansManyTools | plugins/tooltable.c:240-266 | A full carousel implies at least as many listed tools as pockets |
| ToolTableFacts.LeastFreeIs | plugins/tooltable.c:240-266 | The pocket handed out is the least free one, and none is handed out exactly if all are occupied |
| ToolTableFacts.RunsStayWellFormed | plugins/tooltable.c:508-743 | In every table reachable by any sequence of operations numbers are unique, no pocket is shared and all entries survive a round trip |
| ToolTableFacts.Perform | plugins/tooltable.c:508-743 | Each operation on the file does to the list it stands for what the abstract operation says |
| ToolTableFacts.PerformAll | plugins/tooltable.c:508-743 | So does every sequence of operations, whatever it refuses on the way |
| Handshake.Base64Encode | src/websocket.c:95-116 | The output is the encoding, which a standard decoder turns back into the input, and its length is four letters for every three bytes begun |
| Handshake.DecodeEncoding | src/websocket.c:95-116 | Decoding inverts encoding for every input |
| Handshake.EncodingInjective | src/websocket.c:95-116 | Different inputs are encoded differently |
| Handshake.Alphabet | src/websocket.c:93 | The alphabet is that of table 1 of RFC 4648 |
| Handshake.StandardVectors | src/websocket.c:95-116 | The encodings of the prefixes of "foobar" are those of section 10 of RFC 4648 |
| Handshake.Pad | src/websocket.c:46-55 | The buffer is the message, the marker bit, zeros and the bit length, in whole 64-byte blocks, the fewest that hold it |
| Handshake.PaddedShape | src/websocket.c:46-55 | Message, marker bit 0x80, zeros, and the length in bits in the last eight bytes, in whole blocks |
| Handshake.PadStart | src/websocket.c:49-51 | Message and marker bit are placed in the cleared buffer |
| Handshake.FindLength | src/websocket.c:46-47 | The padding loop ends at the closed form of the padded length |
| Handshake.WriteLength | src/websocket.c:53-55 | The last eight bytes are the number in big-endian order, all others stay |
| Handshake.LeastLength | src/websocket.c:46-47 | The closed form is the least length above the message's that is 56 modulo 64 |
| Handshake.WholeBlocks | src/websocket.c:46-49 | With the length field the padded message is whole blocks |
| Handshake.PaddingInjective | src/websocket.c:46-55 | Different messages of less than 2^64 bits have different padded forms |

## Left out

- Zones.LiangBarsky: the two loops of plugins/exclusion_zones.c, identical but for the box, are modelled once; the ATCi plugin's own loops are modelled separately.
- KeepoutRuns.NeverDeep: assumes that the plan position is the last accepted target and that the core's limiter only shortens jogs; where all-depths keep-outs do not come first in the chain it covers level jogs, others being unsafe (ChainOrderIsExact, StaleGuardIsExact).
- ExclusionZones.ExclusionZones.SetZone: starts from the scanned numbers; sscanf and atoi are not modelled, nor the text of replies.
- AtciKeepout.AtciKeepout.ApplyTravelLimits: the warnings it prints are left out, as are the rack sensor's polling and M960, which appear in runs as events that switch the guard.
- Serial.Serial.PutC: one round of the source's wait loop; waiting, and giving up when the core's blocking callback says so, is left to the caller. Flush, cancel, suspend and baud timing are left out.
- WebSocket.WebSocket.ProcessRawBuffer: streams that announce frames of 2^31 bytes or more are excluded, because the source narrows such lengths to a signed int at src/websocket.c:271-272.
- SerialPipeline.Simulator.SimulateSerial: the test for a booted controller is omitted, and the controller's own stream, not a redirected one, answers how much room is left.
- SerialPipeline.Simulator.OutboundConserved: send() is taken as reliable.
- McuTimers.Mcu.MasterClock: GPIO interrupts and what handlers do to the timers are left out; a handler's calls are counted.
- MacroRuns.ProgramRefines: covers error-free runs within the stack depth; the core's line loop (next line of the current stream, end of stream, return) is modelled as Step because the core is not in the repository, what it does at the end of the main program is outside the model, positions are line numbers, and a repeat count of 0 stands for 2^32 as in the source's counter.
- Macros.MacroPlugin.MacroStart: the second search path for LittleFS builds and the parameter stack are left out.
- ToolTable.ToolTable.SetTool: storing immediately; deferring until a macro has returned is left out.
- ToolTable.ToolTable.CopyEdited: the four copy loops of the source are one method with the edit as parameter; file operations succeed once the table is mounted, so failed renames and write errors are left out.
- ToolLines.LineParses: values are whole thousandths; the core's number readers are not in the repository and are modelled as plain decimal readers. Tool numbers are written as 16 bits, see RoundTripIff.
- ToolFile.RenderReads: names have no line breaks and lines fit the reader's buffer; tables in use (ToolTable.ToolTable.SetTool and the like) hold names of at most 200 characters and values below a million millimetres, which suffices.
- ToolTableFacts.PerformAll: numbers fit 16 bits; for wider ones the contracts of RegisterTool and CarouselAdd say when the table stays well-formed.
- Rounding: all geometry is over exact reals; rounding and NaN are not modelled.
- WebSocket continuation frames, echoing of ping payloads: the source does not support them.
- Sockets, accept, the HTTP part of the handshake, threads: what the network does is a parameter.
- SHA-1 compression rounds: a specification would repeat the code.
- The grblHAL core, settings and report strings, plugins/flexihal_atc.c, src/eeprom.c, src/fs_sim.c, the tool table's cache, by-index access and $TT commands, tool-change and pallet macros, the launcher and packaging.
