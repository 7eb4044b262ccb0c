# Verification of the Piper arm driver

A Dafny 4.11 model of the C++ driver for the Piper six-joint arm on CAN, and proofs about it. `dafny verify
dfyconfig.toml` checks everything.

| module | what it models |
|---|---|
| `Bytes`, `Rounding`, `Quantiser`, `Mit` | byte order, `lround` and `trunc`, the MIT quantiser, MIT bit packing and the V2 check nibble |
| `Messages`, `Parser`, `ParserLaws` | message types and IDs, both protocols' decoders and encoders as functions, and their laws |
| `FeedbackLaws`, `CommandLaws` | what each received frame means and what each command puts on the bus, frame by frame |
| `TxFrames`, `RxMessages` | the same encoders and decoders filling a transmit frame or a message object in place |
| `TimedFreqStates`, `PartsCache` | a fed value with per-part arrival tracking, and a multipart cache under interleaved get, set and reset |
| `StdCanInterfaces`, `Sessions` | the transport with its wake counter, and connect, read loop and disconnect as interleaved steps |
| `Multipart`, `MotionShadow`, `PiperInterfaces` | three-frame commands of concurrent callers, the shadow of the last 0x151 state, and the interface object that sends |
| `Firmware`, `MotorLimits` | firmware tag reassembly, and the bounded wait for motor limits |
| `CanUtils` | two-phase renaming of adapters against a model of the kernel's interface table |
| `Conversion`, `Lifecycle`, `Hardware` | the ros2_control component: units, lifecycle, activation, one read and one write cycle |
| `Geometry`, `Kinematics` | rotations, link matrices and their products |
| `Quaternions`, `EulerAngles` | Euler angles, quaternions and matrices, both ways, and the poses of the links |

Methods that change state in the driver are methods of classes here, proved against functions; the laws are lemmas
about those functions. Concurrency is a set of atomic steps (one lock scope or one atomic access each) interleaved in
any order; atomics and mutexes are sequentially consistent. A step that is not enabled does nothing, so a statement
about every sequence of steps is a statement about every run. Histories (what was stored in a cache, what reached the
bus) are part of the state so that the properties can refer to them.

Doubles are exact reals and trigonometric functions are two arbitrary functions of which only the identities named in
each statement are used. Clocks, sockets, the kernel, other threads and the arm are nondeterministic within what the
code relies on.

Where a property fails in some cases, a theorem says exactly when it holds: what a reset leaves behind (`PartsCache`),
which replies can complete a wait (`MotorLimits`), which names adapters get (`CanUtils`), which samples echo
(`Conversion`, `Hardware`), and when Euler angles stand for the rotation they were read from (`EulerAngles`).

Three places where the code and its comments differ; the model follows the code:

- `getFirmwareVersion` is described as returning the eight bytes that follow the marker; it returns the eight bytes
  that begin with it (`piper_cpp/src/interface/piper_interface_v2.cpp:956-972`).
- `reset()` is described as leaving a state as at construction; old arrival times stay stored. `ResetEqualsFresh`
  proves that nobody can tell. A reset that falls between the read thread's copy and its store is partly undone by
  the store; `UnarrivedShows` says exactly what is left.
- Interface names go through fixed-size fields, so a target longer than 15 characters is cut before the kernel sees
  it while the code goes on with the long name (`piper_cpp/src/can_utils.cpp:71-83`). `Activate` works exactly when
  every target fits. Temporary names fit as long as there are fewer than a thousand million names.

## Model

| member | source | states |
|---|---|---|
| Sessions.NoLostWakeUp | piper_cpp/src/interface/piper_interface_v2.cpp:127-156 | in every interleaving, once the interrupt is posted a running reader can always take its next step; in poll() it finds the wake pending |
| Sessions.AtMostOneMoreFrame | piper_cpp/src/interface/piper_interface_v2.cpp:141-156 | in every interleaving, at most one frame is delivered after the stop flag is stored, however busy the bus |
| Sessions.LeftoverWakeCancelsNothing | piper_cpp/include/piper_cpp/std_can_interface.h:70-105 | a read is only ever cancelled by its own session's interrupt; while a session is up no wake is pending |
| Sessions.StoredIsReceived | piper_cpp/src/interface/piper_interface_v2.cpp:127-139 | in every run the history of stores is, in order, that of the frames taken from the socket whose callback has returned: each in its own part with its own payload and session, and none of another message |
| Sessions.ShownIsLastReceived | piper_cpp/src/interface/piper_interface_v2.cpp:221-238 | a part that counts as arrived shows the payload of the last frame received for that part and handed on |
| Sessions.SessionsAreIsolated | piper_cpp/src/interface/piper_interface_v2.cpp:141-182 | every slot a snapshot shows, valid or not, is blank or of the current session, and a disconnected interface shows the blank value; a valid snapshot shows in every part the last frame received for it, in this session |
| Sessions.QueueIsThisSockets | piper_cpp/include/piper_cpp/std_can_interface.h:107-114 | the queue holds only what arrived since the socket was last opened, so no session reads what an earlier one left |
| Sessions.DeadSocketEndsReader | piper_cpp/include/piper_cpp/std_can_interface.h:169-180 | a socket found dead is closed, and two steps later the reader has left its loop |
| Sessions.StepKeepsHandshake | piper_cpp/src/interface/piper_interface_v2.cpp:91-156 | every step of every thread keeps the relation between stop flag, wake counter, reader position and controller position |
| Sessions.StepKeepsCache | piper_cpp/src/interface/piper_interface_v2.cpp:158-182 | every step keeps the cache to frames of the running session |
| Sessions.JoinReturns | piper_cpp/src/interface/piper_interface_v2.cpp:147-152 | while a disconnect waits, the reader leaves its loop after at most six of its own steps, whatever the bus and other threads do |
| Sessions.DisconnectCompletes | piper_cpp/src/interface/piper_interface_v2.cpp:141-156 | the same from the very start: every run that posts the interrupt reaches the join |
| StdCanInterfaces.StdCanInterface.Init | piper_cpp/include/piper_cpp/std_can_interface.h:70-105 | the new transport state as the step system uses it: failure keeps nothing, success drains the wake counter, an open transport is untouched |
| StdCanInterfaces.StdCanInterface.Close | piper_cpp/include/piper_cpp/std_can_interface.h:107-114 | closing drops the socket and its queue and keeps the wake counter |
| StdCanInterfaces.StdCanInterface.InterruptRead | piper_cpp/include/piper_cpp/std_can_interface.h:207-209 | one more wake is pending, nothing else changes |
| StdCanInterfaces.StdCanInterface.DrainWake | piper_cpp/include/piper_cpp/std_can_interface.h:262-266 | no wake is pending, nothing else changes |
| StdCanInterfaces.StdCanInterface.ReadCanMessage | piper_cpp/include/piper_cpp/std_can_interface.h:130-203 | a pending wake wins and consumes no frame; otherwise the queue's head is consumed and the result is true exactly if it was delivered to the callback; a dead socket is closed |
| PartsCache.SlotIsLastSinceReset | piper_cpp/src/interface/piper_interface_v2.cpp:404-420 | in every interleaving of get, set and reset, a part counts as arrived exactly if stored since the latest reset, and its slot is the last one stored |
| PartsCache.ValidSnapshotIsCurrent | piper_cpp/src/interface/piper_interface_v2.cpp:323-353 | a valid snapshot mixes in no slot from before the latest reset |
| PartsCache.UnarrivedShows | piper_cpp/include/piper_cpp/interface/timed_freq_state.h:72-80 | exactly what a part that has not arrived shows, in every run: blank, unless the latest reset fell between the reader's two steps and its update was stored since; then what the reader's copy held |
| PartsCache.BlankIff | piper_cpp/include/piper_cpp/interface/timed_freq_state.h:72-80 | so nothing from before the reset is left over exactly if no such update was stored or its copy was blank in the parts not arrived |
| PartsCache.BlankIfResetBetweenUpdates | piper_cpp/src/interface/piper_interface_v2.cpp:158-182 | if every reset is taken while the reader is between updates, as with the read thread stopped, nothing is ever left over |
| PartsCache.ResetInsideUpdateLeavesCopy | piper_cpp/include/piper_cpp/interface/timed_freq_state.h:72-80 | a reset inside an update leaves the reader's copy in every other part, so the state is blank exactly if the copy was |
| PartsCache.StaleSlotSurvivesUninitialised | piper_cpp/include/piper_cpp/interface/timed_freq_state.h:72-80 | a run in which that happens: a slot from before the reset shows in a part that does not count as arrived |
| PartsCache.StoredIsBegunSince | piper_cpp/src/interface/piper_interface_v2.cpp:404-420 | after any point of any run, everything stored is of a frame begun after it, except at most one update, the one the reader was in the middle of, and that is stored first |
| PartsCache.ShownIsBegunSince | piper_cpp/src/interface/piper_interface_v2.cpp:907-909 | what an arrived part shows is of a frame begun after any reset in the run, except possibly the part whose update the reset fell into |
| PartsCache.PendingUpdateCompletes | piper_cpp/src/interface/piper_interface_v2.cpp:907-913 | the exception is real: a reset falls into an update and the cache is complete with no frame begun since |
| PartsCache.StepKeepsInv | piper_cpp/src/interface/piper_interface_v2.cpp:404-420 | each atomic step keeps the relation between cell, reader's copy and history |
| PiperInterfaces.UpdateJointPair | piper_cpp/src/interface/piper_interface_v2.cpp:404-420 | the cell gets the value copied at the start with exactly this part's two joints replaced, clamped when asked, also when another thread resets the state in between |
| PiperInterfaces.WithPairIsSlotUpdate | piper_cpp/src/interface/piper_interface_v2.cpp:404-420 | replacing a part's joints, clamped or not, replaces one slot and leaves the others |
| PiperInterfaces.KeptIsNearest | piper_cpp/src/interface/piper_interface_v2.cpp:414-418 | what is stored of a joint is the joint itself within its limits, and otherwise the nearer limit |
| PiperInterfaces.OthersAreKept | piper_cpp/src/interface/piper_interface_v2.cpp:413-419 | the joints of the other parts keep their values |
| TimedFreqStates.ResetEqualsFresh | piper_cpp/include/piper_cpp/interface/timed_freq_state.h:72-80 | after reset(), every later sequence of operations and read gives what a new state with the same configuration gives, rates included |
| TimedFreqStates.ResetKeepsArrivalTimes | piper_cpp/include/piper_cpp/interface/timed_freq_state.h:72-80 | the equality is not structural: old arrival times stay stored |
| TimedFreqStates.AlikeStep | piper_cpp/include/piper_cpp/interface/timed_freq_state.h:54-80 | every operation keeps two states indistinguishable if they were |
| TimedFreqStates.SnapshotShows | piper_cpp/include/piper_cpp/interface/timed_freq_state.h:54-175 | after any operations a snapshot shows the last accepted value and time stamp since the last reset; it is valid exactly if every part was set since, and healthy exactly if none of them longer ago than the timeout |
| TimedFreqStates.SnapshotRate | piper_cpp/include/piper_cpp/interface/timed_freq_state.h:54-70 | and the mean of the parts' rates, each from its last two arrivals since the reset, 0 with fewer or with no time between |
| TimedFreqStates.TimedFreqState.Set | piper_cpp/include/piper_cpp/interface/timed_freq_state.h:54-70 | the whole new state; an unknown part is refused before anything changes |
| TimedFreqStates.TimedFreqState.Reset | piper_cpp/include/piper_cpp/interface/timed_freq_state.h:72-80 | value, rates and arrival flags as at construction, arrival times kept |
| TimedFreqStates.TimedFreqState.SetNumCallers | piper_cpp/include/piper_cpp/interface/timed_freq_state.h:32-38 | the three per-part vectors resized together, new parts not arrived |
| TimedFreqStates.TimedFreqState.IsValid | piper_cpp/include/piper_cpp/interface/timed_freq_state.h:117-121 | true exactly if there are parts and all have arrived |
| TimedFreqStates.TimedFreqState.IsHealthy | piper_cpp/include/piper_cpp/interface/timed_freq_state.h:123-133 | valid, and every part within the timeout |
| TimedFreqStates.TimedFreqState.GetSnapshot | piper_cpp/include/piper_cpp/interface/timed_freq_state.h:170-175 | value, rate, validity and health of one instant |
| Multipart.CommitsNeverMix | piper_cpp/src/interface/piper_interface_v2.cpp:642-679 | for any number of concurrent callers and any pattern of failed sends, the arm's k-th commit is the whole target of one call |
| Multipart.EachCallCommitsOnce | piper_cpp/src/interface/piper_interface_v2.cpp:642-679 | no call commits twice, and one that returned true has committed exactly once |
| Multipart.PartsCommit | piper_cpp/src/interface/piper_interface_v2.cpp:642-679 | one or two frames of a call make the arm act on nothing, all three on exactly the call's target, whatever the arm had latched |
| Multipart.SendKeepsInv | piper_cpp/include/piper_cpp/interface/piper_interface_v2.h:734-736 | each send keeps the holder's parts, and no other call's, in the arm's latches |
| PiperInterfaces.PiperInterface.ControlJoints | piper_cpp/src/interface/piper_interface_v2.cpp:642-664 | sent means exactly the three frames in order, and the arm then acts on exactly the target; any failure leaves a proper prefix, on which it acts on nothing; never refused, and failing only if not connected or a frame was not taken |
| PiperInterfaces.PiperInterface.ControlEndPose | piper_cpp/src/interface/piper_interface_v2.cpp:666-679 | the same for an end pose |
| PiperInterfaces.PiperInterface.ConnectPort | piper_cpp/src/interface/piper_interface_v2.cpp:91-125 | an open session is left alone; a new one puts the beginning of the twelve limit queries on the bus, and the firmware query if it gets through; the shadow stays sound |
| PiperInterfaces.PiperInterface.SendFirmwareQuery | piper_cpp/src/interface/piper_interface_v2.cpp:927-950 | one 0x4AF frame past the parser, or nothing |
| MotionShadow.ShadowNeverPoisoned | piper_cpp/src/interface/piper_interface_v2.cpp:511-520 | in every reachable state the shadow is the content of the last 0x151 frame sent, or the defaults, and the encoder accepts it |
| MotionShadow.SetterFailsOnlyForItsOwnValue | piper_cpp/src/interface/piper_interface_v2.cpp:522-588 | whatever was requested or refused before, a setter succeeds exactly if its own value is acceptable and the transport works |
| MotionShadow.OwnValueDecides | piper_cpp/src/protocol/piper_parser_v3.cpp:42-52 | on top of an accepted state, acceptance of a request depends on the caller's own value alone |
| MotionShadow.SentStateReadsBack | piper_cpp/src/interface/piper_interface_v2.cpp:511-520 | an accepted state is encoded, and its frame decodes to that state |
| PiperInterfaces.PiperInterface.SendPiperMsg | piper_cpp/src/interface/piper_interface_v2.cpp:469-491 | exactly when a message is not connected, refused or sent, and the frame that reaches the bus |
| PiperInterfaces.PiperInterface.SendMotionCtrl2Locked | piper_cpp/src/interface/piper_interface_v2.cpp:511-520 | the shadow takes the new state exactly if it was sent; it stays the last 0x151 frame on the bus |
| PiperInterfaces.PiperInterface.SendMotionCtrl2 | piper_cpp/src/interface/piper_interface_v2.cpp:522-538 | refused exactly for its own unacceptable values; speed clamped to 100 |
| PiperInterfaces.PiperInterface.SetCtrlMode | piper_cpp/src/interface/piper_interface_v2.cpp:540-546 | changes one field of the shadow if sent; refused exactly for its own value |
| PiperInterfaces.PiperInterface.SetMoveMode | piper_cpp/src/interface/piper_interface_v2.cpp:548-554 | changes one field of the shadow if sent; refused exactly for its own value |
| PiperInterfaces.PiperInterface.SetSpeedPercentage | piper_cpp/src/interface/piper_interface_v2.cpp:556-564 | clamped, and never refused |
| PiperInterfaces.PiperInterface.SetMitMode | piper_cpp/src/interface/piper_interface_v2.cpp:566-572 | changes one field of the shadow if sent; refused exactly for its own value |
| PiperInterfaces.PiperInterface.SetResidenceTime | piper_cpp/src/interface/piper_interface_v2.cpp:574-580 | changes one field of the shadow if sent; never refused |
| PiperInterfaces.PiperInterface.SetInstallationPos | piper_cpp/src/interface/piper_interface_v2.cpp:582-588 | changes one field of the shadow if sent; refused exactly for its own value |
| Bytes.Int32RoundTrip | piper_cpp/src/protocol/piper_codec.h:14-19 | big-endian two's complement: reading the written bytes gives the value, negative values included |
| Bytes.Int32Onto | piper_cpp/src/protocol/piper_codec.h:49-55 | and every four bytes are the encoding of what they read as |
| Bytes.Int32IsBigEndian | piper_cpp/src/protocol/piper_codec.h:49-55 | the first byte is the most significant, in two's complement |
| Bytes.Uint16IsBigEndian | piper_cpp/src/protocol/piper_codec.h:43-47 | the same for two bytes |
| Bytes.Uint16ThroughSigned | piper_cpp/src/protocol/piper_codec.h:21-47 | an effort survives being read as a signed 16-bit value |
| Bytes.Int32ToBytes | piper_cpp/src/protocol/piper_codec.h:49-55 | writes the four bytes at its place and no others |
| Bytes.Uint16ToBytes | piper_cpp/src/protocol/piper_codec.h:43-47 | writes the two bytes at its place and no others |
| Quantiser.CodeFitsField | piper_cpp/src/protocol/piper_codec.h:74-89 | the code of any value is at most 2^bits - 1 |
| Quantiser.CodeMonotone | piper_cpp/src/protocol/piper_codec.h:74-89 | larger values never get smaller codes |
| Quantiser.CodeSaturates | piper_cpp/src/protocol/piper_codec.h:79-82 | values at or beyond an end get that end's code |
| Quantiser.CodePointExact | piper_cpp/src/protocol/piper_codec.h:83-88 | a value on a code point gets that code in both modes |
| Quantiser.NearestIsClosest | piper_cpp/src/protocol/piper_codec.h:85-86 | the error is at most half a step and no code point is closer |
| Quantiser.TruncateIsGreatestBelow | piper_cpp/src/protocol/piper_codec.h:87-88 | the error is in [0, step): the greatest code point not above the value |
| Quantiser.ProtocolsWithinOneCode | piper_cpp/README.md:194-197 | nearest exceeds truncated by at most one code |
| Mit.UnpackPack | piper_cpp/src/protocol/piper_codec.h:117-128 | in-width codes are read back unchanged from the eight bytes, under both layouts, and V2's check nibble is right |
| Mit.PackUnpack | piper_cpp/src/protocol/piper_parser_v2.cpp:460-478 | every payload, under V2 every one with the right check nibble, is the packing of the in-width codes it unpacks to |
| Mit.CheckDetects | piper_cpp/src/protocol/piper_parser_v2.cpp:470-476 | changing one of bytes 0 to 6 goes undetected exactly if its low nibble stays the same |
| Mit.CheckNibbleIsParity | piper_cpp/src/protocol/piper_parser_v2.cpp:470-476 | each bit of the check nibble is set exactly if an odd number of the first seven bytes have it set |
| Mit.PayloadIsCodesInOrder | piper_cpp/src/protocol/piper_codec.h:117-128 | as one 64-bit number the payload is 16 bits of position, 12 each of velocity, Kp and Kd, and the torque: 12 bits, or 8 and the check nibble |
| Mit.CommandStandsFor | piper_cpp/src/protocol/piper_parser_v2.cpp:499-511 | each of the five values, brought into its own range, is within half a step of its code under V2 and less than a step above it under V3 |
| Mit.CommandSurvivesTheWire | piper_cpp/src/protocol/piper_parser_v2.cpp:499-511 | every finite command gives in-width codes that the receiver unpacks unchanged |
| Mit.ProtocolsAgreeWithinOne | piper_cpp/src/protocol/piper_parser_v3.cpp:179-190 | V2 and V3 codes of one position, velocity, Kp or Kd differ by at most one |
| PiperInterfaces.PiperInterface.ControlJointMit | piper_cpp/src/interface/piper_interface_v2.cpp:681-704 | nothing is sent for a bad motor number or a non-finite value; otherwise one frame that unpacks to the codes of the five values, each by its own range |
| Messages.CanIdTablesInverse | piper_cpp/src/types/core.cpp:7-141 | the identifier and type tables are each other's inverse |
| ParserLaws.DecodeReadsOnlyReceivedBytes | piper_cpp/src/protocol/piper_parser_v2.cpp:33-63 | frames with the same ID, length and received bytes decode alike under both protocols, whatever else the buffer holds |
| ParserLaws.DecodeIgnoresOldContents | piper_cpp/src/protocol/piper_parser_v2.cpp:65-298 | what a frame carries, and the effort derived from a motor's current, do not depend on what the message held before |
| ParserLaws.RequiredBytesAreAllRead | piper_cpp/src/protocol/piper_parser_v2.cpp:11-31 | the length table is tight: the last byte it demands changes what is decoded |
| ParserLaws.RefusalLeavesUnknown | piper_cpp/src/protocol/piper_parser_v2.cpp:33-68 | a refusal always leaves type Unknown, and an accepted frame gets the type of its ID |
| ParserLaws.DecodeInvertsEncode | piper_cpp/src/protocol/piper_parser_v3.cpp:75-177 | for 0x151, 0x155-0x157 and 0x159, decoding what a protocol encoded gives back the command, MOVE M and large efforts included |
| ParserLaws.ProtocolsAgreeOnMeaning | piper_cpp/src/protocol/piper_parser_v3.cpp:30-71 | both protocols give one meaning to every command both accept |
| ParserLaws.SameBytesIffNotMoveM | piper_cpp/src/protocol/piper_parser_v3.cpp:42-52 | and the same bytes, except for MOVE M |
| ParserLaws.WrongProtocolMisreadsMoveM | piper_cpp/src/protocol/piper_parser_v3.cpp:27-37 | a V3 mode command read with the V2 parser is misread exactly if it is MOVE M |
| TxFrames.TxFrame.EncodeV2 | piper_cpp/src/protocol/piper_parser_v2.cpp:301-497 | succeeds exactly when the specification does, with ID, length and all eight bytes as it says, whatever the buffer held; a refusal leaves the header alone |
| TxFrames.TxFrame.EncodeV3 | piper_cpp/src/protocol/piper_parser_v3.cpp:146-177 | the same for V3, which also leaves the payload alone when it refuses a mode or gripper command |
| TxFrames.TxFrame.EncodeFixed | piper_cpp/src/protocol/piper_parser_v2.cpp:309-457 | the configuration and query commands byte by byte, equal to the specification; every other kind is unsupported |
| TxFrames.TxFrame.WriteMitGains | piper_cpp/src/protocol/piper_codec.h:117-128 | the seven bytes both protocols share, the last one untouched |
| TxFrames.TxFrame.WriteMitV2 | piper_cpp/src/protocol/piper_parser_v2.cpp:460-478 | torque and check nibble are or-ed in without disturbing the gains |
| TxFrames.TxFrame.WriteGripperCtrl | piper_cpp/src/protocol/piper_codec.h:108-115 | the 0x159 payload |
| TxFrames.TxFrame.WriteMotionCtrl2 | piper_cpp/src/protocol/piper_codec.h:96-106 | the six bytes of 0x151, the rest untouched |
| RxMessages.PiperMessage.AcceptFrame | piper_cpp/src/protocol/piper_parser_v2.cpp:33-63 | in place, equal to the specification whatever the message held |
| RxMessages.PiperMessage.DecodeV2 | piper_cpp/src/protocol/piper_parser_v2.cpp:65-298 | in place, equal whatever the message held to the decoding that FeedbackLaws states frame by frame |
| RxMessages.PiperMessage.DecodeV3 | piper_cpp/src/protocol/piper_parser_v3.cpp:75-144 | the same for V3 |
| FeedbackLaws.AcceptedIff | piper_cpp/src/protocol/piper_parser_v2.cpp:11-68 | which identifiers each protocol accepts, and with how many bytes |
| FeedbackLaws.StatusFeedbackMeans | piper_cpp/src/protocol/piper_parser_v2.cpp:77-91 | status bytes and error code in their fields; V3 maps the mode, 0x06 to MOVE M and 0x04 and above 0x06 to unknown |
| FeedbackLaws.EndPoseFeedbackMeans | piper_cpp/src/protocol/piper_parser_v2.cpp:92-106 | the two coordinates of a part and nothing else |
| FeedbackLaws.JointFeedbackMeans | piper_cpp/src/protocol/piper_parser_v2.cpp:109-123 | the two joints of a part and nothing else |
| FeedbackLaws.IKJointFeedbackMeans | piper_cpp/src/protocol/piper_parser_v3.cpp:77-104 | the two joints of a part under V3; V2 refuses the frame |
| FeedbackLaws.GripperFeedbackMeans | piper_cpp/src/protocol/piper_parser_v3.cpp:120-128 | stroke, effort and status; the mode is the last byte under V3 and width under V2 |
| FeedbackLaws.ShortGripperFeedbackMeans | piper_cpp/src/protocol/piper_parser_v3.cpp:120-123 | seven bytes are a width under both protocols |
| FeedbackLaws.HighSpdFeedMeans | piper_cpp/src/protocol/piper_parser_v2.cpp:136-157 | speed, current and position of one motor, and the effort by that motor's constant |
| FeedbackLaws.LowSpdFeedMeans | piper_cpp/src/protocol/piper_parser_v2.cpp:158-181 | voltage, temperatures, status and current of one motor, the motor temperature signed |
| FeedbackLaws.EndVelAccMeans | piper_cpp/src/protocol/piper_parser_v2.cpp:182-190 | four values in their order |
| FeedbackLaws.CrashFeedbackMeans | piper_cpp/src/protocol/piper_parser_v2.cpp:191-201 | six bytes in their order |
| FeedbackLaws.TeachingFeedbackMeans | piper_cpp/src/protocol/piper_parser_v2.cpp:202-209 | three bytes in their order |
| FeedbackLaws.MotorLimitMeans | piper_cpp/src/protocol/piper_parser_v2.cpp:210-216 | motor, largest and smallest angle, and speed |
| FeedbackLaws.MotorAccMeans | piper_cpp/src/protocol/piper_parser_v2.cpp:217-222 | motor and acceleration |
| FeedbackLaws.InstructionMeans | piper_cpp/src/protocol/piper_parser_v2.cpp:285-290 | two bytes in their order |
| FeedbackLaws.FirmwareReadMeans | piper_cpp/src/protocol/piper_parser_v2.cpp:276-282 | all the bytes received, however few |
| FeedbackLaws.MotionCtrl2Means | piper_cpp/src/protocol/piper_parser_v3.cpp:117-119 | the six bytes of a mode echo; V3 maps the mode |
| FeedbackLaws.JointCtrlMeans | piper_cpp/src/protocol/piper_parser_v2.cpp:237-263 | the two joints of an echoed command |
| FeedbackLaws.GripperCtrlMeans | piper_cpp/src/protocol/piper_parser_v3.cpp:129-139 | an echoed gripper command; V3 keeps the mode in the third bit of the status and does not understand higher bits |
| CommandLaws.MotionAcceptedIff | piper_cpp/src/protocol/piper_parser_v3.cpp:42-52 | the 0x151 values each protocol sends, as numbers |
| CommandLaws.GripperAcceptedIff | piper_cpp/src/protocol/piper_parser_v3.cpp:57-71 | the gripper commands each protocol sends |
| CommandLaws.OthersAcceptedIff | piper_cpp/src/protocol/piper_parser_v2.cpp:301-497 | every other supported message is always sent, and no other kind ever |
| CommandLaws.MotionFrameBytes | piper_cpp/src/protocol/piper_codec.h:96-106 | the 0x151 frame, V3's MOVE M as 0x06 |
| CommandLaws.GripperFrameBytes | piper_cpp/src/protocol/piper_codec.h:108-115 | the 0x159 frame, V3's angle mode added to the status |
| CommandLaws.PairFrameBytes | piper_cpp/src/protocol/piper_parser_v2.cpp:329-354 | the frames of joint and end pose parts |
| CommandLaws.ShortCommandBytes | piper_cpp/src/protocol/piper_parser_v2.cpp:310-430 | identifiers and bytes of the short commands and queries |
| CommandLaws.JointConfigBytes | piper_cpp/src/protocol/piper_parser_v2.cpp:406-413 | the 0x475 frame |
| CommandLaws.MotorLimitsReadBack | piper_cpp/src/protocol/piper_parser_v2.cpp:397-403 | a motor's limits, reported back in the same layout, are decoded as they were set |
| CommandLaws.EndVelAccReadsBack | piper_cpp/src/protocol/piper_parser_v2.cpp:433-438 | the same for the end velocity and acceleration limits |
| CommandLaws.CrashConfigReadsBack | piper_cpp/src/protocol/piper_parser_v2.cpp:441-449 | the same for crash protection ratings |
| CommandLaws.TeachingConfigReadsBack | piper_cpp/src/protocol/piper_parser_v2.cpp:452-457 | the same for teaching parameters |
| CommandLaws.InstructionReadsBack | piper_cpp/src/protocol/piper_parser_v2.cpp:416-420 | the same for an instruction response |
| CommandLaws.FirmwareBytes | piper_cpp/src/protocol/piper_parser_v2.cpp:481-486 | a firmware query carries the first eight bytes of its data, zeros after them |
| Firmware.VersionIsFirstCompleteTag | piper_cpp/src/interface/piper_interface_v2.cpp:954-977 | the answer is the first marker with all its eight bytes, and there is one exactly if such a marker exists |
| Firmware.BufferIsCappedPrefix | piper_cpp/src/interface/piper_interface_v2.cpp:379-387 | the buffer is a prefix of the reply, all of it below the cap, and never longer than 263 bytes |
| Firmware.ChunkingIsInvisible | piper_cpp/src/interface/piper_interface_v2.cpp:379-387 | replies of the same bytes give the same buffer however they are cut into frames, up to the cap |
| Firmware.TagUnderCapIsTheAnswer | piper_cpp/src/interface/piper_interface_v2.cpp:379-387 | a tag complete within the cap is the answer however long the reply and wherever it is cut |
| Firmware.AnswerNeverChanges | piper_cpp/src/interface/piper_interface_v2.cpp:927-977 | once reported, the answer is the same until the next query |
| Firmware.FirmwareBuffer.SendFirmwareQuery | piper_cpp/src/interface/piper_interface_v2.cpp:927-950 | a connected query empties the reply buffer even if the transport fails; an unconnected one keeps it |
| Firmware.FirmwareBuffer.GetFirmwareVersion | piper_cpp/src/interface/piper_interface_v2.cpp:954-977 | the search loop computes that answer |
| Firmware.FirmwareBuffer.Append | piper_cpp/src/interface/piper_interface_v2.cpp:379-387 | a chunk is appended exactly while the buffer is below the cap |
| MotorLimits.MotorLimitQuery.WaitForMotorLimits | piper_cpp/src/interface/piper_interface_v2.cpp:903-925 | true means that, in both aggregates, all six parts were stored after this call's own reset and show frames begun after it, except at most the one part whose update the reset fell into; false means that the first round could not be sent or the timeout has passed; at most 1 + ceil(timeout / interval) rounds are sent, and it returns |
| MotorLimits.MotorLimitQuery.PollUntil | piper_cpp/src/interface/piper_interface_v2.cpp:911-924 | the wait loop, while other threads store and reset as they like; it gives up only past the deadline |
| PiperInterfaces.PiperInterface.SearchAllMotorLimits | piper_cpp/src/interface/piper_interface_v2.cpp:876-901 | sent means exactly the twelve queries, motor by motor; any failure leaves a proper prefix of them |
| PiperInterfaces.QueriesAskForEverything | piper_cpp/src/interface/piper_interface_v2.cpp:878-899 | each motor is asked for each kind of limit, in its place among the twelve |
| MotorLimits.ValidMeansComplete | piper_cpp/src/interface/piper_interface_v2.cpp:907-913 | an aggregate that is valid is complete in that sense with respect to every reset so far |
| MotorLimits.OldReplyCanComplete | piper_cpp/src/interface/piper_interface_v2.cpp:907-913 | the exception is real: complete with no frame begun since the reset |
| MotorLimits.Aggregate.Begin | piper_cpp/src/interface/piper_interface_v2.cpp:321-356 | the first half of storing a reply: the aggregate and the reader are where all that was done leads in the interleaved cache |
| MotorLimits.Aggregate.Finish | piper_cpp/src/interface/piper_interface_v2.cpp:321-356 | the second half: the copy with one slot replaced, as the interleaved cache stores it |
| MotorLimits.PacedBounds | piper_cpp/src/interface/piper_interface_v2.cpp:917-922 | retries at least the interval apart, the last but one before the timeout, are at most ceil(timeout / interval) |
| MotorLimits.CeilDivIsLeast | piper_cpp/src/interface/piper_interface_v2.cpp:917-922 | the bound is the least number of intervals that reach the timeout |
| CanUtils.Activate | piper_cpp/src/can_utils.cpp:127-168 | with distinct adapters, no outsider on a target and an obedient kernel, adapter i in bus order ends up, up at the bitrate, under the prefix followed by i in decimal exactly if every target fits the kernel's name length; whatever fails and however long the targets, outsiders are untouched and a normal end leaves every adapter up at the bitrate; a thrown name is an adapter's real name exactly if it fits, and otherwise a target the kernel has cut |
| CanUtils.StopAndPark | piper_cpp/src/can_utils.cpp:136-152 | after every round of the first loop, current[i] is adapter i's real name and nothing else changed |
| CanUtils.AssignAndStart | piper_cpp/src/can_utils.cpp:153-168 | the same for the second loop, with bitrate and state: every adapter goes by its final name cut to length, and a thrown name that does not fit is a target whose bitrate request failed |
| CanUtils.TargetIsFree | piper_cpp/src/can_utils.cpp:153-163 | when its turn comes a target is free or already held by its own adapter, whatever cycles the names form |
| CanUtils.FreeTemporaryName | piper_cpp/src/can_utils.cpp:85-95 | terminates, and returns a name neither in use nor a target, numbered at most names in use + targets |
| CanUtils.Pigeonhole | piper_cpp/src/can_utils.cpp:87-95 | a set holding the first n numbered names has at least n elements |
| CanUtils.ToStringInjective | piper_cpp/src/can_utils.cpp:91 | different numbers have different names |
| CanUtils.ToStringIsDecimal | piper_cpp/src/can_utils.cpp:91 | digits without a leading zero, standing for the number in base ten |
| CanUtils.TargetsAreNumbered | piper_cpp/src/can_utils.cpp:132-135 | the i-th target is the prefix followed by i in decimal |
| CanUtils.Kernel.Rename | piper_cpp/src/can_utils.cpp:71-83 | succeeds exactly for an existing interface that is down and a free destination, after both names are cut to the field's length |
| CanUtils.SortByBus | piper_cpp/src/can_utils.cpp:127 | a permutation of the ports in bus order |
| CanUtils.LongTargetsAreNotRealised | piper_cpp/src/can_utils.cpp:71-83 | a target the kernel has no room for is never given |
| CanUtils.LongNamesAreNobodys | piper_cpp/src/can_utils.cpp:71-83 | a name the kernel has no room for is no adapter's |
| Conversion.JointRoundTrip | piper_cpp_ros/include/piper_cpp_ros/command_conversion.hpp:23-33 | a measured angle converts back to itself exactly within a full turn, and to nothing beyond |
| Conversion.GripperRoundTrip | piper_cpp_ros/include/piper_cpp_ros/command_conversion.hpp:35-42 | the same for the gripper within a metre |
| Conversion.JointWithinHalfUnit | piper_cpp_ros/include/piper_cpp_ros/command_conversion.hpp:25-33 | an accepted command is sent to within half a unit, and no integer is closer |
| Conversion.GripperWithinHalfUnit | piper_cpp_ros/include/piper_cpp_ros/command_conversion.hpp:35-42 | the same for the gripper |
| Conversion.UnitsOf | piper_cpp_ros/include/piper_cpp_ros/command_conversion.hpp:11-21 | half a turn is 180000 units and a metre a million |
| Conversion.AcceptedIff | piper_cpp_ros/include/piper_cpp_ros/command_conversion.hpp:25-42 | accepted exactly if finite and within a full turn or a metre |
| Hardware.FirstWrite | piper_cpp_ros/src/piper_hardware_interface.cpp:222-363 | after activation with untouched commands, the first write makes the arm act on exactly the joints sampled and tells the gripper exactly the stroke sampled; a failed send leaves a proper prefix of that; nothing at all when a sample is out of range |
| Hardware.SeededCommandsEcho | piper_cpp_ros/src/piper_hardware_interface.cpp:279-285 | the six seeded commands convert to the sampled joints exactly if all are within a full turn |
| Hardware.WriteCommits | piper_cpp_ros/src/piper_hardware_interface.cpp:540-552 | what the arm makes of the beginning of a write: nothing before the third frame, then exactly the joints given |
| Hardware.PiperHardware.OnWrite | piper_cpp_ros/src/piper_hardware_interface.cpp:503-554 | nothing is sent while inactive or when any command is unusable; OK means the arm has acted on one target, every joint within half a unit of its command, and the gripper was told its stroke; a failed send leaves a proper prefix, on which the arm acts on nothing or, without the gripper's frame, on that target; it fails only for an unusable command or a frame not taken |
| Hardware.PiperHardware.OnActivate | piper_cpp_ros/src/piper_hardware_interface.cpp:222-363 | success means the motors were seen enabled, the bus starts with the enable and mode frames and, if configured, zero targets, and the buffers equal the last joint sample, which was healthy; no other joint target ever reaches the bus; failure means a frame was not taken, a timeout has passed, or the gripper is not in width mode |
| Hardware.PiperHardware.DriveToZero | piper_cpp_ros/src/piper_hardware_interface.cpp:260-277 | lasts three seconds unless a send fails and sends only zero targets, at least one set of them |
| Hardware.PiperHardware.SeedGripper | piper_cpp_ros/src/piper_hardware_interface.cpp:302-358 | the gripper command, position and effort equal the last sample, in width mode, healthy unless homing intervened |
| Hardware.PiperHardware.OnRead | piper_cpp_ros/src/piper_hardware_interface.cpp:446-501 | an error exactly when there is no interface or, while active, feedback is stale or not in width mode; what positions, velocities and efforts then show |
| Hardware.PiperHardware.OnConfigure | piper_cpp_ros/src/piper_hardware_interface.cpp:206-220 | on success a fresh, connected interface of the configured protocol with only the initial queries on the bus; on failure none |
| Hardware.PiperHardware.OnDeactivate | piper_cpp_ros/src/piper_hardware_interface.cpp:365-372 | clears the streaming flag and nothing else |
| Hardware.PiperHardware.OnCleanup | piper_cpp_ros/src/piper_hardware_interface.cpp:389-398 | releases the interface and leaves the streaming flag |
| Hardware.PiperHardware.OnError | piper_cpp_ros/src/piper_hardware_interface.cpp:374-387 | releases the interface and clears the streaming flag |
| Hardware.PiperHardware.constructor | piper_cpp_ros/src/piper_hardware_interface.cpp:63-95 | speed clamped to 0..100 and effort to 0..5000 once and for all |
| Hardware.ClampEffort | piper_cpp_ros/src/piper_hardware_interface.cpp:86-94 | the nearest thousandth within 0 to 5 N*m, and the nearer end outside |
| Hardware.ClampPercent | piper_cpp_ros/src/piper_hardware_interface.cpp:71-74 | brought into 0..100 |
| Hardware.Velocities | piper_cpp_ros/src/piper_hardware_interface.cpp:471-476 | a thousandth of the motor's reading |
| Hardware.Efforts | piper_cpp_ros/src/piper_hardware_interface.cpp:471-476 | a thousandth of the motor's derived effort |
| Hardware.WriteIsProtocolNeutral | piper_cpp_ros/README.md:250-252 | the frames of a write are byte-identical under V2 and V3 |
| Hardware.NeutralIffEffortInRange | piper_cpp/src/protocol/piper_parser_v3.cpp:57-71 | which holds exactly because effort is kept at or below 5000 |
| Hardware.ArmReadsJointCommands | piper_cpp_ros/src/piper_hardware_interface.cpp:512-526 | what the arm reads from the frames is within half a unit of every joint command |
| Hardware.GripperReadsCommand | piper_cpp_ros/src/piper_hardware_interface.cpp:527-540 | the gripper frame decodes to the commanded stroke within half a unit, the configured effort, enable, width mode |
| Lifecycle.FlagsFollowNode | piper_cpp_ros/src/piper_hardware_interface.cpp:206-398 | over every legal run of lifecycle callbacks, interface and streaming flag are exactly what the lifecycle node says, so active implies a live interface |
| Lifecycle.TargetsLeaveOnlyWhileActive | piper_cpp_ros/src/piper_hardware_interface.cpp:503-508 | wherever the manager calls write(), targets may leave exactly when the component is active |
| Lifecycle.CleanupBreaksIffActive | piper_cpp_ros/src/piper_hardware_interface.cpp:389-398 | cleanup breaks that implication exactly if called while active |
| Geometry.ProductIsRotation | piper_cpp/include/piper_cpp/utils.h:92-100 | the product of rotations is a rotation: orthonormal and right-handed |
| Geometry.RotationKeepsDot | piper_cpp/include/piper_cpp/fk.h:74-96 | a rotation keeps inner products |
| Kinematics.MatMultiply | piper_cpp/include/piper_cpp/utils.h:92-100 | the triple loop computes the matrix product, entry by entry |
| Kinematics.ProductByBlocks | piper_cpp/include/piper_cpp/utils.h:92-100 | the product of transforms multiplies rotations and rotates-and-adds positions |
| Kinematics.ChainIsRigid | piper_cpp/include/piper_cpp/fk.h:56-60 | every cumulative product of rigid links, however long, is rigid with last row (0, 0, 0, 1) |
| Kinematics.RigidKeepsDistances | piper_cpp/include/piper_cpp/fk.h:46-70 | a body moved by a rigid transform keeps its shape |
| Kinematics.LinkTransformation | piper_cpp/include/piper_cpp/fk.h:72-96 | the entry-by-entry matrix is the modified Denavit-Hartenberg composition of two turns and two moves |
| Kinematics.LinkIsRigid | piper_cpp/include/piper_cpp/fk.h:72-96 | for all angles, from the Pythagorean identity alone |
| Kinematics.CumulativeTransforms | piper_cpp/include/piper_cpp/fk.h:46-61 | the i-th transform is the product of the first i links |
| Kinematics.LinkIsPlaced | piper_cpp/include/piper_cpp/fk.h:50-61 | every link is its support shifted by the link's parameters and turned about its own z by joint angle plus offset |
| Kinematics.LinkAtRest | piper_cpp/include/piper_cpp/fk.h:50-61 | with the joint at minus its offset a link is only shifted: turned by alpha about x, moved by a along x and d along z |
| Kinematics.JointTurnsItsLink | piper_cpp/include/piper_cpp/fk.h:50-61 | from there, raising the joint by t turns the link about its own z by exactly t |
| Kinematics.EarlierLinksStay | piper_cpp/include/piper_cpp/fk.h:50-61 | a joint moves no link before its own |
| Kinematics.ArmAtRest | piper_cpp/include/piper_cpp/fk.h:26-44 | where all six links of either arm are with the offsets cancelled, in millimetres |
| Kinematics.MatProductAssociates | piper_cpp/include/piper_cpp/utils.h:92-100 | products of transforms associate |
| Kinematics.PosesAreRigid | piper_cpp/include/piper_cpp/fk.h:46-70 | all six poses are rigid for every joint vector |
| Kinematics.LinkLengthsAreConstant | piper_cpp/include/piper_cpp/fk.h:26-70 | however the joints are turned, consecutive joint origins stay as far apart as the parameters say |
| Quaternions.EulerToQuat | piper_cpp/include/piper_cpp/utils.h:178-222 | the closed form is the product of the three half-angle turns, roll and yaw exchanged for rotating axes |
| Quaternions.EulerQuatIsUnit | piper_cpp/include/piper_cpp/utils.h:178-222 | every Euler angle triple gives a unit quaternion |
| Quaternions.NormalizedIsUnit | piper_cpp/include/piper_cpp/utils.h:51-58 | refused exactly when shorter than the threshold, otherwise of unit length |
| Quaternions.QuatMatrixIsRotation | piper_cpp/include/piper_cpp/utils.h:112-128 | the matrix of a unit quaternion is a rotation |
| Quaternions.UnitIsUnchanged | piper_cpp/include/piper_cpp/utils.h:51-58 | normalising a unit quaternion changes nothing |
| Quaternions.EulerMatrixIsRotation | piper_cpp/include/piper_cpp/utils.h:119-128 | so is the matrix of every Euler angle triple, for both axis orders |
| Quaternions.AcceptedQuatGivesRotation | piper_cpp/include/piper_cpp/utils.h:103-128 | so is the matrix of every quaternion that normalisation accepts |
| EulerAngles.EulerMatrixIsTurns | piper_cpp/include/piper_cpp/utils.h:119-128 | the matrix of an Euler quaternion is, entry by entry, the product of the three turns, roll and yaw exchanged for rotating axes |
| EulerAngles.ExtractionSeesTheAngles | piper_cpp/include/piper_cpp/utils.h:147-173 | for an Euler quaternion of either axis order, the matrix entries the extraction reads are sin(pitch) and cos(pitch) times the sine and cosine of the angles it gives back |
| EulerAngles.FiveEntriesDetermine | piper_cpp/include/piper_cpp/utils.h:147-160 | those five entries determine a rotation away from the poles |
| EulerAngles.ReadAnglesRecover | piper_cpp/include/piper_cpp/utils.h:147-160 | the angles read from a rotation matrix stand for it exactly if the code does not take it to be at a pole while it has a yaw |
| EulerAngles.QuatEulerRecovers | piper_cpp/include/piper_cpp/utils.h:102-175 | the angles of an accepted quaternion, turned back into one, give the same rotation under exactly that condition, for both axis orders |
| EulerAngles.EulerRoundTrip | piper_cpp/include/piper_cpp/utils.h:102-222 | eulerToQuat then quatToEuler never refuses, and gives angles with the same sines and cosines exactly if the cosine of the pitch is above the threshold, or not negative with no last turn |
| EulerAngles.MatrixToEuler | piper_cpp/include/piper_cpp/utils.h:60-89 | the position and, in degrees, the angles of the three cases |
| EulerAngles.MatrixEulerRecovers | piper_cpp/include/piper_cpp/utils.h:60-89 | those angles stand for the rotation exactly if it is not within 0.0001 of a pole without being at it |
| EulerAngles.CalcFK | piper_cpp/include/piper_cpp/fk.h:46-70 | for each of the six links the position and angles of its transform in the base frame |
| EulerAngles.PosesDetermineLinks | piper_cpp/include/piper_cpp/fk.h:46-70 | for every joint vector each pose is of a rigid transform with that position, and its angles make that rotation again, by turns and by quaternion, exactly if the link is not merely close to a pole |

## Left out

- IEEE 754 rounding: values on a nominal code boundary may truncate one code lower in double arithmetic, and the conversion of a sampled angle of exactly a full turn may be refused.
- Trigonometric, arctangent and root functions are arbitrary functions with the identities named in `EulerAngles.Library.Sound`. The branches of the Euler helpers that the two supported axis orders never reach.
- EulerAngles.MatrixToEuler: modelled for rigid transforms, the only ones it is given; elsewhere the code may divide by zero.
- Derived fields of decoded messages: error bits, FOC status bits, text and every `toString`. They are functions of fields that are modelled.
- Sockets, ioctl, eventfd, popen, sysfs and libsocketcan: each call succeeds or fails nondeterministically; which frames the transport takes is an arbitrary function of their number. The retry of `poll` after a signal and an absent callback are not modelled; the wake counter does not overflow.
- `findPorts` and its wait, `getCanAdapterSerial`, `getInterfaceBitrate`, `judgeCanInfo`: text scraping. Bus addresses are integers, used only for their order.
- Weak memory: relaxed atomics are modelled as sequentially consistent.
- Sessions: one thread at a time connects or disconnects, and the read thread stores into one multipart cache. The frames that `connectPort` sends are the subject of `PiperInterfaces`.
- Multipart: the arm latches parts one and two and commits on part three; its physical behaviour is otherwise not modelled.
- MotionShadow: a send that fails puts no 0x151 frame on the bus.
- MotorLimits.MotorLimitQuery.WaitForMotorLimits: the update that the reset fell into counts, as it does in the code (`OldReplyCanComplete`), and so do replies that were still queued at the reset, which begin after it. An interval below the 10 ms poll period counts as that period.
- CanUtils.Activate: `std::sort` is an insertion sort with the same contract, and equal bus addresses come in any order; a failing request leaves the interface as it was.
- PiperInterfaces: the feedback half of `PiperInterfaceV2` is modelled where it is hard, in `PartsCache`, `MotorLimits` and `Firmware`; the many one-line command wrappers and the single-slot cases of `parseCANFrame` are omitted.
- Hardware: logging, parameter strings, interface export and a non-finite effort parameter are omitted.
- Lifecycle: callbacks are atomic, and the manager calls `on_error` after every reported error.
- Scripts, launch files, URDF, YAML and build files.
