# Arachno verification

A Dafny model of the parts of the Arachno hexapod stack whose correctness is not visible from
one function body: the IMU wire protocol, the motion supervisor, the trajectory and kinematics
arithmetic, the simulated servo bus, the settle loops and the Feetech register discipline.
`dafny verify dfyconfig.toml` checks everything.

## Components

**IMU wire protocol.** `ShiftRegister` is the bit-serial CRC register as sixteen booleans with
its linearity, its burst theorem and its parity; `PowersOfX` shows that no two bits of a frame
can cancel in it; `Crc16` runs the two nested loops on a `u16` and ties each shift and exclusive
or of them to it. `ImuFrame` is the frame layout, the encoders and the batch decoder as functions
with the round trips; `ImuCodec` is the same in place, on byte arrays with a moving cursor;
`WireFormat` writes the frames, the reasons for refusing them and two known checksums out in
numbers; `ImuDamage` says which damage to a frame is caught. `FrameParser` is the byte-at-a-time
parser as a class over its buffer, `ParserRuns` what it does on whole streams, `ImuHost` the USB
bridge that feeds it one read at a time.

**Motion supervisor.** `ServoPoll` is the round-robin reader, `Motion` the runtime object with
its latched faults and strike counters, `Strikes` the relation of the counters to history,
`Supervisor` one tick of the control worker (an object, and the function it is proved to
follow) and `SupervisorRuns` what every run keeps. `StrikeRuns` and `PollRuns` carry the counter
and freshness theorems over to runs of the worker; `FreshStrikes` says on how many readings the
strikes of a run rest, and `StaleStrikes` when they rest on fewer readings than strikes;
`CommandRuns` says what a run commands while nothing is wrong, and `PoseRuns` what that makes of
the stand-up and the walk. The outcomes of the hardware in a tick (open fails, torque fails, poll
wants a reopen, a servo is offline, the torque limit cannot be restored, a manual action or the
sync write fails) are fields of the tick's `Input`, and every theorem holds for all of them. The
clock is read twice a tick, where the tick may arm and where it chooses its command.

**Trajectories and kinematics.** `LegKinematics` is forward and inverse kinematics of a leg,
`Ticks` the two unit conversions with Rust's rounding, `Easing` smoothstep and its speed,
`StandUp` the four-phase stand-up and the one-phase poses, `Gait` the tripod walk.

**Simulated bus.** `SimBus` is the bus object, `SimRuns` the controller that drives it.

**Settle loops.** `Settle` has both waits: each servo on its own, and all at the same poll.

**Feetech registers.** `StsPacket` is packet framing and the sync write; `Eeprom` the register
map, the two write gates and the unlock, write, verify and relock procedure over a bus whose
servos may ignore a write, take part of it or fail to answer.

`Results`, `Words` and `Reals` hold what the others share.

## Modelling choices

- `f32` arithmetic is exact real arithmetic; `round` (halves away from zero), `clamp` and the
  integer casts are modelled as they are. Angles in the kinematics are unit vectors of cosine and
  sine, so that angles a full turn apart are equal; the square root is a parameter of which only
  the defining equation is used.
- `u8`, `u16`, `i16`, `i32` and `u32` are ranges of `int`; wrapping, saturating and
  two's-complement conversions are written out where the code has them.
- Ports, clocks and sleeps are parameters: reads answer from a script, elapsed time is a function
  of the poll, and writes to a servo's memory have nondeterministic effect. Termination of the
  waits is proved from one poll that comes after the timeout.
- Error texts and summaries are dropped; the error kinds and the numbers that decide them stay.
- A configuration is assumed well formed where a theorem needs it: at least one servo, distinct
  ids, signs of plus or minus one, tick offsets that fit `i16`.

## Findings

- The burst guarantee of the CRC stops at the boundary between payload and checksum, because the
  checksum is stored low byte first: one sixteen-bit burst across it is accepted
  (`ImuDamage.StraddlingBurstAccepted`; `ImuDamage.SealSurvivesIff` is the exact condition). An odd
  number of flipped bits is caught wherever it falls (`ImuDamage.OddDamageDetected`), and so are two
  (`ImuDamage.FewFlipsDetected`); four can pass (`ImuDamage.FourFlipsAccepted`).
- After a frame with an unknown kind the parser keeps its buffer and swallows everything up to 34
  bytes and one more; the `FrameTooLong` it then reports carries the length 1, since it is read
  after the reset (`ParserRuns.UnknownKindSwallows`; `ParserRuns.SwallowsIffUnknownKind` is the exact
  condition).
- The host drops everything in a read after the first completed frame, so of two frames in one read
  the second is lost (`ImuHost.SecondFrameLost`; `ImuHost.LosslessIff` is the exact condition).
- The same stale reading is counted at every tick, so six strikes can rest on fewer readings: two
  of them with 18 servos read six a tick (`StaleStrikes.SixStrikesOnTwoReadings`). Each strike has a
  reading of its own exactly when a tick reads all servos, or when there is no voltage limit
  (`StaleStrikes.EachStrikeHasItsReadingIff`); in a run from start-up six strikes rest on at least
  `1 + 5 b / n` readings (`FreshStrikes.StrikesRestOnMore`), and there is a run that has no more
  (`StaleStrikes.SixStrikesOnFewerReadings`). A negative or zero voltage limit clears the counters of
  all servos.
- A fault that trips while no pose is held, not every servo's position is known, and nothing is sent
  in that tick holds no pose (`SupervisorRuns.TripLeavesNoPoseIff`): until a re-arm, what is
  commanded under it is the mode's fallback pose (`SupervisorRuns.FaultedRunWithoutPose`). Two ticks
  from start-up can get there on any robot (`SupervisorRuns.FaultWithoutPoseHappens`). Faults latch
  in telemetry mode too.
- With a stand-up shorter than two thirds of a second the 0.1 s floor of the last phase makes the
  phases overrun, and the last command is a jump by the part of the coxa's way left undone
  (`StandUp.LastCommandJumps`, `StandUp.ShortStandUpJumps`). The commands reach a target in time
  exactly when that part is less than the half tick which rounding hides (`StandUp.LandsIff`), and
  keep their rate bound exactly under the condition of `StandUp.CommandRateBoundIff`.
- A walk with a time limit stops wherever in its cycle the limit falls: the coxae are sent from their
  offset of that moment to the captured pose in one command (`Gait.HaltJumps`, `Gait.HaltMidCycle`).
  That offset is nought exactly when the leg stands still, has no swing, or the limit falls a quarter
  or three quarters into a cycle (`Gait.OffsetVanishesIff`). Whatever the profile and the captured
  pose, the commands keep the walk's rate bound across the halt exactly when the leg stands still or
  the limit falls there (`Gait.HaltKeepsRateIff`), which is where the legs of one tripod are in the
  middle of their lift (`Gait.MidSwingIsMidLift`).
- A zero reference averaged to half a tick moves a servo one tick each time its angle is converted
  back (`Ticks.HalfTickZeroMoves`; `Ticks.CalibratedRoundTrip` is the exact condition).
- With the foot on the coxa end the solver answers with a level femur whatever the pose was
  (`LegKinematics.IkOfFk`).
- A settle wait over a list with a duplicate id never succeeds (`Settle.WaitForServosToSettle`) and
  can time out naming nobody (`Settle.DuplicateNamesNobody`), which it does exactly when all servos
  had settled (`Settle.NobodyLingersIff`).
- A sync write of more than 83 commands wraps its length byte, and the packet no longer parses by the
  host's own rules (`StsPacket.SyncWriteFaithfulIff`; the firmware of the servos is not part of this
  model).
- An error while unlocking the EEPROM leaves the servos tried before it unlocked; a failed relock
  leaves those after it unlocked (`Eeprom.SetAllLocks`, `Eeprom.ApplyEeprom`).

## Model

| member | source | states |
|---|---|---|
| ShiftRegister.StepNKernel | crates/arachno-imu-proto/src/lib.rs:439-454 | turning the CRC register any number of times empties it only if it was empty: each step is injective |
| ShiftRegister.FeedLinear | crates/arachno-imu-proto/src/lib.rs:439-454 | feeding two bit streams leaves registers whose difference is what feeding the difference leaves |
| ShiftRegister.FeedPad | crates/arachno-imu-proto/src/lib.rs:439-454 | feeding up to sixteen bits one by one equals adding them at once and then turning that often |
| ShiftRegister.BurstLeavesTrace | crates/arachno-imu-proto/src/lib.rs:439-454 | a non-zero error pattern inside sixteen consecutive bits never leaves an empty register |
| ShiftRegister.FeedParity | crates/arachno-imu-proto/src/lib.rs:439-454 | the parity of the register is its starting parity changed by that of all bits fed: the generator has an even number of terms |
| PowersOfX.NoReturn | crates/arachno-imu-proto/src/lib.rs:439-454 | a lone bit in the register does not come back in any number of turns from 1 to 272: x^n is not 1 modulo the generator |
| PowersOfX.TwoBitsLeaveTrace | crates/arachno-imu-proto/src/lib.rs:439-454 | two set bits of a stream at most 272 positions apart never cancel in the register |
| Crc16.NumberRoundTrip | crates/arachno-imu-proto/src/lib.rs:439-454 | the bits of a number, most significant first, determine it |
| Crc16.XorIsPlus | crates/arachno-imu-proto/src/lib.rs:442-447 | the exclusive or of two words is the sum of their registers |
| Crc16.ShlIsShift | crates/arachno-imu-proto/src/lib.rs:445-448 | shifting a word left by one, dropping bit 16, is shifting its register |
| Crc16.TopBit16 | crates/arachno-imu-proto/src/lib.rs:445 | the top bit of a word is set exactly from 0x8000 on |
| Crc16.TurnIsStep | crates/arachno-imu-proto/src/lib.rs:444-450 | one shift and conditional exclusive or with 0x1021 on the word is one step of the register |
| Crc16.ShiftEight | crates/arachno-imu-proto/src/lib.rs:444-450 | the inner loop of eight shifts and conditional exclusive ors on a word is eight steps of its register |
| Crc16.ComputeCrc | crates/arachno-imu-proto/src/lib.rs:439-454 | the nested loops over a 16-bit word compute the number the bit-serial register holds, started from all ones and fed with all message bits |
| Crc16.CrcDifference | crates/arachno-imu-proto/src/lib.rs:439-454 | the checksums of two messages of one length differ by what the difference of the messages leaves in an empty register |
| Crc16.BurstChangesCrc | crates/arachno-imu-proto/src/lib.rs:439-454 | messages of one length that differ only inside sixteen consecutive bits have different checksums |
| WireFormat.KnownChecksums | crates/arachno-imu-proto/src/lib.rs:439-454 | the checksum of nothing is 0xFFFF and that of the character 1 is 0xC782: start value, generator, width and bit order |
| ImuFrame.SampleRoundTrip | crates/arachno-imu-proto/src/lib.rs:258-295 | decoding an encoded sample gives the same sequence number and sample, for every sample |
| ImuFrame.SampleRoundTripBack | crates/arachno-imu-proto/src/lib.rs:342-437 | encoding what an accepted sample frame decodes to reproduces its bytes |
| ImuFrame.InfoRoundTrip | crates/arachno-imu-proto/src/lib.rs:297-340 | decoding an encoded device info gives it back, for every info |
| ImuFrame.InfoRoundTripBack | crates/arachno-imu-proto/src/lib.rs:375-435 | encoding what an accepted 12-byte info frame decodes to reproduces its bytes |
| ImuFrame.ShortInfoLikeLong | crates/arachno-imu-proto/src/lib.rs:375-435 | an 8-byte info frame decodes to what the 12-byte frame with the default diagnostics decodes to |
| ImuFrame.AcceptedIsIntact | crates/arachno-imu-proto/src/lib.rs:342-373 | an accepted frame carries the checksum of its own covered bytes |
| ImuFrame.IntactIsSealed | crates/arachno-imu-proto/src/lib.rs:342-373 | a frame with an intact checksum is its covered bytes sealed by the encoder |
| WireFormat.SampleOnTheWire | crates/arachno-imu-proto/src/lib.rs:258-295 | every byte of a sample frame: sync A5 5A, version 1, kind 1, length 26, then the fields in order, low byte first, in two-s complement, and the checksum of the 32 bytes before |
| WireFormat.InfoOnTheWire | crates/arachno-imu-proto/src/lib.rs:297-340 | every byte of a device info frame, with the codes of the sensors |
| WireFormat.ShortInfoDefaults | crates/arachno-imu-proto/src/lib.rs:375-435 | an accepted 8-byte info reads its fields and has no fault, no identity and bus mode 255 |
| WireFormat.Refusals | crates/arachno-imu-proto/src/lib.rs:342-373 | which frames are refused as incomplete, for sync, version, kind or length, in the order of the checks |
| WireFormat.ChecksumRefusals | crates/arachno-imu-proto/src/lib.rs:364-437 | a frame of fitting length is refused for its checksum exactly when the last two bytes are not that of all bytes before, reporting both, and only then for its payload length or sensor |
| ImuCodec.EncodeSampleFrame | crates/arachno-imu-proto/src/lib.rs:258-295 | writing field by field through the cursor fills exactly the first 34 bytes with the sample frame, or reports a short buffer and writes nothing |
| ImuCodec.EncodeDeviceInfoFrame | crates/arachno-imu-proto/src/lib.rs:297-340 | the same for the 20 bytes of a device info frame |
| ImuCodec.Write | crates/arachno-imu-proto/src/lib.rs:469-491 | copying at the cursor writes the bytes there, moves the cursor behind them and leaves all other bytes alone |
| ImuCodec.ReadSample | crates/arachno-imu-proto/src/lib.rs:399-435 | the cursor walk reads every field of a sample at its documented offset |
| ImuCodec.Decode | crates/arachno-imu-proto/src/lib.rs:342-437 | the decoder with its sequence of checks and cursor reads returns exactly the specified result or error |
| ImuDamage.BurstDetected | crates/arachno-imu-proto/src/lib.rs:342-373 | damage to an accepted frame inside sixteen consecutive bits of its covered bytes is always rejected |
| ImuDamage.ChecksumDamageDetected | crates/arachno-imu-proto/src/lib.rs:365-373 | any damage to the stored checksum alone is rejected |
| ImuDamage.OddDamageDetected | crates/arachno-imu-proto/src/lib.rs:342-373 | flipping any odd number of bits anywhere in an accepted frame, stored checksum included, is rejected |
| ImuDamage.FewFlipsDetected | crates/arachno-imu-proto/src/lib.rs:342-373 | flipping one, two or three bits anywhere in an accepted frame, stored checksum included, is always rejected |
| ImuDamage.FourFlipsAccepted | crates/arachno-imu-proto/src/lib.rs:342-373 | four can pass: for every encoded sample four flips in the shape of the generator give another sample that is accepted |
| ImuDamage.SealSurvivesIff | crates/arachno-imu-proto/src/lib.rs:365-373 | arbitrary damage passes the checksum exactly when the stored word moved by what the damage to the covered bytes leaves in an empty register |
| ImuDamage.StraddlingBurstAccepted | crates/arachno-imu-proto/src/lib.rs:439-454 | for every encoded sample, flipping mask 0x89 in the last payload byte and 0xA1 in the low checksum byte yields an accepted frame with another sample |
| FrameParser.Parser.Reset | crates/arachno-imu-proto/src/lib.rs:176-179 | reset returns the parser to idle |
| FrameParser.Parser.PushByte | crates/arachno-imu-proto/src/lib.rs:181-245 | pushing a byte into buffer, length and expected length does to the held bytes what the specification of a push says, and returns its result |
| FrameParser.Parser.PushSlice | crates/arachno-imu-proto/src/lib.rs:247-256 | pushing a slice stops at the first frame or error and leaves the parser after the bytes consumed until then |
| FrameParser.RunAppend | crates/arachno-imu-proto/src/lib.rs:181-245 | parsing a concatenation is parsing its parts one after the other |
| FrameParser.PushKeeps | crates/arachno-imu-proto/src/lib.rs:181-245 | every reachable parser state is led to a reachable one by any byte |
| FrameParser.RunKeeps | crates/arachno-imu-proto/src/lib.rs:181-245 | so does any input |
| WireFormat.SliceStopsAtFirst | crates/arachno-imu-proto/src/lib.rs:247-256 | a slice is read up to the first push that returns something, and its result is that of this push |
| WireFormat.HeaderVerdicts | crates/arachno-imu-proto/src/lib.rs:208-238 | what the parser returns at the sixth byte for every version, kind and length |
| ParserRuns.FrameRun | crates/arachno-imu-proto/src/lib.rs:181-245 | from idle, or after a lone first sync byte, pushing a well-framed frame returns its batch decoding on the last byte and nothing before |
| ParserRuns.NoiseRun | crates/arachno-imu-proto/src/lib.rs:185-206 | noise without a sync pair is swallowed silently and leaves the parser listening |
| ParserRuns.StreamRefinesBatch | crates/arachno-imu-proto/src/lib.rs:181-245 | on any alternation of noise blocks and encoder frames the parser returns exactly the batch decoding of each frame on its last byte, in order, and nothing elsewhere |
| ParserRuns.Stabilises | crates/arachno-imu-proto/src/lib.rs:181-245 | from any reachable state holding at least a sync pair, at most 34 minus held plus one further bytes, whatever they are, bring the parser back to idle |
| ParserRuns.UnknownKindSwallows | crates/arachno-imu-proto/src/lib.rs:214-245 | after an unknown frame kind the parser swallows silently until its buffer is full and then reports a too long frame of length 1 |
| ParserRuns.KnownKindEnds | crates/arachno-imu-proto/src/lib.rs:214-245 | once the header of a known kind is in, the frame is judged by the batch decoder exactly when its last byte arrives, with nothing returned before |
| ParserRuns.SwallowsIffUnknownKind | crates/arachno-imu-proto/src/lib.rs:214-245 | a reachable parser that holds a header swallows until its buffer is full and reports length 1 exactly when the held kind is unknown, whatever the input |
| ParserRuns.GarbageIsOvercome | crates/arachno-imu-proto/src/lib.rs:181-245 | after arbitrary garbage, in a stream of frames with a single sync pair each, every frame that starts at least 33 bytes after the garbage is delivered |
| ImuHost.UsbImuBridge.ReadPort | crates/arachno-imu-host/src/lib.rs:69-71 | one read takes the next answer of the port and nothing else |
| ImuHost.UsbImuBridge.Scan | crates/arachno-imu-host/src/lib.rs:72-82 | the read bytes are pushed one by one, errors ignored, up to the first completed frame |
| ImuHost.UsbImuBridge.NextFrame | crates/arachno-imu-host/src/lib.rs:68-89 | a call returns the first frame completed by its one read, or none, and leaves the parser after the bytes it kept; only a port error fails |
| ImuHost.UsbImuBridge.NextSample | crates/arachno-imu-host/src/lib.rs:117-128 | frames are asked for while they are device infos; the result and the parser are those of the specified call |
| ImuHost.NextSampleDropsOnlyInfos | crates/arachno-imu-host/src/lib.rs:117-128 | the frames a call saw are device infos followed by the returned sample, if any: no sample is dropped |
| ImuHost.SampleArrives | crates/arachno-imu-host/src/lib.rs:66-100 | a sample frame in one read is returned, a timeout returns nothing, a port error fails |
| ImuHost.HostSeesKeptBytes | crates/arachno-imu-host/src/lib.rs:68-89 | under any chunking the host sees the frames of one continuous parse of the bytes it kept |
| ImuHost.LosslessIff | crates/arachno-imu-host/src/lib.rs:68-89 | no byte is lost exactly when no read carries bytes past the first frame completed in it, and then the frames are those of the unchunked stream |
| ImuHost.LostIsTheTail | crates/arachno-imu-host/src/lib.rs:68-89 | what a read loses is exactly its tail after the first completed frame |
| ImuHost.SecondFrameLost | crates/arachno-imu-host/src/lib.rs:68-89 | of two accepted frames in one read only the first is seen, though a continuous parse has both |
| ServoPoll.PollServoWindow | apps/arachno-brain/src/main.rs:2470-2503 | the loop reads servos from the cursor on, at least one, records each answer or its absence, advances the cursor round robin and asks for a reopen exactly if some read did |
| ServoPoll.AdvanceInRange | apps/arachno-brain/src/main.rs:2481-2483 | the cursor stays below the number of servos |
| ServoPoll.LapVisitsAllOnce | apps/arachno-brain/src/main.rs:2481-2483 | any n consecutive reads visit every servo exactly once and return the cursor |
| ServoPoll.FairShare | apps/arachno-brain/src/main.rs:2470-2503 | of any m consecutive reads a servo gets m / n, or one more |
| ServoPoll.EveryServoFresh | apps/arachno-brain/src/main.rs:2087-2106 | in any ceil(n / b) consecutive ticks that each read at least b servos, every servo is read |
| ServoPoll.AtLeastItsShare | apps/arachno-brain/src/main.rs:2470-2503 | of any m consecutive reads a servo gets at least m / n |
| ServoPoll.PolledWithinLap | apps/arachno-brain/src/main.rs:2470-2503 | within a lap a servo whose turn has come shows its own answer, every other one what was known before |
| ServoPoll.PolledIsLastAnswer | apps/arachno-brain/src/main.rs:2470-2503 | after any number of reads, laps included, what is known of a servo is its latest answer among them, or what was known before |
| Motion.MotionRuntime.constructor | apps/arachno-brain/src/main.rs:1264-1299 | a new runtime is unarmed, unfaulted, holds no pose and has no strikes |
| Motion.MotionRuntime.ArmAt | apps/arachno-brain/src/main.rs:1301-1338 | arming sets initial and hold pose and clears the body strikes, unless already armed |
| Motion.MotionRuntime.DisarmNow | apps/arachno-brain/src/main.rs:1340-1345 | disarming forgets the initial pose and the body strikes, and keeps fault and hold pose |
| Motion.MotionRuntime.Trip | apps/arachno-brain/src/main.rs:1347-1358 | the first fault latches with its hold pose; later ones change nothing |
| Motion.MotionRuntime.BodyAttitudeFault | apps/arachno-brain/src/main.rs:1615-1673 | one look at the IMU moves the strike counter and trips as specified |
| Motion.MotionRuntime.Check | apps/arachno-brain/src/main.rs:1396-1451 | one evaluation of body, voltages and temperatures moves only the counters and stops at the first fault |
| Motion.MotionRuntime.NextCommands | apps/arachno-brain/src/main.rs:1453-1578 | the commanded pose, and the hold pose kept for later, are those of the specification |
| Strikes.ServosCounted | apps/arachno-brain/src/main.rs:1412-1451 | the loop over the servos faults exactly when one of them does, and otherwise each counter moves by its own servo alone |
| Strikes.LookStrikesIff | apps/arachno-brain/src/main.rs:1616-1684 | a look strikes exactly when the acceleration is unknown or within 7.31 to 12.31 m/s2 and roll, or else pitch, is beyond its limit to either side; the reason is roll before pitch |
| Strikes.MirroredLook | apps/arachno-brain/src/main.rs:1616-1684 | negating both angles changes no verdict |
| Strikes.BodyRunMoves | apps/arachno-brain/src/main.rs:1616-1684 | a look lengthens the run of the body exactly when tipped, ends it when calm, and leaves it when there is none, and there is none in telemetry and manual mode |
| Strikes.VoltageRunMoves | apps/arachno-brain/src/main.rs:1412-1434 | an evaluation lengthens the run of a servo exactly when its known voltage is below a positive limit, else ends it, and leaves it without telemetry |
| Strikes.OverheatedIff | apps/arachno-brain/src/main.rs:1440-1448 | a servo is too hot exactly when its known temperature is above the limit |
| Strikes.ThreeTippedLooksTrip | apps/arachno-brain/src/main.rs:1616-1684 | three tipped looks in a row, of whatever signs, trip at the third unless something tripped before |
| Strikes.CountersAreRuns | apps/arachno-brain/src/main.rs:1396-1451 | on every untripped history each voltage counter is the length of its latest unbroken run of low evaluations, missing telemetry skipped, and the body counter that of its run since the last reset, disarm or arm |
| Strikes.TripsExactlyAtThreshold | apps/arachno-brain/src/main.rs:1396-1451 | an evaluation trips exactly when a voltage run reaches 6, the body run reaches 3, or a servo is too hot |
| StrikeRuns.GuardTripsIff | apps/arachno-brain/src/main.rs:2156-2162 | from counters that agree with history the check of a tick trips exactly when some run reaches its threshold in it, and otherwise leaves agreeing counters |
| StrikeRuns.TickAgrees | apps/arachno-brain/src/main.rs:1948-2417 | an unfaulted tick, whatever the hardware does in it, leaves counters that agree with the history it extends |
| StrikeRuns.SwitchFirst | apps/arachno-brain/src/main.rs:1951-1997 | a tick that switches mode is the tick of a worker already switched, whose runtime is fresh |
| StrikeRuns.CountersAreRunsOfTheWorker | apps/arachno-brain/src/main.rs:1948-2417 | over every run of the worker, mode switches included, whenever no fault is latched the voltage counters and the body counter are the lengths of the runs in the history since the latest switch |
| StrikeRuns.TripsExactlyWhenARunReaches | apps/arachno-brain/src/main.rs:1948-2417 | in every such run a tick that gets to its safety check unfaulted trips there exactly when a voltage run reaches 6, the body run reaches 3, or a servo is too hot |
| StrikeRuns.ThreeTippedTicksFault | apps/arachno-brain/src/main.rs:1948-2417 | in every run an armed body that is tipped in three consecutive ticks is faulted after the third, whatever the hardware does meanwhile |
| StrikeRuns.HeatFaults | apps/arachno-brain/src/main.rs:1440-1448 | a servo known to be hotter than the limit faults a torque mode in the tick that gets to its check |
| Supervisor.ControlWorker.ReadCurrentPose | apps/arachno-brain/src/main.rs:3361-3374 | the current pose exists exactly when every configured servo has telemetry, and is their positions |
| Supervisor.ControlWorker.SwitchStage | apps/arachno-brain/src/main.rs:1951-1997 | a pending different mode replaces the runtime and, without torque demand, drops torque |
| Supervisor.ControlWorker.OpenStage | apps/arachno-brain/src/main.rs:2006-2048 | a closed bus is opened, with torque off and motion disarmed, or the tick ends disarmed |
| Supervisor.ControlWorker.TorqueStage | apps/arachno-brain/src/main.rs:2055-2081 | torque is enabled when the mode needs it, or the tick ends disarmed with the bus closed |
| Supervisor.ControlWorker.PollStage | apps/arachno-brain/src/main.rs:2083-2135 | the read budget is chosen and polled; a lost link trips a fault, closes the bus and ends the tick |
| Supervisor.ControlWorker.ArmStage | apps/arachno-brain/src/main.rs:2137-2154 | an unarmed motion arms at the current pose if the torque limit can be restored, and is disarmed otherwise |
| Supervisor.ControlWorker.GuardStage | apps/arachno-brain/src/main.rs:2156-2162 | an unfaulted torque mode is checked, and a fault trips at the current pose |
| Supervisor.ControlWorker.ManualStage | apps/arachno-brain/src/main.rs:2303-2335 | a failed manual action trips a fault, closes the bus and ends the tick |
| Supervisor.ControlWorker.SendStage | apps/arachno-brain/src/main.rs:2341-2386 | the commands are sent; a failed write trips a fault and closes the bus |
| Supervisor.ControlWorker.TickOnce | apps/arachno-brain/src/main.rs:1948-2417 | a whole tick on the object is the specified tick, with the pose sent and the pose armed at |
| SupervisorRuns.TickKeeps | apps/arachno-brain/src/main.rs:1948-2417 | one tick with any hardware outcome keeps the invariant: cursor in range, armed iff an initial pose covers exactly the configured ids, armed and unfaulted only with the bus open and torque on |
| SupervisorRuns.ArmedCoversServos | apps/arachno-brain/src/main.rs:1948-2417 | the invariant in every tick of every run from start-up |
| SupervisorRuns.RunStep | apps/arachno-brain/src/main.rs:1948-2417 | the ticks of a run each start where the previous one ended |
| SupervisorRuns.SendNeedsArmedOrFault | apps/arachno-brain/src/main.rs:1453-1578 | a command is chosen exactly in a torque mode that is armed or faulted |
| SupervisorRuns.UnarmedIsSilent | apps/arachno-brain/src/main.rs:1948-2417 | a tick that ends unarmed and unfaulted has sent nothing, and telemetry mode never sends |
| CommandRuns.MeasuredPose | apps/arachno-brain/src/main.rs:3361-3374 | there is a measured pose exactly when the telemetry of every servo is known, and it has each at its latest position |
| CommandRuns.ArmsAtMeasured | apps/arachno-brain/src/main.rs:2108-2155 | a tick arms only an unarmed motion, in a mode that drives the servos, once the torque limit is restored, and at the measured pose |
| CommandRuns.RunRemembers | apps/arachno-brain/src/main.rs:1302-1345 | over every run an armed motion remembers pose and time of the latest arming |
| CommandRuns.CommandsFollowArming | apps/arachno-brain/src/main.rs:1453-1578 | over every run, with switches and re-armings, whatever a tick sends while no fault comes before its write is the pose its mode derives from the pose of the latest arming and the time since |
| PoseRuns.StandUpArrives | apps/arachno-brain/src/main.rs:1453-1578 | in every run a stand-up commands its target once its duration has passed since the latest arming, and at the arming the measured pose |
| PoseRuns.WalkStands | apps/arachno-brain/src/main.rs:1453-1578 | in every run each command of a walk keeps all legs of one tripod where the latest arming measured them, to within one tick |
| SupervisorRuns.StartsClosed | apps/arachno-brain/src/main.rs:1287-1299 | a worker starts with bus closed, torque off, nothing known, unarmed and without fault or strikes |
| SupervisorRuns.ReopenedBusNeedsTorque | apps/arachno-brain/src/main.rs:1998-2085 | with its bus closed a torque mode that cannot open it or switch torque on anew ends the tick unarmed, bus closed, nothing read or sent |
| SupervisorRuns.TelemetryKeepsTorqueOff | apps/arachno-brain/src/main.rs:2055-2085 | telemetry mode never switches torque on |
| SupervisorRuns.FaultCauses | apps/arachno-brain/src/main.rs:1948-2417 | the link drops only when an answer asks for a reopen, a manual action fails only in manual mode, a write only when something was sent, and each gives up the bus; an unfaulted tick has failed none of them |
| SupervisorRuns.TickUnderFault | apps/arachno-brain/src/main.rs:1948-2417 | without a switch to another mode a tick keeps a latched fault and its mode, and sends nothing, the pose of a re-arm in this tick, the held pose, or, holding none, the fallback pose |
| SupervisorRuns.FaultStaysLatched | apps/arachno-brain/src/main.rs:1347-1358 | over a whole run without a switch a latched fault is never cleared or changed |
| SupervisorRuns.FaultedRun | apps/arachno-brain/src/main.rs:1948-2417 | over a whole faulted run every command is the pose of the latest re-arm, or the pose held when the run began |
| SupervisorRuns.CommandsConstantUnderFault | apps/arachno-brain/src/main.rs:1948-2417 | without re-arms the commands under a fault never change |
| SupervisorRuns.FaultedRunWithoutPose | apps/arachno-brain/src/main.rs:1580-1613 | under a fault tripped with no pose to hold, the first command before a re-arm is the mode fallback pose |
| SupervisorRuns.TripHoldsMeasuredPose | apps/arachno-brain/src/main.rs:2108-2386 | a tick that trips a fault while every servo has telemetry holds the measured pose from then on |
| SupervisorRuns.CheckTripSends | apps/arachno-brain/src/main.rs:2156-2417 | a tick that trips in its safety check sends in the same tick the pose it then holds, the measured one when all servos have telemetry |
| SupervisorRuns.TripLeavesNoPoseIff | apps/arachno-brain/src/main.rs:2108-2417 | a tripping tick leaves no pose held exactly when none was held before it, not every position is known at the trip, and it sends nothing; where it does send then, it is the fallback pose, held from then on |
| SupervisorRuns.FaultWithoutPoseHappens | apps/arachno-brain/src/main.rs:1948-2106 | on any robot two ticks from start-up get there: the link drops before any servo answered, and the next tick sends the fallback pose with torque on |
| SupervisorRuns.SwitchForgets | apps/arachno-brain/src/main.rs:1951-1997 | a switch to another mode makes the tick independent of the earlier fault, hold pose and strikes |
| PollRuns.TickMovesCursor | apps/arachno-brain/src/main.rs:2087-2106 | a tick moves the cursor by exactly the servos it reads, and by none when it ends before polling |
| PollRuns.TickReadsExactly | apps/arachno-brain/src/main.rs:2087-2106 | a polling tick reads all servos while recording, watching or unarmed, else exactly the configured stride held between one and all |
| PollRuns.TickLearns | apps/arachno-brain/src/main.rs:2087-2106 | the telemetry a tick checks, and leaves, is of each servo its latest answer read in that tick, or what was known before |
| PollRuns.ServoReadInWindow | apps/arachno-brain/src/main.rs:2087-2106 | anywhere in any run, k polling ticks read at least k b / n answers of a servo, and what is known of it afterwards is the last of them |
| PollRuns.EveryServoReadInWindow | apps/arachno-brain/src/main.rs:2087-2106 | anywhere in any run, after ceil(n / b) polling ticks what is known of every servo is the last of its answers read in them, with b the stride held between 1 and n |
| FreshStrikes.StrikeTicksCount | apps/arachno-brain/src/main.rs:1412-1434 | in every run the ticks of the current strikes of a servo are as many as its run of low evaluations is long |
| FreshStrikes.StrikesRestOnReadings | apps/arachno-brain/src/main.rs:1412-1434 | in every run, since the tick of the first of r strikes at least r b / n answers of the servo were read, and the reading known of it is the last of them |
| FreshStrikes.StrikesRestOnMore | apps/arachno-brain/src/main.rs:1412-1434 | in every run that begins unarmed the first of r strikes has an answer read in its own tick, and all of them rest on at least 1 + (r - 1) b / n answers |
| FreshStrikes.WholeStrideReadsEachTime | apps/arachno-brain/src/main.rs:1412-1434 | with a stride of at least n, each strike of every run has an answer read in its own tick |
| StaleStrikes.SixStrikesOnFewerReadings | apps/arachno-brain/src/main.rs:1412-1434 | with a smaller stride a run from start-up reaches the sixth strike, and trips on it and not before, on 1 + 5 b / n readings, the least there can be, the second strike having none of its own |
| StaleStrikes.SixStrikesOnTwoReadings | apps/arachno-brain/src/main.rs:1412-1434 | with 18 servos read six a tick that run trips on exactly two readings |
| StaleStrikes.EachStrikeHasItsReadingIff | apps/arachno-brain/src/main.rs:1412-1434 | in every run each of six strikes has a reading of its own exactly when a tick reads all servos or there is no voltage limit |
| LegKinematics.OkIffInReach | crates/arachno-core/src/lib.rs:1599-1610 | the solver succeeds exactly when the squared distance lies between the squared difference and sum of the links |
| LegKinematics.ClampIsNoOp | crates/arachno-core/src/lib.rs:1612-1613 | in reach the clamped cosine already lies in [-1, 1] and satisfies the law of cosines |
| LegKinematics.ResidualIsTibia | crates/arachno-core/src/lib.rs:1616-1628 | after the femur exactly the tibia length remains, in the direction of femur plus knee |
| LegKinematics.FkOfIk | crates/arachno-core/src/lib.rs:1587-1629 | the solution consists of angles whose foot is the target, with a tibia sine that is not positive |
| LegKinematics.SideViewReachesFoot | crates/arachno-core/src/lib.rs:1180-1209 | on either side of the body the side view of the solution ends at the requested foot |
| LegKinematics.SideViewIsFoot | crates/arachno-core/src/lib.rs:1180-1209 | the side view of any pose ends at its foot, mirrored on the left side |
| LegKinematics.SideViewFemur | crates/arachno-core/src/lib.rs:1570-1585 | the coxa lies level outward on its side and the femur follows its angle |
| LegKinematics.SolvesIffReachable | crates/arachno-core/src/lib.rs:1587-1629 | the solver answers exactly for the feet that some pose reaches |
| LegKinematics.RefusedFoot | crates/arachno-core/src/lib.rs:1587-1612 | a foot out of reach is refused with its distance and the bound it breaks |
| LegKinematics.IkOfFk | crates/arachno-core/src/lib.rs:1587-1629 | solving for the foot of a pose returns that pose exactly when its tibia sine is not positive and the foot is off the coxa end or the femur level |
| LegKinematics.IkRecoversPose | crates/arachno-core/src/lib.rs:1587-1629 | for tibia angles in the half turn of the robot and a foot off the coxa end the pose is recovered |
| Ticks.RoundNearest | apps/arachno-brain/src/main.rs:4261-4265 | rounding is to a nearest integer, halves away from zero |
| Ticks.TickOfSpread | apps/arachno-brain/src/main.rs:4261-4265 | rounded and clamped commands differ by at most one tick more than the exact positions |
| Ticks.CoreRoundTrip | crates/arachno-core/src/lib.rs:1495-1505 | with integer references ticks to degrees to ticks is the identity on the whole range |
| Ticks.DegreesRoundTrip | crates/arachno-core/src/lib.rs:1495-1505 | degrees to ticks to degrees errs by at most half a tick exactly when the position is within half a tick of the range |
| Ticks.ZeroReferenceModerate | apps/arachno-brain/src/main.rs:4183-4220 | every zero reference a calibration can yield stays far from the saturation of the integer cast |
| Ticks.CalibrationFindsZero | apps/arachno-brain/src/main.rs:4183-4220 | references that are right to within e ticks, at -45, 0 and 45 degrees, of a tibia at -60, 0 and 60, give a zero right to within e; perfect ones the zero itself |
| Ticks.NoCalibration | apps/arachno-brain/src/main.rs:4207-4220 | without a recorded reference the configured one stands |
| Ticks.AngleMeans | apps/arachno-brain/src/main.rs:4240-4254 | the angle of a servo is its distance from the zero at 4096 / 360 ticks a degree in its own sense, to half a tick |
| Ticks.TicksMean | apps/arachno-brain/src/main.rs:4255-4267 | the ticks of an angle are that distance from the zero within the range, to half a tick |
| Ticks.CalibratedRoundTrip | apps/arachno-brain/src/main.rs:4240-4267 | angle and back to ticks returns n, except n + 1 (within range) exactly when the zero reference lies halfway between ticks below n |
| Ticks.WholeZeroRoundTrip | apps/arachno-brain/src/main.rs:4240-4267 | with a whole zero reference the round trip is the identity |
| Ticks.WithinOneTick | apps/arachno-brain/src/main.rs:4207-4267 | for every calibration the round trip moves a servo by at most one tick |
| Ticks.HalfTickZeroMoves | apps/arachno-brain/src/main.rs:4207-4267 | a calibration with two references averaging to half a tick moves tick 3000 to 3001 |
| Easing.SmoothstepSpread | crates/arachno-core/src/lib.rs:1548-1551 | smoothstep never falls and rises at most 1.5 times as fast as its clamped argument |
| Easing.SmoothstepRange | crates/arachno-core/src/lib.rs:1548-1551 | it runs from 0 to 1, constant outside |
| Easing.SmoothstepEases | crates/arachno-core/src/lib.rs:1548-1551 | it starts and ends gently, below 3 t squared, and its second half mirrors its first |
| Easing.RampSpread | apps/arachno-brain/src/main.rs:4458-4501 | a phase advances at most 1.5 times its share of the time spent in it |
| StandUp.ComputeInterpolatedPose | apps/arachno-brain/src/main.rs:4708-4723 | the loop over all ids yields each interpolated, rounded and clamped position, missing starts being 0 and missing ends the start |
| StandUp.InterpolationEnds | apps/arachno-brain/src/main.rs:4708-4723 | interpolation gives the start up to 0 and the end from 1 on, the middle at a half; a servo without an end keeps its start, one without a start comes from 0 |
| StandUp.ComputeFemurLift | apps/arachno-brain/src/main.rs:4633-4654 | the loop over the legs builds the femur lift pose |
| StandUp.ComputeFootPlant | apps/arachno-brain/src/main.rs:4656-4678 | the loop over the legs builds the foot plant pose |
| StandUp.ComputeBodyRaise | apps/arachno-brain/src/main.rs:4680-4698 | the loop over the legs builds the body raise pose |
| StandUp.PhaseTimes | apps/arachno-brain/src/main.rs:4443-4464 | a stand-up takes the configured time, at least 0.5 s: a fifth each to lift and plant, nine twentieths to rise, the rest, at least 0.1 s, for the coxae |
| StandUp.FemurLifted | apps/arachno-brain/src/main.rs:4633-4654 | every femur is moved in its lift direction by six times the configured ticks, whatever their sign, at least 72, from where it was measured, else the lay-down pose, else its zero, within the range |
| StandUp.FootPlanted | apps/arachno-brain/src/main.rs:4656-4678 | every tibia is moved against its lift direction by five times the configured ticks, at least 90, from the same start, within the range |
| StandUp.CoxaeMoveLast | apps/arachno-brain/src/main.rs:4434-4503 | coxae stay put through the first three phases; femurs and tibias have arrived before the last |
| StandUp.FollowsPosition | apps/arachno-brain/src/main.rs:4434-4503 | for at least 2/3 s the command is at all times the rounded sum of the eased phases, from the base pose to the target |
| StandUp.CommandAtStart | apps/arachno-brain/src/main.rs:4434-4503 | at the start every servo is commanded where it is, for any duration |
| StandUp.CommandAfterEnd | apps/arachno-brain/src/main.rs:4443-4457 | when the duration is up the target is commanded, whatever the base pose |
| StandUp.PositionSpread | apps/arachno-brain/src/main.rs:4434-4503 | the exact position changes by at most 1.5 times the largest phase rate times the time passed |
| StandUp.CommandRateBound | apps/arachno-brain/src/main.rs:4434-4503 | commands at two times differ per servo by at most 1.5 times the largest phase rate times the time between, plus one tick, for every duration of at least 2/3 s and for every shortfall of at most half a tick |
| StandUp.CommandRateBoundIff | apps/arachno-brain/src/main.rs:4434-4503 | for every configuration and servo the commands keep that bound at all times exactly when the servo has no way to go, or its unrounded position is at most 1.5 ticks from the target at the moment from which the bound allows less than two ticks until the end |
| StandUp.LastStepJumps | apps/arachno-brain/src/main.rs:4458-4461 | below 2/3 s the unrounded position stays a fixed shortfall from the target to the very end, positive exactly when the last phase has a way to go |
| StandUp.ComesInIff | apps/arachno-brain/src/main.rs:4443-4461 | the unrounded position comes in on the target at some finite rate exactly when the duration is at least 2/3 s or the last phase has no way to go |
| StandUp.LastCommandJumps | apps/arachno-brain/src/main.rs:4434-4503 | below 2/3 s every command of the last phase, however late, misses the target by the shortfall less half a tick or more; when the duration is up the target is commanded |
| StandUp.LandsIff | apps/arachno-brain/src/main.rs:4434-4503 | the commands reach a servo target before the duration is up exactly when the shortfall is less than half a tick, which from 2/3 s on it always is |
| StandUp.RateBoundBreaks | apps/arachno-brain/src/main.rs:4434-4503 | where that position is further away, a command just after that moment and the one at the end break the bound |
| StandUp.ShortStandUpJumps | apps/arachno-brain/src/main.rs:4458-4461 | with one leg, half a second and a coxa that has 1000 ticks to go, the command one millisecond before the end is 156 ticks or more away, where the bound allows 16 |
| StandUp.SettleRateBound | apps/arachno-brain/src/main.rs:4515-4579 | lay-down, sit-down and settling start at the base, end at the target and obey the same rate bound |
| Gait.ComputeWalkPose | apps/arachno-brain/src/main.rs:4359-4432 | the loop over the legs builds the walking pose |
| Gait.WalkPoseAt | apps/arachno-brain/src/main.rs:4359-4432 | with distinct ids each servo gets its own leg target in ticks |
| Gait.WalkingLegAt | apps/arachno-brain/src/main.rs:4359-4432 | every joint of every leg is commanded at its captured tick and its offset within the range, to within one tick: coxa swing times the eased curve times sense and amplitude, femur and tibia lift times the lift arc while swinging forward, at 4096 / 360 ticks a degree in the sense of the servo |
| Gait.SwingingFootLeavesGround | apps/arachno-brain/src/main.rs:4359-4432 | a quarter into its own cycle a leg with a lift worth more than a tick has its femur off the captured tick, in its own sense |
| Gait.TripodCommandAt | apps/arachno-brain/src/main.rs:4581-4631 | in time: the captured pose for at least 0.25 s, then every leg at the phase of its cycle, of at least 0.5 s, and the amplitude of the blend, from the limit on the captured pose |
| Gait.SupportHasNoLift | apps/arachno-brain/src/main.rs:4118-4130 | a leg of the tripod whose turn it is to stand has no lift at that phase |
| Gait.SupportStaysPlanted | apps/arachno-brain/src/main.rs:4359-4432 | at every phase and amplitude every supporting leg keeps femur and tibia at the captured ticks, to within one |
| Gait.AlwaysOneTripodPlanted | apps/arachno-brain/src/main.rs:4581-4631 | at every time, for every lift, profile and amplitude, the commanded pose keeps all legs of one tripod at their captured femur and tibia ticks, to within one |
| Gait.SmoothStart | apps/arachno-brain/src/main.rs:4581-4631 | with a startup blend the first walking command is the captured pose to within one tick a servo |
| Gait.HeldOutsideTheWalk | apps/arachno-brain/src/main.rs:4594-4609 | before the settle time and after the walk limit the captured pose itself is commanded |
| Gait.CoxaWithinSwing | apps/arachno-brain/src/main.rs:4118-4130 | the coxa offset stays within the swing, whatever its sign |
| Gait.CoxaSpread | apps/arachno-brain/src/main.rs:4118-4130 | around the cycle, through the half and the wrap, the coxa moves at most six swings per cycle |
| Gait.CoxaFollowsTime | apps/arachno-brain/src/main.rs:4610-4630 | at any two times of the walk the coxa offsets of a leg differ by at most six swings per cycle that passes |
| Gait.WalkRateBound | apps/arachno-brain/src/main.rs:4581-4631 | the coxa commands of a leg at any two times of the walk differ by at most what its swing allows for the cycles and the part of the startup blend between them, plus one tick |
| Gait.HaltJumps | apps/arachno-brain/src/main.rs:4594-4631 | when the walk limit is reached the command of a coxa goes at once, from the captured tick plus its offset of that moment held within the range of the servo, to within one tick, to the captured tick |
| Gait.OffsetVanishesIff | apps/arachno-brain/src/main.rs:4118-4130 | at a limit a coxa is at its captured angle exactly when its leg stands still, has no swing, or the limit falls a quarter or three quarters into a cycle |
| Gait.HaltKeepsRate | apps/arachno-brain/src/main.rs:4594-4631 | where the offset vanishes at the limit the rate bound of the walking commands holds across the halt |
| Gait.HaltBreaksRate | apps/arachno-brain/src/main.rs:4594-4631 | where the offset at the limit takes a coxa more than two ticks away, it does not |
| Gait.HaltKeepsRateIff | apps/arachno-brain/src/main.rs:4581-4631 | the coxa commands keep the rate bound across the halt, for every profile and captured pose, exactly when the leg stands still or the limit falls a quarter or three quarters into a cycle |
| Gait.MidSwingIsMidLift | apps/arachno-brain/src/main.rs:4118-4130 | at such a limit the legs of one tripod are in the middle of their lift |
| Gait.HaltMidCycle | apps/arachno-brain/src/main.rs:4594-4631 | with a cycle of 1 s and a limit of 0.95 s a coxa with a swing of ten degrees is sent 89 ticks or more in the last tenth of a millisecond |
| Gait.TicksRoundTheCurve | crates/arachno-core/src/lib.rs:1530-1546 | the core cycle in ticks is the rounded curve of the same swing and stays within the stride, whatever its sign |
| Gait.SlowWalkSupport | crates/arachno-core/src/lib.rs:1328-1377 | supporting legs of the core slow walk keep their stand ticks exactly |
| Gait.SlowWalkLifts | crates/arachno-core/src/lib.rs:1328-1377 | a joint of the slow walk stands at its stand tick plus its lift ticks times the lift ratio, in its sense and within the range, to half a tick |
| SimBus.SimServoBus.AdvanceServo | crates/arachno-sim-hal/src/lib.rs:81-96 | one step of a servo updates position and motion flag as specified and returns the step |
| SimBus.SimServoBus.SyncWritePositions | crates/arachno-sim-hal/src/lib.rs:109-126 | commands set target and speed and step the servo, in order, up to the first unknown id |
| SimBus.SimServoBus.ReadFeedback | crates/arachno-sim-hal/src/lib.rs:128-154 | a read steps the servo and reports it, or fails for an unknown id |
| SimBus.StepTowards | crates/arachno-sim-hal/src/lib.rs:81-96 | within range a step goes towards the target by the limit or arrives, never overshoots, and motion is reported exactly while not arrived |
| SimBus.StepLimitIs | crates/arachno-sim-hal/src/lib.rs:81-96 | the longest step is the commanded speed, at least one tick and at most the limit of the bus |
| SimBus.CurrentIs | crates/arachno-sim-hal/src/lib.rs:147-149 | a servo draws 120 mA, and with torque 90 more a tick of its step |
| SimBus.CurrentFits | crates/arachno-sim-hal/src/lib.rs:147-149 | the current of a step fits 16 bits exactly when torque is off or the step is at most 726 |
| SimBus.CurrentNeverOverflowsIff | crates/arachno-sim-hal/src/lib.rs:147-149 | no reading of any servo within range overflows exactly when the step limit is at most 726 |
| SimRuns.PoseToCommands | crates/arachno-core/src/lib.rs:1507-1516 | a pose becomes one command per servo, ascending by id |
| SimRuns.SpiderController.PollServos | crates/arachno-control/src/lib.rs:85-91 | servos are read in order up to the first failure |
| SimRuns.SpiderController.InitializeServos | crates/arachno-control/src/lib.rs:43-50 | initializing reads the pose, writes it back with speed 0 and enables torque |
| SimRuns.SpiderController.StepStandReferencePose | crates/arachno-control/src/lib.rs:52-57 | a step writes the stand pose and polls every servo |
| SimRuns.ReadAllSteps | crates/arachno-control/src/lib.rs:85-91 | reading all servos once steps each exactly once and reports where it then is |
| SimRuns.PoseIsWritten | crates/arachno-sim-hal/src/lib.rs:109-126 | writing a pose commands exactly its servos, once each |
| SimRuns.StandIsWritten | crates/arachno-control/src/lib.rs:43-57 | a step writes one command for every servo of the stand pose, ascending, at speed 200 and acceleration 10; initializing writes the read pose at speed and acceleration 0 |
| SimRuns.InitializeHolds | crates/arachno-hal/src/lib.rs:114-150 | initializing succeeds and leaves every servo at rest where its reading left it, torque on |
| SimRuns.UnknownServoStops | crates/arachno-hal/src/lib.rs:114-150 | a servo the bus does not know stops the initializing with an error, torque left as it was |
| SimRuns.StepApproaches | crates/arachno-control/src/lib.rs:52-57 | a call moves every servo two step lengths towards the stand pose or all the way |
| SimRuns.Converges | crates/arachno-control/src/lib.rs:43-57 | after initializing and k calls the distance is exactly the initial one less 2 k step lengths, not below zero, without overshoot, moving iff not arrived |
| SimRuns.Arrives | crates/arachno-control/src/lib.rs:52-57 | after 2048 calls every servo stands, whatever the step limit |
| Settle.WaitForServosToSettle | crates/arachno-hal/src/lib.rs:49-103 | the reads made are exactly those of n polls, each reading every servo not yet settled; Ok comes at the first poll after which all have settled, with one last telemetry per id; a timeout reports the time of the first poll past it and exactly the unsettled ids in order; a failed read ends the wait; a list with a duplicate never gives Ok |
| Settle.WaitEndsOnce | crates/arachno-hal/src/lib.rs:49-103 | for given answers and clock the number of polls and the result of the wait are unique |
| Settle.StopRunMeans | crates/arachno-hal/src/lib.rs:67-82 | a run of n says the servo was read n times and stopped each of the last n |
| Settle.StoppedIff | crates/arachno-hal/src/lib.rs:38-41 | stopped is not reported as moving, or no faster than the limit either way |
| Settle.RunsStopInTime | crates/arachno-hal/src/lib.rs:67-82 | reading of a servo stops as soon as its run is as long as needed |
| Settle.PollReads | crates/arachno-hal/src/lib.rs:60-93 | a poll reads only servos of the list not settled by their turn, each with the next answer of the bus, and a read that fails is its last |
| Settle.PollReadsAll | crates/arachno-hal/src/lib.rs:60-93 | a poll without a failed read leaves out no servo of the list that had not settled |
| Settle.NobodyLingersIff | crates/arachno-hal/src/lib.rs:95-101 | a timeout names nobody exactly when the list has a duplicate and every servo on it had settled |
| Settle.DuplicateNamesNobody | crates/arachno-hal/src/lib.rs:84-101 | servo 1 listed twice and at rest from the start: the wait times out at its second poll and names nobody |
| Settle.WatchOnce | apps/arachno-calibrate/src/main.rs:1206-1235 | one poll watches every probe once, in ascending order, and collects the finished ones |
| Settle.WaitForGroupStop | apps/arachno-calibrate/src/main.rs:1192-1265 | Ok comes at the first poll at which every probe has finished; the failure comes at the first poll past the timeout, listing the unfinished, never nobody; missing feedback fails at once |
| Settle.StartedMeans | apps/arachno-calibrate/src/main.rs:1675-1687 | a probe has started once some poll so far showed motion |
| Settle.StartedIff | apps/arachno-calibrate/src/main.rs:1675-1687 | motion is reported motion, more than the stop speed either way, or 24 ticks from the start |
| Settle.GroupStopsTogether | apps/arachno-calibrate/src/main.rs:1206-1244 | all probes are finished exactly when the same last c polls found every servo stopped, each having been seen to move by the first of them |
| StsPacket.CalculateChecksum | crates/arachno-feetech-sts/src/lib.rs:822-828 | the loop computes the complement of the low byte of the sum |
| StsPacket.ParsePacked | crates/arachno-feetech-sts/src/lib.rs:830-902 | parsing a packed packet gives back id, instruction and parameters exactly up to 253 parameter bytes, and a length mismatch beyond |
| StsPacket.AcceptedIsPacked | crates/arachno-feetech-sts/src/lib.rs:856-902 | every accepted packet is a packed one |
| StsPacket.AcceptedIff | crates/arachno-feetech-sts/src/lib.rs:856-902 | a packet is accepted exactly when framed right and its bytes after the header sum to 255 modulo 256 |
| StsPacket.SingleByteDetected | crates/arachno-feetech-sts/src/lib.rs:856-902 | changing any single byte of an accepted packet is rejected |
| StsPacket.OppositeChangesUndetected | crates/arachno-feetech-sts/src/lib.rs:822-828 | two changed bytes after the length pass exactly when their changes cancel modulo 256 |
| StsPacket.StsBus.SyncWritePositions | crates/arachno-feetech-sts/src/lib.rs:669-724 | an unknown id refuses the whole write before anything is sent, no commands send nothing, otherwise one packet of all commands is written, of which a failing port may have taken a part |
| StsPacket.SyncWriteOnTheWire | crates/arachno-feetech-sts/src/lib.rs:689-705 | every byte of a sync write: 255 255 254, the length, 0x83, 42, 2, then id and position of each command, low byte first, and a sum of 255 modulo 256 |
| StsPacket.SyncWriteFaithfulIff | crates/arachno-feetech-sts/src/lib.rs:689-695 | a sync write parses by the rules of the host, to the ids and positions it was made of, exactly up to 83 commands |
| Eeprom.RegistersDisjoint | crates/arachno-feetech-sts/src/registers.rs:41-111 | known registers that share a byte are the same register |
| Eeprom.GateAddresses | crates/arachno-feetech-sts/src/registers.rs:41-111 | the addresses and widths the two gates let through, in numbers |
| Eeprom.RuntimeGateSparesEeprom | crates/arachno-feetech-sts/src/lib.rs:912-934 | what the run-time gate lets through contains no EEPROM byte |
| Eeprom.PersistentGate | crates/arachno-feetech-sts/src/lib.rs:936-954 | the persistent gate opens exactly for read-write EEPROM registers, and never together with the run-time gate |
| Eeprom.RuntimeRunSparesEeprom | crates/arachno-feetech-sts/src/lib.rs:208-216 | no sequence of run-time writes, whatever the servos make of them, changes an EEPROM byte |
| Eeprom.StsBus.WriteRuntime | crates/arachno-feetech-sts/src/lib.rs:208-216 | a run-time write is refused unsent by the gate, or touches only its own bytes of its own servo |
| Eeprom.StsBus.SetEepromWriteLock | crates/arachno-feetech-sts/src/lib.rs:283-295 | the lock counts as set only once read back; the attempt touches only the lock byte |
| Eeprom.WriteAndVerify | apps/arachno-calibrate/src/main.rs:388-416 | success means the entry is permitted and the registers of the servo read its value, the low byte first; a value that does not fit or a closed gate writes nothing |
| Eeprom.HeldIsRead | crates/arachno-feetech-sts/src/lib.rs:230-280 | the bytes held for an entry read as its value, the low byte first |
| Eeprom.WritableIff | apps/arachno-calibrate/src/main.rs:388-416 | a profile may hold a byte at address 8 and a word at address 16 |
| Eeprom.SetAllLocks | apps/arachno-calibrate/src/main.rs:283-286 | locks are moved in order up to the first failure; every servo tried shows the lock state except the one that failed, and servos not come to are untouched |
| Eeprom.ApplyEntries | apps/arachno-calibrate/src/main.rs:289-312 | success means every servo reads the value of every entry not written over by a later one; only entry bytes change |
| Eeprom.ApplyEeprom | apps/arachno-calibrate/src/main.rs:253-342 | Ok leaves every servo with the profile and the lock set; after a failed unlock the servos tried before it are unlocked and the later ones untouched; after a failed entry all are locked again; after a failed relock the ones before it are locked and the later ones still unlocked; lock attempts are made in order; in every case only entry bytes and the lock byte change |
| Eeprom.AllHeldIffConsistent | apps/arachno-calibrate/src/main.rs:289-312 | after success a servo holds every entry exactly when no two entries claim different values for the same bytes |

## Left out

- The dashboard, the HTTP handlers, camera pipelines, tracing, and loading or saving of
  configuration and calibration: user interface, processes and serialisation.
- The utility (arm) bus inside the control tick: it commands its own servos and touches neither the
  leg motion nor its faults; `tilted_stand_pose` and the manual target pose: the tick takes the
  mode's pose as an arbitrary function of its base pose and the time since arming, so the run
  theorems cover them.
- `derive_leg_lift_deltas`, `derive_tripod_profile`, IMU roll and pitch estimation: transcendental;
  a leg's gait profile is a parameter.
- Rounding of `f32` itself, and the trigonometric functions beyond the unit vectors they produce;
  the lift arc of the gait is any function that vanishes at its start.
- `servo_calibration_reference_error_ticks`, `check_poses`, `suggest_poses`, range and workspace
  scans, the trajectory log: single loops that would add easy members.
- `set_verified_torque_limit_on_current_position_for_ids`: its outcome is the tick's
  `torqueRestores`.
- Retries inside `read_feedback_map`: a poll of the group stop either has the feedback or failed.
- The write confirmation mode: a write of `Eeprom.StsBus` may succeed or fail regardless of its
  effect, which covers both modes.
- Camera and IMU of the simulated controller: they do not touch the servos. The voltage, load,
  temperature and status fields of its feedback, and the speed limit's derivation from degrees per
  second.
- Release builds wrap the overflow of the simulated current (`SimBus.CurrentFits` says when there is
  none); debug builds stop instead.
- Gait.CycleShapeTicks: takes strides of fewer than 16384 ticks, because the source doubles the
  stride in `i16`.
- Eeprom.ApplyEeprom: opening the bus, which comes after the check for an empty profile, is taken
  to succeed.
