# Quadruped actuation firmware: verified model

The firmware drives eight motor drivers behind an I2C multiplexer and sixteen encoders behind a latched SPI
chip-select decoder, programs and reads an L9961 battery monitor, and takes commands over a serial line. This
project models those four parts and proves what holds over all their runs. Pins, buses and chips are small device
models; the firmware's own state sits in classes whose methods are proved against pure functions, and the lemmas
are about those functions.

| files | content |
|---|---|
| `Bits.dfy`, `Options.dfy`, `CText.dfy` | C's bitwise operators bit by bit on naturals and when they are arithmetic; `strtol` and `sscanf` conversions |
| `I2cMux.dfy`, `MotorDriver.dfy`, `Routing.dfy` | the cached multiplexer, the motor calls, and whole runs over the shared bus |
| `Misrouting.dfy` | motor calls addressed to the multiplexer itself: exactly when they break routing, and a run that shows it |
| `DriverEffects.dfy`, `LineEffects.dfy` | what the chips make of their registers, and serial lines to register bytes and motor duty, in numbers |
| `SpiMux.dfy`, `Encoders.dfy` | chip selects pin write by pin write, and encoder positions against offsets |
| `SerialLines.dfy`, `Commands.dfy`, `Console.dfy` | byte stream to lines, lines to commands, the main loop, and the results from bytes to driver registers |
| `BmsRegisters.dfy`, `BmsCommands.dfy`, `Bms.dfy`, `Coulombs.dfy`, `Validity.dfy` | register words, the command set and its conversion guard, reads, the charge accumulator, the validity window |
| `BmsEffects.dfy`, `BmsSetup.dfy` | what each command leaves in the device, name by name, and the setup sequence |
| `Quantiser.dfy`, `Thresholds.dfy`, `ThresholdLaws.dfy`, `ThresholdWords.dfy` | threshold arguments to codes, what the codes mean, and the words of the keyword arguments |

Device assumptions, all explicit in the models:

- Bus writes succeed. The multiplexer keeps the last byte of a transmission to 0x70; a write to any other address
  reaches every enabled channel. Motor drivers sit only behind the multiplexer, and NRESET is not pulsed after setup.
- The chip-select latch follows its address pins while STROBE is high and holds while it is low; INHIBIT high turns
  all outputs off.
- The conversion guard rests on a flag kept in the controller, which starts at 0: the results assume that the flag is not
  clear while the device converts. The code does not establish this before its first configuration writes, so after a
  controller restart alone it need not hold; `BmsCommands.GuardExactly` says exactly what depends on it.
- A battery monitor register holds what was last written. The coulomb registers present fresh counters after the
  reset write; which ones is a parameter of the read.
- A driver's duty follows from its registers: the top two bits of 0x07 select always, never, PWM0 (0x03) or PWM1
  (0x05), and a PWM register holds the off share. Initialisation does not write 0x05, so level 2 before any speed is
  set drives at whatever 0x05 held; the duty results say nothing there.
- What encoders, limit switches and current sensors answer is a parameter of the call.
- `float` values are reals, so binary floating-point rounding is not modelled; integer widths, truncations and
  wrap-around are. `long` and `int` have 32 bits. The sense resistor is positive.
- `atof` is a parameter: the results hold for every conversion of text to real.

Where the code and its comments disagree, the model follows the code:

- `sendBMSNumericalCommand` computes a register and a word but its bus write follows a `return`, so no threshold
  register is ever programmed, although `SetUpBMS` calls it for that. The model returns the pair and treats the
  command as having no effect on the device.
- The conversion word's cycle field is bits 11 to 7, not 12 to 7; the top short-circuit voltage is 0.25974 V, not
  0.26074 V; the raw current estimate ranges over 0 to 31, not 0 to 15.
- Running totals: batches below 0.005 C are lost however often they repeat, which the two-decimal rounding comment
  does not say.
- Activating an encoder channel above 15 prints an error and then selects the previous channel.

## Model

| member | source | states |
|---|---|---|
| I2cMux.Mux.SelectChannel | Quadruped_Bot_Actuation_Code/src/I2C_MUX.cpp:25-52 | An out-of-range or already cached channel sends nothing; any other sends its one-hot control byte and is cached. |
| I2cMux.Mux.DisableAllChannels | Quadruped_Bot_Actuation_Code/src/I2C_MUX.cpp:55-63 | Sends the all-off control byte unconditionally and clears the cache. |
| I2cMux.EnabledIsCached | Quadruped_Bot_Actuation_Code/src/I2C_MUX.cpp:40-47 | While cache and control byte agree, the one enabled channel is the cached one, or none. |
| Routing.RoutingRefinement | Quadruped_Bot_Actuation_Code/src/I2C_MUX.cpp:25-63 | After a disable, every run of motor calls with any byte channels leaves each (channel, address) register file exactly as its own frames alone would leave it; a call belongs to the most recent in-range channel requested since the last disable, to none if there is none; cache and multiplexer stay in agreement. |
| Routing.DisableAgrees | Quadruped_Bot_Actuation_Code/src/I2C_MUX.cpp:55-63 | A disable establishes the premise of the refinement from any cache, any control byte and any register contents, which it leaves alone. |
| Misrouting.MuxCallAgreesExactly | Quadruped_Bot_Actuation_Code/src/MotorDriver_LP3943.cpp:31-146 | A call addressed to 0x70 reaches no driver, and keeps cache and multiplexer in agreement if and only if it is harmless: the last byte it sends is the control byte of the channel then cached (0 if none). Call and cache decide it, before the call is made. |
| Misrouting.NeverHarmless | Quadruped_Bot_Actuation_Code/src/MotorDriver_LP3943.cpp:31-121 | Initialising, stopping, driving at variable speed or enabling at address 0x70 is never harmless, whatever is cached. |
| Misrouting.AgreementIsRouting | Quadruped_Bot_Actuation_Code/src/MotorDriver_LP3943.cpp:31-146 | From any cache and control byte, every single call to a driver reaches exactly its own driver if and only if the two agree: from any disagreement some one call is misrouted. |
| Misrouting.HarmlessRefinement | Quadruped_Bot_Actuation_Code/src/I2C_MUX.cpp:25-63 | The routing refinement with calls to 0x70 in the run: as long as each is harmless, every driver still ends with exactly what its own frames alone leave there, and cache and multiplexer agree. |
| Misrouting.RoutingExactly | Quadruped_Bot_Actuation_Code/src/MotorDriver_LP3943.cpp:31-146 | The exact condition over runs: after a disable, all drivers are routed at every point of the run, whatever calls to drivers follow from there, if and only if every call of the run addressed to 0x70 is harmless. |
| Misrouting.MuxCallLeaks | Quadruped_Bot_Actuation_Code/src/MotorDriver_LP3943.cpp:59-121 | The refinement fails: after a disable and any calls to drivers, from any state, drive 0x60 on channel 2, then stop 0x70 and 0x60 on channel 0. The driver on channel 2 holds the stop byte where its own frames leave the forward byte. |
| Console.CommandsArrive | Quadruped_Bot_Actuation_Code/src/main.cpp:182-285 | Any sequence of printed commands that fit the buffer, each with its terminator, makes exactly its own calls in order and leaves nothing pending. |
| Console.MuxLinesLeak | Quadruped_Bot_Actuation_Code/src/main.cpp:126-214 | After setup from any state, the serial lines "move 2 96 100 1", "stop 0 112" and "stop 0 96" make the refinement fail: the driver at 0x60 on channel 2 holds the stop byte, not what its own frames leave. |
| Console.SetupRoutingExactly | Quadruped_Bot_Actuation_Code/src/main.cpp:126-285 | From setup on, in any state: every driver changes by exactly its own frames, after each prefix of the commands and any further calls to drivers, if and only if every command addressed to 0x70 is harmless. |
| Routing.ElisionInvisible | Quadruped_Bot_Actuation_Code/src/I2C_MUX.cpp:32-38 | A run that skips redundant selections leaves the multiplexer and all drivers as a run that always writes the control byte. |
| Routing.SelectWritesAreChanges | Quadruped_Bot_Actuation_Code/src/I2C_MUX.cpp:25-52 | Over any sequence of calls the multiplexer is written exactly once per change in the in-range requests. |
| MotorDriver.Motors.Stepped | Quadruped_Bot_Actuation_Code/src/MotorDriver_LP3943.cpp:31-121 | Whatever frames a call sent, the devices and the cache took the step of that call. |
| MotorDriver.Motors.MotorDriverInit | Quadruped_Bot_Actuation_Code/src/MotorDriver_LP3943.cpp:31-43 | Selects, then sends the four initial register values in order. |
| MotorDriver.Motors.MotorDriverRegControl | Quadruped_Bot_Actuation_Code/src/MotorDriver_LP3943.cpp:46-57 | Selects, then 0x15 and 0x05 to register 0x08 to enable, 0x00 to disable. |
| MotorDriver.Motors.VariableMotionControl | Quadruped_Bot_Actuation_Code/src/MotorDriver_LP3943.cpp:59-72 | Selects, then the inverted speed to PWM1 before the direction byte. |
| MotorDriver.Motors.SetMotionControl | Quadruped_Bot_Actuation_Code/src/MotorDriver_LP3943.cpp:74-81 | Selects, then both inverted speeds to PWM0 and PWM1. |
| MotorDriver.Motors.DefaultMotionControl | Quadruped_Bot_Actuation_Code/src/MotorDriver_LP3943.cpp:84-111 | Selects, then one byte whose speed and direction fields are joined without overlap. |
| MotorDriver.Motors.MotorDriverStop | Quadruped_Bot_Actuation_Code/src/MotorDriver_LP3943.cpp:114-121 | Selects, then the stop byte. |
| MotorDriver.Motors.ReadLimitTriggers | Quadruped_Bot_Actuation_Code/src/MotorDriver_LP3943.cpp:125-133 | Selects the channel like a write, changes no driver register, returns the low four bits. |
| MotorDriver.Motors.ReadCurrentEstimate | Quadruped_Bot_Actuation_Code/src/MotorDriver_LP3943.cpp:136-146 | Selects the channel, changes no driver register; the upper five bits of the answer as a fraction of 31, scaled to 6.1467 A. |
| Routing.DriveValues | Quadruped_Bot_Actuation_Code/src/MotorDriver_LP3943.cpp:84-119 | The eight speed and direction combinations are exactly eight bytes, none of them the stop byte. |
| Routing.LevelTwoIsVariable | Quadruped_Bot_Actuation_Code/src/MotorDriver_LP3943.cpp:66-70 | Level 2 of the default control and variable control give the same byte for each direction, and the directions differ. |
| Routing.DriveInvariant | Quadruped_Bot_Actuation_Code/src/MotorDriver_LP3943.cpp:31-121 | After any run in which an initialisation reached a driver, whatever it held before, register 0x07 is the stop byte or one of the eight drive bytes; its outer direction fields agree and the middle one differs from them exactly when it is not the stop byte. |
| DriverEffects.CallWrites | Quadruped_Bot_Actuation_Code/src/MotorDriver_LP3943.cpp:31-146 | The register values each call leaves in the driver it reaches, in numbers, and no other register. |
| DriverEffects.DutyAfterLevel | Quadruped_Bot_Actuation_Code/src/MotorDriver_LP3943.cpp:74-111 | Speeds set and then a level, whatever the driver held: the chip, which takes the duty from the top two bits of register 0x07, drives at 255 for level 3, at the second speed for 2, at the first for 1 and not at all otherwise; the direction bits are 0x04 forward and 0x11 reverse. |
| DriverEffects.DutyAfterCall | Quadruped_Bot_Actuation_Code/src/MotorDriver_LP3943.cpp:31-121 | Variable motion drives at the speed given; a stop or an initialisation does not drive. |
| DriverEffects.DutyHistory | Quadruped_Bot_Actuation_Code/src/MotorDriver_LP3943.cpp:31-121 | Over every run from a disable, from any state, each motor has the duty and direction its own calls last asked for: a speed holds until it is set again, by whichever call, and no other driver enters. |
| LineEffects.SetSpeedsLine | Quadruped_Bot_Actuation_Code/src/main.cpp:229-231 | The line "setspeeds c a x y", for any int arguments that fit: register 0x03 of the driver gets 255 - x and 0x05 gets 255 - y, modulo 256; nothing else changes on the bus; a channel above 7 reaches the one already selected. |
| LineEffects.MoveLine | Quadruped_Bot_Actuation_Code/src/main.cpp:196-206 | The line "move c a x d": 0x05 gets 255 - x, 0x07 gets 0xC4 exactly for nonzero d and 0xD1 otherwise; nothing else changes. |
| LineEffects.DefaultMoveLine | Quadruped_Bot_Actuation_Code/src/main.cpp:216-227 | The line "defaultmove c a l d": 0x07 gets one of eight bytes by level and direction; nothing else changes. |
| LineEffects.StopLine | Quadruped_Bot_Actuation_Code/src/main.cpp:208-214 | The line "stop c a": 0x07 gets 0x55; nothing else changes. |
| LineEffects.TestLines | Quadruped_Bot_Actuation_Code/src/main.cpp:242-277 | The lines "a" and "b" leave 0x00 and 0x05 in register 0x08 of the driver at 0x60 on channel 7; "c" and "d" select that channel and change no driver. |
| LineEffects.ReadLines | Quadruped_Bot_Actuation_Code/src/main.cpp:262-274 | The lines "c" and "d" end by addressing registers 0x01 and 0x00 of that driver. |
| LineEffects.TailIgnored | Quadruped_Bot_Actuation_Code/src/main.cpp:196-230 | White space before a command with arguments, and text after its last argument, change nothing. |
| LineEffects.UnknownLine | Quadruped_Bot_Actuation_Code/src/main.cpp:196-277 | A line whose first word is no command and that is not one of the four letters leaves bus and cache as they were. |
| LineEffects.ShortLine | Quadruped_Bot_Actuation_Code/src/main.cpp:196-230 | A command with too few arguments leaves bus and cache as they were. |
| LineEffects.SpeedsThenLevel | Quadruped_Bot_Actuation_Code/src/main.cpp:216-231 | The two lines "setspeeds" and "defaultmove", from any state in which cache and multiplexer agree: the motor is driven fully, at the second speed, at the first or not at all, in the direction given. |
| LineEffects.SetupLeaves | Quadruped_Bot_Actuation_Code/src/main.cpp:126-142 | From any state setup leaves 0x00, 0x80, 0x00, 0x55 in registers 0x02, 0x03, 0x04, 0x07 of the drivers at 0x60 on channels 0 to 7, touches nothing else, and ends with channel 7 selected. |
| LineEffects.SetupThenDuty | Quadruped_Bot_Actuation_Code/src/main.cpp:126-285 | After setup and any text not addressed to the multiplexer, from any state, every motor has the duty and direction its own commands last asked for. |
| SpiMux.OneHotOutputs | Quadruped_Bot_Actuation_Code/src/SPI_MUX.cpp:41-62 | Sixteen independent output gates over the latched bits never overlap: exactly the decoded output is on, or none under INHIBIT. |
| SpiMux.Spi.SelectChannel | Quadruped_Bot_Actuation_Code/src/SPI_MUX.cpp:23-39 | The four address pins in order carry the channel bits; an out-of-range channel touches no pin and is not remembered. |
| SpiMux.Spi.Activate | Quadruped_Bot_Actuation_Code/src/SPI_MUX.cpp:41-55 | Address pins, then STROBE high and low, then INHIBIT low, in that order. |
| SpiMux.Spi.Deactivate | Quadruped_Bot_Actuation_Code/src/SPI_MUX.cpp:57-62 | INHIBIT high, which ends the selection. |
| SpiMux.TransactionSafe | Quadruped_Bot_Actuation_Code/src/SPI_MUX.cpp:23-62 | One transaction runs from idle to idle and is safe after every single pin write and transfer. |
| SpiMux.RejectedChannelSelectsStale | Quadruped_Bot_Actuation_Code/src/SPI_MUX.cpp:28-31 | Activating an out-of-range channel selects the channel the address pins last carried. |
| Encoders.ChipSelectExclusion | Quadruped_Bot_Actuation_Code/src/SPI_NCDR_FCT.cpp:20-148 | For every run of operations on channels 0 to 15: nothing is selected between operations; after every pin write at most one output is on and only the operation's own channel; none while the latch is open; exactly the requested one at each transfer. |
| Encoders.Middle12Bits | Quadruped_Bot_Actuation_Code/src/SPI_NCDR_FCT.cpp:44 | The shift and mask extract the twelve position bits of the two bytes. |
| Encoders.OffsetWraps | Quadruped_Bot_Actuation_Code/src/SPI_NCDR_FCT.cpp:46-51 | Both branches of the offset correction, with 16-bit truncation, are subtraction modulo 4096: the arithmetic never wraps. |
| Encoders.EncoderHistory | Quadruped_Bot_Actuation_Code/src/SPI_NCDR_FCT.cpp:18-148 | Over every run a channel reads its raw position less the position its own last reset captured (0 if none), modulo one turn, as degrees * 4096 == 360 * difference, in [0,360); all offsets stay below 4096 and resets of other channels do not enter. |
| Encoders.ReadSinceReset | Quadruped_Bot_Actuation_Code/src/SPI_NCDR_FCT.cpp:20-148 | After a reset and any operations that do not reset the channel again: degrees times 4096 is 360 times the difference modulo 4096 of the twelve-bit positions in the bytes answered now and at the reset. |
| Encoders.ReadUnreset | Quadruped_Bot_Actuation_Code/src/SPI_NCDR_FCT.cpp:18-54 | A channel never reset reads 360/4096 degrees times its raw twelve-bit position. |
| Encoders.OpHeard | Quadruped_Bot_Actuation_Code/src/SPI_NCDR_FCT.cpp:20-148 | The bytes sent while an encoder is selected: 0x00 0x00 for a position, 0x00 0xA0 0x00 0x00 for turns, 0x00 0x60 and then 0x00 0x00 for a reset; the other encoders hear nothing. |
| Encoders.RunHeard | Quadruped_Bot_Actuation_Code/src/SPI_NCDR_FCT.cpp:20-148 | Over every run each encoder hears exactly the bytes of its own operations, in order. |
| SpiMux.TransactionHeard | Quadruped_Bot_Actuation_Code/src/SPI_MUX.cpp:23-62 | In one transaction the addressed encoder hears the bytes sent and no other hears anything. |
| Encoders.Bank.ReadEncoderPosition | Quadruped_Bot_Actuation_Code/src/SPI_NCDR_FCT.cpp:20-54 | The bytes come from the encoder selected at the moment of transfer; degrees times 4096 is 360 times the raw position less the offset, modulo 4096; offsets unchanged; idle again. |
| Encoders.Bank.ReadTurns | Quadruped_Bot_Actuation_Code/src/SPI_NCDR_FCT.cpp:56-83 | Twelve bits of the third and fourth answer bytes of the channel; offsets unchanged; idle again. |
| Encoders.Bank.ResetEncoder | Quadruped_Bot_Actuation_Code/src/SPI_NCDR_FCT.cpp:91-148 | Two transactions; the channel's offset becomes its raw position after the reboot and no other offset changes. |
| Encoders.Bank.Session | Quadruped_Bot_Actuation_Code/src/SPI_NCDR_FCT.cpp:18-148 | Any sequence of operations on the class from zeroed offsets: chip selects stay exclusive after every pin write and transfer, and each position read is the raw position less what its channel's last reset captured, modulo one turn. |
| SerialLines.CutIsSplit | Quadruped_Bot_Actuation_Code/src/main.cpp:182-285 | The reference cut loses nothing: pieces and terminators give the stream back, and no piece contains a terminator. |
| SerialLines.OneMore | Quadruped_Bot_Actuation_Code/src/main.cpp:185-283 | What one more byte does to the finished lines and to the unfinished one, the 31-character limit included. |
| SerialLines.ChunkingInvisible | Quadruped_Bot_Actuation_Code/src/main.cpp:182-285 | However the bytes are split across calls, the lines are the stream cut at each terminator and truncated to 31 characters. |
| Console.Console.Loop | Quadruped_Bot_Actuation_Code/src/main.cpp:182-285 | The in-place buffer dispatches exactly the finished truncated lines of what was pending and what came in, keeps the rest, never indexes outside its 32 characters, and the motors receive the calls of those lines in order. |
| Console.Console.FinishLine | Quadruped_Bot_Actuation_Code/src/main.cpp:186-280 | Terminates inside the array, dispatches the line as a C string and empties the buffer. |
| Console.Console.Dispatch | Quadruped_Bot_Actuation_Code/src/main.cpp:196-277 | Makes the one motor call the line asks for, which takes devices and cache through its step, and none for any other line. |
| Commands.CommandRoundTrip | Quadruped_Bot_Actuation_Code/src/main.cpp:196-277 | A printed command whose arguments fit an int is recognised as itself with its own arguments: the first-match order confuses no two forms. |
| Commands.CommandArrives | Quadruped_Bot_Actuation_Code/src/main.cpp:182-285 | Sent byte by byte, a printed command that fits the buffer makes exactly its own call, with arguments reduced modulo 256. |
| CText.CharacterClasses | Quadruped_Bot_Actuation_Code/src/main.cpp:196-230 | White space is the six white-space characters, digits are 0 to 9. |
| CText.ScanPlus | Quadruped_Bot_Actuation_Code/src/main.cpp:196-230 | An explicit plus sign changes nothing. |
| CText.ScanDecimal | Quadruped_Bot_Actuation_Code/src/main.cpp:196-230 | A printed int after one space is converted back, up to where its digits end. |
| Console.Console.PerformedIsRun | Quadruped_Bot_Actuation_Code/src/main.cpp:182-285 | Whatever frames the main loop sent for a sequence of events, the devices and the cache took the run of those events. |
| Console.Console.Session | Quadruped_Bot_Actuation_Code/src/main.cpp:182-285 | Any number of loop calls, one per chunk: the lines dispatched are those of the whole stream, and the devices take the run of their events. |
| Console.Console.Setup | Quadruped_Bot_Actuation_Code/src/main.cpp:126-142 | All channels off, then the eight default drivers initialised, in order. |
| Console.Console.Operate | Quadruped_Bot_Actuation_Code/src/main.cpp:126-285 | Setup and then any serial bytes in any chunks, on the classes: as long as commands addressed to the multiplexer are harmless, every driver changes by exactly its own frames; if there are none, every default driver holds a legal drive byte. |
| Console.SetupThenRouted | Quadruped_Bot_Actuation_Code/src/main.cpp:126-142 | After setup and any commands not addressed to the multiplexer, from any state of bus and cache, every driver changed by exactly its own frames. |
| Console.SetupKeepsDrivesLegal | Quadruped_Bot_Actuation_Code/src/main.cpp:126-142 | Under the same premise the drive register of each of the eight default drivers is set and legal. |
| BmsRegisters.StoreThenRead | Quadruped_Bot_Actuation_Code/src/Bms_CoreCommands.cpp:104-146 | A word written as two big-endian bytes reads back as itself and disturbs no other register. |
| Bms.Bms.ReadBMSData | Quadruped_Bot_Actuation_Code/src/Bms_CoreCommands.cpp:104-123 | The word the two bytes of the register join to; 0 if the device answers nothing. |
| Bms.Bms.WriteBMSData | Quadruped_Bot_Actuation_Code/src/Bms_CoreCommands.cpp:127-146 | The register holds the high and low byte of the word; nothing else changes. |
| BmsCommands.ConversionBits | Quadruped_Bot_Actuation_Code/src/Bms_CoreCommands.cpp:163-167 | The shifts and masks place the four settings side by side. |
| BmsCommands.ConversionUnpacks | Quadruped_Bot_Actuation_Code/src/Bms_CoreCommands.cpp:158-167 | Each field unpacks to its setting and the top four bits are clear. |
| Bms.Bms.SetBMSConversionState | Quadruped_Bot_Actuation_Code/src/Bms_CoreCommands.cpp:152-176 | OFF and ON write the conversion register and set the flag; any other text does nothing. |
| BmsCommands.ConversionGuard | Quadruped_Bot_Actuation_Code/src/BMS_SetupCommands.cpp:84-87 | From any state whose flag covers the conversion register (not clear while the device converts), over every run of every command, each config, identity, NVM and real-time write happens with the conversion register zero. |
| BmsCommands.GuardExactly | Quadruped_Bot_Actuation_Code/src/Bms_CoreCommands.cpp:75 | That start premise is exact: the guard protects every run if and only if the flag is not clear while the conversion register is nonzero. |
| BmsCommands.StaleConversion | Quadruped_Bot_Actuation_Code/src/BMS_SetupCommands.cpp:163-166 | With the flag clear and the device converting, as after a controller restart alone, one identity command writes with conversion on. |
| BmsCommands.ConversionEstablishes | Quadruped_Bot_Actuation_Code/src/Bms_CoreCommands.cpp:152-176 | Either conversion command establishes the premise from any flag and any device state. |
| BmsCommands.FlagAgreesExactly | Quadruped_Bot_Actuation_Code/src/Bms_CoreCommands.cpp:163-170 | Over all runs the flag is 1 exactly while the conversion register is nonzero, if and only if that is so at the start and some field of the conversion word is nonzero. |
| Bms.Bms.Session | Quadruped_Bot_Actuation_Code/src/BMS_SetupCommands.cpp:20-221 | Any sequence of commands on the class: registers, flag and log take the run, guarded writes happen with conversion off if the start premise holds, the charge total is the rounded total of the batches within n * 0.005 of their sum, the sample total is exact modulo 2^32. |
| Bms.Bms.SendBMSConfigCommand | Quadruped_Bot_Actuation_Code/src/BMS_SetupCommands.cpp:20-97 | Writes the planned word behind the guard and reports its sixteen binary digits; rejected commands change nothing. |
| Bms.Bms.RWBMSNVM | Quadruped_Bot_Actuation_Code/src/BMS_SetupCommands.cpp:100-126 | Writes the command word behind the guard; unknown commands change nothing. |
| Bms.Bms.SendBMSIdentityCommand | Quadruped_Bot_Actuation_Code/src/BMS_SetupCommands.cpp:130-172 | Writes nonzero data behind the guard; zero data and unknown names change nothing. |
| Bms.Bms.SendBMSRealTimeCommand | Quadruped_Bot_Actuation_Code/src/BMS_SetupCommands.cpp:175-221 | Writes the command word behind the guard; unknown commands change nothing. |
| BmsCommands.RegisterHistory | Quadruped_Bot_Actuation_Code/src/BMS_SetupCommands.cpp:20-221 | After any run every register outside conversion and coulomb counting holds the last word an accepted command meant for it; guard writes and rejected commands leave no trace. |
| BmsCommands.RegisterOwner | Quadruped_Bot_Actuation_Code/src/BMS_SetupCommands.cpp:26-207 | No two command families share a register, and within configuration and identity no two commands do. |
| BmsCommands.IdentityRoundTrip | Quadruped_Bot_Actuation_Code/src/BMS_SetupCommands.cpp:130-172 | Each identity register reads the last nonzero data its own command sent, whatever commands came between. |
| Bms.IdentityHalves | Quadruped_Bot_Actuation_Code/src/BMS_ReadCommands.cpp:137-165 | Both halves of a 32-bit identity value, sent in either order among any other commands, come back as msb * 65536 + lsb. |
| Bms.Bms.ReadManufacturerName | Quadruped_Bot_Actuation_Code/src/BMS_ReadCommands.cpp:137-141 | The two name registers joined. |
| Bms.Bms.ReadSerialNumber | Quadruped_Bot_Actuation_Code/src/BMS_ReadCommands.cpp:154-158 | The two serial registers joined. |
| Bms.Bms.ReadDeviceName | Quadruped_Bot_Actuation_Code/src/BMS_ReadCommands.cpp:161-165 | The two device name registers joined. |
| Bms.Bms.PrintBits | Quadruped_Bot_Actuation_Code/src/BMS_SetupCommands.cpp:94 | The loop prints the sixteen binary digits of the word, most significant first. |
| BmsCommands.BinaryConfigValue | Quadruped_Bot_Actuation_Code/src/BMS_SetupCommands.cpp:66-77 | For a binary string of any length the stored data is its value, saturated to 32 bits, reduced modulo 2^16 and capped. |
| BmsCommands.ShortBinaryConfig | Quadruped_Bot_Actuation_Code/src/BMS_SetupCommands.cpp:66-77 | Up to 31 digits the stored data is min(value mod 2^16, maximum). |
| BmsCommands.BinaryRoundTrip | Quadruped_Bot_Actuation_Code/src/BMS_SetupCommands.cpp:63-94 | The sixteen printed digits, prefixed with 0b and parsed again, restore every value within the register's maximum. |
| BmsEffects.ConfigEffects | Quadruped_Bot_Actuation_Code/src/BMS_SetupCommands.cpp:20-97 | For each of the eight configuration names its register, default and maximum: "default" leaves the default, a binary string of any length its value modulo 2^16, or the maximum if that is exceeded or the value exceeds 32 bits; conversion goes off if it was on and nothing else changes. |
| BmsEffects.IdentityEffects | Quadruped_Bot_Actuation_Code/src/BMS_SetupCommands.cpp:130-172 | Nonzero identity data ends in the register of its name and nothing else changes but the conversion register. |
| BmsEffects.RealTimeEffects | Quadruped_Bot_Actuation_Code/src/BMS_SetupCommands.cpp:100-221 | The register and word of each of the eight real-time and two NVM names, in numbers. |
| BmsEffects.ConfigIgnored | Quadruped_Bot_Actuation_Code/src/BMS_SetupCommands.cpp:57-82 | Unknown names, and values that are neither "default" nor start with 0b, change nothing. |
| BmsEffects.IdentityIgnored | Quadruped_Bot_Actuation_Code/src/BMS_SetupCommands.cpp:130-161 | Unknown names and zero data change nothing. |
| BmsEffects.RealTimeIgnored | Quadruped_Bot_Actuation_Code/src/BMS_SetupCommands.cpp:175-208 | Unknown real-time names change nothing. |
| BmsEffects.NvmIgnored | Quadruped_Bot_Actuation_Code/src/BMS_SetupCommands.cpp:100-114 | Unknown NVM names change nothing. |
| BmsSetup.SetUpBMS | Quadruped_Bot_Actuation_Code/src/SetUpBMS.cpp:24-135 | From any state the thirty calls leave the eight configuration defaults and eight identity words in their registers, conversion off if the flag was on, and nothing else changed; the fourteen threshold words are the ones listed (the last from 0.00025272 ohm upwards), and no threshold register receives them. |
| Coulombs.DecodeBits | Quadruped_Bot_Actuation_Code/src/BMS_ReadCommands.cpp:105-111 | Join, sign test and sign extension give the signed 24-bit value. |
| Coulombs.DecodeInverts | Quadruped_Bot_Actuation_Code/src/BMS_ReadCommands.cpp:105-119 | Decoding inverts two's complement for every value in [-2^23, 2^23) with any sample count beside it. |
| Bms.Bms.ReadCoulombCounter | Quadruped_Bot_Actuation_Code/src/BMS_ReadCommands.cpp:100-134 | After the reset write of 0xFFFF to 0x2D, charge times resistor times 32767 times 10^6 is 0.3 times the signed accumulator times the filter time; it is added to the total, which is rounded to hundredths; the count is added modulo 2^32. |
| Bms.ChargeProduct | Quadruped_Bot_Actuation_Code/src/BMS_ReadCommands.cpp:113-117 | Charge times resistor times 32767 times 10^6 is 0.3 times the signed reading times 528 * 2^(3 + filter). |
| Bms.ChargeLaws | Quadruped_Bot_Actuation_Code/src/BMS_ReadCommands.cpp:113-117 | Charge has the sign of the reading, adds up over readings and varies inversely with the resistor. |
| Coulombs.TotalDrift | Quadruped_Bot_Actuation_Code/src/BMS_ReadCommands.cpp:121-122 | After n reads the total is a multiple of 0.01 within n * 0.005 of the exact sum of the batches. |
| Coulombs.BatchLostExactly | Quadruped_Bot_Actuation_Code/src/BMS_ReadCommands.cpp:121-122 | A batch leaves the total unchanged if and only if it is below 0.005 in magnitude, or is exactly 0.005 towards zero. |
| Coulombs.RepeatedLoss | Quadruped_Bot_Actuation_Code/src/BMS_ReadCommands.cpp:19-122 | Any number of equal batches below 0.005 never shows in the total: the drift grows without bound. |
| Bms.ShippedReadingLost | Quadruped_Bot_Actuation_Code/src/BMS_ReadCommands.cpp:100-122 | With the shipped 8 milliohm resistor and current filter 3, a reading leaves the total unchanged if and only if the signed counter lies in -129..129. |
| Coulombs.SamplesWrap | Quadruped_Bot_Actuation_Code/src/BMS_ReadCommands.cpp:20-123 | The sample total is the exact sum of the counts modulo 2^32. |
| Bms.Bms.ReadVCell | Quadruped_Bot_Actuation_Code/src/BMS_ReadCommands.cpp:24-52 | Twelve bits over 5 V, for each of the five cells. |
| Bms.Bms.ReadVB | Quadruped_Bot_Actuation_Code/src/BMS_ReadCommands.cpp:63-67 | Twelve bits over 25 V. |
| Validity.WindowExact | Quadruped_Bot_Actuation_Code/src/Bms_CoreCommands.cpp:42-58 | The unsigned window equals the intended one if and only if (cells + 1) filter times fit in the cycle plus 1600 microseconds; otherwise it is off by a multiple of 2^32. |
| Validity.FilterWindows | Quadruped_Bot_Actuation_Code/src/Bms_CoreCommands.cpp:42-58 | The windows of the four cell filters at five cells and measure cycle 31, in microseconds; other filter settings count as 0. |
| Validity.ValidUnlessOneWraps | Quadruped_Bot_Actuation_Code/src/Bms_CoreCommands.cpp:95-98 | The validity test agrees with the true elapsed time if and only if now and the deadline both wrapped or both did not. |
| Validity.ShortCycleUnderflows | Quadruped_Bot_Actuation_Code/src/Bms_CoreCommands.cpp:42-58 | Five cells, cell filter 3 and a measure cycle of 9 underflow: data an hour old counts as valid. |
| Validity.FreshDataRefused | Quadruped_Bot_Actuation_Code/src/Bms_CoreCommands.cpp:80-98 | With the shipped settings, a ready pulse whose deadline wraps has its fresh data refused until the counter wraps too. |
| Quantiser.Quantise | Quadruped_Bot_Actuation_Code/src/BMS_NumericalCommands.cpp:76-78 | Divide, add a half, truncate and saturate give the nearest code. |
| Quantiser.NearestUnique | Quadruped_Bot_Actuation_Code/src/BMS_NumericalCommands.cpp:76-78 | The nearest code is determined by the value. |
| Quantiser.NearestOfHalf | Quadruped_Bot_Actuation_Code/src/BMS_NumericalCommands.cpp:76-78 | A value halfway between two codes gets the upper one. |
| Quantiser.NearestMonotone | Quadruped_Bot_Actuation_Code/src/BMS_NumericalCommands.cpp:76-78 | A larger value never gets a smaller code. |
| Thresholds.IntSentinel | Quadruped_Bot_Actuation_Code/src/BMS_NumericalCommands.cpp:31-40 | The default sentinel is returned for "default" alone; everything else lands in the range. |
| ThresholdWords.AnyCase | Quadruped_Bot_Actuation_Code/src/BMS_NumericalCommands.cpp:31-50 | Keywords are recognised in any mixture of cases, and nothing else is. |
| ThresholdWords.ValueMeaning | Quadruped_Bot_Actuation_Code/src/BMS_NumericalCommands.cpp:42-51 | "max" asks for the upper end of the range, "min" or no argument for the lower end, "default" for the default, other text for its number held within the range. |
| ThresholdWords.CountMeaning | Quadruped_Bot_Actuation_Code/src/BMS_NumericalCommands.cpp:31-40 | The same for integer arguments. |
| ThresholdWords.PrintedCount | Quadruped_Bot_Actuation_Code/src/BMS_NumericalCommands.cpp:31-40 | A printed int is the count it says, held within the range. |
| ThresholdWords.KeywordCode | Quadruped_Bot_Actuation_Code/src/BMS_NumericalCommands.cpp:62-342 | For every command, each quantised argument and every word that meets the contract: the code held for "max", "min" or none, "default" and any other text. |
| ThresholdWords.KeywordCount | Quadruped_Bot_Actuation_Code/src/BMS_NumericalCommands.cpp:54-85 | The count fields and the gain word, by keyword: 15, 1, 15 and 0xFFFF, 0, 0x8000; or the number given, held within the range. |
| ThresholdWords.KeywordShortCircuit | Quadruped_Bot_Actuation_Code/src/BMS_NumericalCommands.cpp:367-379 | The short-circuit codes, by keyword: those of 1000 A, 0 A, 100 A, or the number held within 0 to 1000 A. |
| ThresholdWords.GainWords | Quadruped_Bot_Actuation_Code/src/BMS_NumericalCommands.cpp:54-60 | The gain words for the three keywords, in numbers. |
| ThresholdWords.CellWords | Quadruped_Bot_Actuation_Code/src/BMS_NumericalCommands.cpp:63-171 | Registers and words of the four cell commands for keyword arguments, in numbers: defaults 4.3 V, 2.2 V and 0.2 V give 220, 113 and 10. |
| ThresholdWords.PackWords | Quadruped_Bot_Actuation_Code/src/BMS_NumericalCommands.cpp:173-244 | The same for the three pack commands: defaults 23 V, 10.93 V and 2 V give 236, 112 and 20. |
| ThresholdWords.NtcWords | Quadruped_Bot_Actuation_Code/src/BMS_NumericalCommands.cpp:247-308 | The same for the three thermistor commands: 248 to 4094, defaults 2.5 V and 0.5 V give 3102 and 620. |
| ThresholdWords.CurrentWords | Quadruped_Bot_Actuation_Code/src/BMS_NumericalCommands.cpp:312-342 | The same for the two overcurrent commands at any resistor: 0 and full scale, which is the default. |
| ThresholdWords.CurrentScale | Quadruped_Bot_Actuation_Code/src/BMS_NumericalCommands.cpp:312-342 | Full scale is 0.3 V across the resistor: an overcurrent code stands for a current within half a step of the one given, 255 above full scale and 0 below zero. |
| ThresholdWords.ShortCircuitWords | Quadruped_Bot_Actuation_Code/src/BMS_NumericalCommands.cpp:344-379 | The short-circuit words for keyword arguments, persistent threshold in the upper nibble. |
| Thresholds.CurrentToCode | Quadruped_Bot_Actuation_Code/src/BMS_NumericalCommands.cpp:351-365 | The nearest of sixteen codes to the current's voltage, clamped to the span of the codes. |
| Thresholds.SendBMSNumericalCommand | Quadruped_Bot_Actuation_Code/src/BMS_NumericalCommands.cpp:22-387 | For each command, the register it names and a word whose fields are the nearest codes and the counts asked for, with nothing in the reserved bits (their values for keyword arguments are those of ThresholdWords); unknown commands give nothing; no register is written. |
| ThresholdLaws.AttainableCodes | Quadruped_Bot_Actuation_Code/src/BMS_NumericalCommands.cpp:62-342 | For every command with a quantised field: encoding what code c stands for gives c back exactly for c in 0..255, 248..4094 (overtemperature) or 0..4094 (other thermistor registers), and no argument yields any other code. |
| ThresholdLaws.FieldAccuracy | Quadruped_Bot_Actuation_Code/src/BMS_NumericalCommands.cpp:62-342 | An unsaturated code is within half a step of the clamped argument; a field can saturate if and only if its command is one of the seven cell and pack commands. |
| ThresholdLaws.CommandWord | Quadruped_Bot_Actuation_Code/src/BMS_NumericalCommands.cpp:22-387 | For every command, both arguments and every word that meets the command's contract: each quantised field lies in the attainable range, is within half a step of the value asked for unless saturated, and for cell and pack commands decodes at the measurement scale to within the full-scale bound. |
| ThresholdLaws.CommandMonotone | Quadruped_Bot_Actuation_Code/src/BMS_NumericalCommands.cpp:22-342 | For every command and any two words that meet its contract: the argument that asks for more, after keywords, default and clamping, does not get the smaller code. |
| ThresholdLaws.ShortCircuitCodes | Quadruped_Bot_Actuation_Code/src/BMS_NumericalCommands.cpp:344-379 | Both codes of every short-circuit word are within half a step of the clamped voltage. |
| ThresholdLaws.ScCodesExactly | Quadruped_Bot_Actuation_Code/src/BMS_NumericalCommands.cpp:351-375 | All sixteen short-circuit codes round-trip if and only if the sense resistor is at least 0.00025272 ohm. |
| ThresholdLaws.ScAccuracy | Quadruped_Bot_Actuation_Code/src/BMS_NumericalCommands.cpp:351-365 | A short-circuit code is always within half a step of the clamped voltage, and a larger current never gets a smaller code. |
| ThresholdLaws.CellThresholdMeasured | Quadruped_Bot_Actuation_Code/src/BMS_ReadCommands.cpp:24-28 | For every cell voltage in [0,5] the encoded threshold, decoded with the measurement scale, is within 75/4095 V. |
| ThresholdLaws.PackThresholdMeasured | Quadruped_Bot_Actuation_Code/src/BMS_ReadCommands.cpp:63-67 | For every pack voltage in [0,25] the encoded threshold, decoded with the measurement scale, is within 375/4095 V. |
| ThresholdLaws.MeasuredBoundsTight | Quadruped_Bot_Actuation_Code/src/BMS_NumericalCommands.cpp:76-78 | Both bounds are attained at full scale, where the code saturates. |

## Left out

- Wire, Wire1 and SPI library behaviour, acknowledge failures, delays and busy waits: foreign input and output.
- A chip address is compared as a byte; how the library folds an 8-bit address onto seven bus bits is not modelled.
- Registers 0x21 to 0x24 are command words when written and cell measurements when read; the register model keeps one value for both, so a stored command word would read as a cell voltage until the device measures again.
- Serial printing, except the binary digits of configuration commands.
- Chip address 0x70 in a motor call: the drive-byte, elision and write-count results exclude it. Routing with such calls holds exactly when they are harmless (Misrouting.RoutingExactly, Console.SetupRoutingExactly); Console.MuxLinesLeak is serial input that makes it fail. Prefixes of the run matter there, because a later selection or disable can repair the control byte before any driver is addressed.
- Encoder channels above 15: the encoder methods require channel <= 15, because the offsets array has sixteen entries.
- A first word of sixteen or more characters overruns the word buffer of the command parser, and an integer argument outside `int` is undefined in C: the model names the first case `Overrun` and makes no call for it, and saturates the second.
- NVM upload and download contents, ship mode and fuse effects: the model stores the command word and nothing else, so the register history does not cover what an NVM upload changes inside the device.
- `atof` text quirks, including "nan" and "inf".
- `precharge`, `setDSG`, `setCHG`, `readPackSense`, the die temperature, thermistor, cell-sum and current decoders, the 16-bit date reads and the ready interrupt handler: each settled by reading one branch or one line.
- Device registers and pins are derived from the log of frames or pin writes since an arbitrary starting state, not kept as separately updated fields; aliasing between two software objects on one bus is not modelled.
- `BmsSetup.SetUpBMS` groups the firmware's one function into its three runs of calls, in the source's order.
- The `Session`, `Perform` and `Operate` methods are not in the firmware: they stand for its callers, and repeat its functions over arbitrary inputs.
