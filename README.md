# SMS/STS servo-bus driver, modelled in Dafny

This project models two layers of a driver for a half-duplex serial bus of
Feetech SMS/STS servo actuators:

- **The SMS/STS command layer** (`buster/scservo_sdk/sms_sts.py`). It holds the
  device register map (EPROM and SRAM addresses). It builds the byte payloads of
  the position and speed commands. It fixes the order in which each command
  issues bus transactions. That order includes the EPROM unlock → write → lock
  bracket, the early exit when reading the voltage limits, and the two brackets
  when writing them.
- **The motor facade** (`buster/motors.py`). This is `MotorCommunicator`, a thin
  aggregator that does not retry. It provides a ping, a full state read, a
  best-effort read of several positions, and a write of several positions that
  never stops early.

The bus is abstract. `SmsSts.PacketHandler` keeps `log`, the sequence of every
transaction issued so far. Each transaction is a `Bus.Txn`: a ping, a read
(id, start register, width), a one-byte write, a block write, a registered
write or an action. The handler also holds `replies`, an oracle fixed in
advance. The k-th transaction on the bus gets `ReplyOf(replies, k)`, which gives
a communication result, an error byte and a raw value. Past the end of the
oracle, every transaction times out. Each operation is a method. Its `ensures`
says exactly how the log grows and how the result follows from the replies. The
facade's loops and its state read are proved against specification functions
(`StateTxns`, `StateResult`, `PositionReads`, `CollectPositions`,
`PositionWrites`). The properties the source promises are proved about those
functions. `GetMotorState` issues its last five reads through
`ReadTemperaturesAndAngles`. That helper is the same straight-line code, split
out so that each proof stays small.

Files:

- `scs_helpers.dfy` (module `ScsHelpers`) holds the byte and sign helpers. These
  are **assumptions**, not verified source. The command layer inherits them from
  the vendor protocol handler (imported at `sms_sts.py:5`), which is not part of
  this model. The handler is built little-endian (`end = 0`, `sms_sts.py:78`):
  the low byte is `w % 256` and the high byte is `(w / 256) % 256`. Signed
  values use sign-magnitude with bit 15 as the sign flag (the `15` at
  `sms_sts.py:94` and `:114`).
- `bus.dfy` (module `Bus`) holds the transaction log entries, the replies, and
  these constants: `CommSuccess = 0`, `CommRxTimeout = -6`, `BroadcastId = 254`.
  The constants are assumed. They come from the vendor definitions module,
  which is not part of this model.
- `sms_sts.dfy` (module `SmsSts`) holds the register map, the payloads, the
  group sync write, and the packet handler class.
- `motors.dfy` (module `Motors`) holds `MotorState`, the defaults
  (speed 800, acceleration 25) and the `MotorCommunicator` class.

Two points about the EPROM bracket and the group batch:

- `sms_sts.py:83-85` ignores the unlock's outcome. `WriteSetting` always issues
  all three writes, and no variant that stops after a failed unlock is
  modelled.
- `GroupSyncWrite.AddParam` is an assumption about the vendor group sync write,
  which is not among the modelled files. It refuses an id that is already
  staged, and a payload longer than the group's width.

A read of `width` bytes returns the register contents, so its raw value fits in
`width` bytes. `Bus.ReadValue` keeps an oracle reply to the read's width. Every
decoded two-byte read therefore lies in [-32767, 32767], and every one-byte
read lies in [0, 256).

## Model

| member | source | states |
|---|---|---|
| `ScsHelpers.LoByte` | buster/scservo_sdk/sms_sts.py:89 | the low byte of a word is in [0, 256) (assumed helper) |
| `ScsHelpers.HiByte` | buster/scservo_sdk/sms_sts.py:89 | the high byte of a word is in [0, 256) (assumed helper) |
| `ScsHelpers.LoWord` | buster/scservo_sdk/sms_sts.py:147 | the low word of a double word is in [0, 2^16) (assumed helper) |
| `ScsHelpers.HiWord` | buster/scservo_sdk/sms_sts.py:148 | the high word of a double word is in [0, 2^16) (assumed helper) |
| `ScsHelpers.MakeWord` | buster/scservo_sdk/sms_sts.py:89 | (assumed helper) a word joined from two bytes fits in 16 bits |
| `ScsHelpers.MakeDWord` | buster/scservo_sdk/sms_sts.py:146-148 | (assumed helper) a double word joined from two words fits in 32 bits |
| `ScsHelpers.WordJoin` | buster/scservo_sdk/sms_sts.py:89 | the other direction of ByteSplit: the low and high byte of a joined word are the two bytes given, modulo 2^8 |
| `ScsHelpers.ByteSplit` | buster/scservo_sdk/sms_sts.py:89 | joining the low and high byte of any integer gives it back modulo 2^16 |
| `ScsHelpers.WordSplit` | buster/scservo_sdk/sms_sts.py:146-148 | the low and high word of a double word built from two words give both words back modulo 2^16 |
| `ScsHelpers.ToHost` | buster/scservo_sdk/sms_sts.py:94 | sign-magnitude decoding with bit 15: any 16-bit raw value decodes into [-32767, 32767]; the result is negative only when the sign bit is set; with the sign bit clear the value is unchanged |
| `ScsHelpers.ToScs` | buster/scservo_sdk/sms_sts.py:114 | sign-magnitude encoding: over [-32767, 32767] the result fits in 16 bits, ToHost inverts it, its sign bit is set exactly for negative values, and 0 encodes as 0 |
| `ScsHelpers.HostRoundTrip` | buster/scservo_sdk/sms_sts.py:110-114 | the other direction: every 16-bit raw value except 0x8000 re-encodes to itself |
| `ScsHelpers.NegativeZero` | buster/scservo_sdk/sms_sts.py:94 | 0x8000 decodes to 0, so the "negative zero" is the one raw value that does not round-trip |
| `Bus.ReplyOf` | buster/scservo_sdk/sms_sts.py:84 | once the oracle is exhausted, every transaction fails |
| `Bus.ReadValue` | buster/scservo_sdk/sms_sts.py:93 | the value a read of `width` bytes returns is below 256^width, and a reply that already fits is returned unchanged |
| `SmsSts.PosExPayload` | buster/scservo_sdk/sms_sts.py:89 | a position command payload is 7 bytes long |
| `SmsSts.PosExLayout` | buster/scservo_sdk/sms_sts.py:88-90 | the 7 bytes cover exactly registers 41..47; byte 0 is the acceleration; every other byte is in [0, 256); the goal-position registers 42-43 hold the position mod 2^16, the goal-time registers 44-45 hold 0, and the goal-speed registers 46-47 hold the speed mod 2^16 |
| `SmsSts.WordOfBytes` | buster/scservo_sdk/sms_sts.py:89 | two consecutive payload bytes holding the low and high byte of a value read back, as a register pair, as that value modulo 2^16 |
| `SmsSts.SpecPayload` | buster/scservo_sdk/sms_sts.py:171 | a speed command payload is 7 bytes long |
| `SmsSts.SpecLayout` | buster/scservo_sdk/sms_sts.py:169-172 | the speed command puts 0 in the goal-position and goal-time registers and the sign-magnitude speed (mod 2^16) in the goal-speed registers |
| `SmsSts.SpecSpeedDecodes` | buster/scservo_sdk/sms_sts.py:170-171 | for any speed in [-32767, 32767], the device decodes exactly that speed from the goal-speed registers |
| `SmsSts.PresentBlockDecode` | buster/scservo_sdk/sms_sts.py:145-149 | in the 4-byte block at register 56, the low word is the position pair 56-57 and the high word is the speed pair 58-59, so ReadPosSpeed decodes the same words as separate ReadPos and ReadSpeed reads |
| `SmsSts.GroupSyncWrite.constructor` | buster/scservo_sdk/sms_sts.py:79 | a new group has the given start register and width, and nothing staged |
| `SmsSts.GroupSyncWrite.AddParam` | buster/scservo_sdk/sms_sts.py:157 | (assumed vendor behaviour) a payload is staged iff its id is not already staged and it is no longer than the width; otherwise nothing changes |
| `SmsSts.PacketHandler.constructor` | buster/scservo_sdk/sms_sts.py:77-79 | the handler starts with an empty log and a fresh, empty group sync write at register 41 with width 7 |
| `SmsSts.PacketHandler.Transact` | buster/scservo_sdk/sms_sts.py:84 | the request/response engine: one transaction is appended to the log and gets the next reply |
| `SmsSts.PacketHandler.Ping` | buster/motors.py:69 | one ping transaction; its reply's value is the model number |
| `SmsSts.PacketHandler.Write1ByteTxRx` | buster/scservo_sdk/sms_sts.py:84 | one one-byte write transaction, returning its outcome |
| `SmsSts.PacketHandler.ReadTxRx` | buster/scservo_sdk/sms_sts.py:101 | one read transaction of the given width, returning the outcome and the raw value kept to that width, so it is below 256^width |
| `SmsSts.PacketHandler.WritePosEx` | buster/scservo_sdk/sms_sts.py:88-90 | exactly one block write to the id at register 41, with the position payload, returning its outcome |
| `SmsSts.PacketHandler.ReadPos` | buster/scservo_sdk/sms_sts.py:92-94 | one 2-byte read at register 56, decoded in sign-magnitude, so the position lies in [-32767, 32767] |
| `SmsSts.PacketHandler.ReadSpeed` | buster/scservo_sdk/sms_sts.py:96-98 | one 2-byte read at register 58, decoded in sign-magnitude, so the speed lies in [-32767, 32767] |
| `SmsSts.PacketHandler.ReadVoltage` | buster/scservo_sdk/sms_sts.py:100-102 | one 1-byte read at register 62, decoded in sign-magnitude; a byte never has bit 15 set, so the voltage lies in [0, 256) |
| `SmsSts.PacketHandler.ReadVoltageLimits` | buster/scservo_sdk/sms_sts.py:104-110 | if the read of register 14 fails: only that read is issued, and the result is (0, 0, its result, its error); otherwise register 15 is read next, both values are decoded, and the second read's outcome is returned; both limits always lie in [0, 256) |
| `SmsSts.VoltageLimitsTxns` | buster/scservo_sdk/sms_sts.py:104-110 | the voltage-limit read always starts with the read of register 14; register 15 is read iff that first read succeeded |
| `SmsSts.PacketHandler.WriteSetting` | buster/scservo_sdk/sms_sts.py:81-86 | always exactly three one-byte writes to the id, whatever their outcomes: register 55 ← 0, target ← value, register 55 ← 1; returns the middle write's outcome |
| `SmsSts.PacketHandler.WriteVoltageLimits` | buster/scservo_sdk/sms_sts.py:112-120 | two lock brackets, register 14 then register 15, with sign-magnitude values: six writes; the second bracket runs even if the first failed; returns the second bracket's middle outcome |
| `SmsSts.PacketHandler.ReadTemperature` | buster/scservo_sdk/sms_sts.py:122-125 | one 1-byte read at register 63, decoded into [0, 256) |
| `SmsSts.PacketHandler.ReadTemperatureLimit` | buster/scservo_sdk/sms_sts.py:127-130 | one 1-byte read at register 13, decoded into [0, 256) |
| `SmsSts.PacketHandler.WriteTemperatureLimit` | buster/scservo_sdk/sms_sts.py:132-137 | one lock bracket writing the sign-magnitude limit to register 13 |
| `SmsSts.PacketHandler.ReadMotorLimits` | buster/scservo_sdk/sms_sts.py:139-143 | two 2-byte reads, register 9 then register 11, both always issued; both decoded into [-32767, 32767]; the second read's outcome is returned |
| `SmsSts.PacketHandler.ReadPosSpeed` | buster/scservo_sdk/sms_sts.py:145-149 | one 4-byte read at register 56; the position is decoded from the low word and the speed from the high word, both into [-32767, 32767] |
| `SmsSts.PacketHandler.ReadMoving` | buster/scservo_sdk/sms_sts.py:151-153 | one 1-byte read at register 66, returned raw, so it lies in [0, 256) |
| `SmsSts.PacketHandler.SyncWritePosEx` | buster/scservo_sdk/sms_sts.py:155-157 | no bus transaction; the same payload as WritePosEx is staged in the group under the id, unless the id is already staged |
| `SmsSts.PacketHandler.RegWritePosEx` | buster/scservo_sdk/sms_sts.py:159-161 | one registered write at register 41 with the same payload as WritePosEx |
| `SmsSts.PacketHandler.RegAction` | buster/scservo_sdk/sms_sts.py:163-164 | one action transaction to the broadcast id |
| `SmsSts.PacketHandler.WheelMode` | buster/scservo_sdk/sms_sts.py:166-167 | one one-byte write of 1 to the mode register 33 |
| `SmsSts.PacketHandler.WriteSpec` | buster/scservo_sdk/sms_sts.py:169-172 | one block write at register 41 with the speed payload |
| `SmsSts.PacketHandler.LockEprom` | buster/scservo_sdk/sms_sts.py:174-175 | one one-byte write of 1 to register 55 |
| `SmsSts.PacketHandler.UnlockEprom` | buster/scservo_sdk/sms_sts.py:177-178 | one one-byte write of 0 to register 55 |
| `Motors.StateTxns` | buster/motors.py:72-90 | the state read starts with a ping to the motor; the ping is the only transaction exactly when it fails |
| `Motors.StateReadsOnly` | buster/motors.py:72-90 | every transaction of a state read is a ping or a read addressed to the motor, so reading a state never writes |
| `Motors.StateResult` | buster/motors.py:72-103 | the state is None exactly when the ping fails; otherwise it has the motor's id and the ping's model number, whatever the later sub-reads returned; voltages and temperatures lie in [0, 256), and the position and angle limits in [-32767, 32767] |
| `Motors.StateFieldsFromTheirReads` | buster/motors.py:79-103 | each field of a returned state decodes the reply to the read of its own register (voltage, temperature limit, temperature, position, angle limits); the voltage limits come from registers 14 and 15 when the read of 14 succeeded; otherwise both are 0 and register 15 is never read |
| `Motors.PositionReads` | buster/motors.py:108-109 | one 2-byte read at register 56 per list element, to that element's id, in list order |
| `Motors.CollectPositions` | buster/motors.py:107-115 | the dict the loop builds: every key is one of the listed ids, and every stored position lies in [-32767, 32767] |
| `Motors.CollectedKeys` | buster/motors.py:105-116 | the ids in the returned map are exactly the listed ids that had at least one successful read |
| `Motors.CollectedValue` | buster/motors.py:105-116 | the position stored for an id is the one decoded from its last successful read |
| `Motors.PositionWrites` | buster/motors.py:125-131 | one position command per entry, in iteration order, to the entry's id, all with the same speed and acceleration |
| `Motors.MotorCommunicator.constructor` | buster/motors.py:42-62 | the facade owns a fresh packet handler with an empty log |
| `Motors.MotorCommunicator.IsOnline` | buster/motors.py:67-70 | exactly one ping; true iff its result is success |
| `Motors.MotorCommunicator.ReadTemperaturesAndAngles` | buster/motors.py:83-90 | the last five sub-reads of a state read, in order (registers 13, 63, 56, 9, 11), each decoded from its own reply |
| `Motors.MotorCommunicator.GetMotorState` | buster/motors.py:72-103 | issues exactly the StateTxns transactions and returns StateResult |
| `Motors.MotorCommunicator.GetMotorPositions` | buster/motors.py:105-116 | issues exactly one position read per list element, in order, whatever the outcomes, and returns CollectPositions of those reads |
| `Motors.MotorCommunicator.SendMotorPositions` | buster/motors.py:118-142 | issues exactly the PositionWrites transactions; a failed write never stops the remaining ones |
| `Motors.SendWithDefaults` | buster/motors.py:15-16 | for every list of entries, a call that gives no speed or acceleration sends each command with speed 800 and acceleration 25 |

## Left out

- Packet framing, the checksum, the request/response engine's internals and the serial port. These live in modules imported at `buster/scservo_sdk/sms_sts.py:4-7` and `buster/motors.py:6`, which are not part of this model. They are represented only by the transaction log and the reply oracle. A ping is one transaction whose reply value is the model number.
- Transmitting a group sync write, and group sync read. Their implementations are not part of this model. Only the staging done by `SyncWritePosEx` is modelled.
- Opening the port, setting the baud rate and closing it (`buster/motors.py:43-59`, `144-146`). These are I/O. The facade's constructor takes the reply oracle in their place, so the port-open errors are not modelled.
- Logging: `comm_error_log`, the `logger` calls, and the error-string formatting of `getTxRxResult` and `getRxPacketError`. These only produce messages.
- The division of voltages by 10.0 in `get_motor_state`, and `MotorState.__repr__`. The state keeps the raw integer tenths of a volt.
- The command-line scripts (`test_motor.py`, `move_motor.py`, `id_motors.py`, `scripts/`). These are interactive entry points, not the core.
- Concurrency. The model is one client on one bus, one transaction at a time.
- The constants `BAUDRATE`, `DEVICENAME` and the position range 0..4095 (`buster/motors.py:9-14`). Nothing in the core uses them.
- Motors.MotorCommunicator.SendMotorPositions: the position dictionary is modelled as the sequence of its entries in iteration order. Distinct keys are not enforced, since the contract holds for any sequence.
- SmsSts.PosExPayload: the acceleration byte is passed through as given, as in the source. No range check or masking is modelled, so payload byte 0 is a byte only when the caller's acceleration is one.
- SmsSts.GroupSyncWrite.AddParam: the rules for refusing an entry (an id already staged, a payload longer than the width) are assumed. The vendor group sync write that implements them is not part of this model.
