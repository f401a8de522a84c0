/**
 * The SMS/STS command layer: the device register map, the byte layout of the
 * position and speed commands, and the order in which each command issues
 * bus transactions.
 */
module SmsSts {
  import opened ScsHelpers
  import opened Bus

  // Baud-rate codes written to the baud-rate register.
  const Baud1M: int := 0
  const Baud500K: int := 1
  const Baud250K: int := 2
  const Baud128K: int := 3
  const Baud115200: int := 4
  const Baud76800: int := 5
  const Baud57600: int := 6
  const Baud38400: int := 7

  // EPROM, read only.
  const ModelL: int := 3
  const ModelH: int := 4

  // EPROM, read and write (needs the lock bracket).
  const Id: int := 5
  const BaudRate: int := 6
  const MinAngleLimitL: int := 9
  const MaxAngleLimitL: int := 11
  const MaxTempLimit: int := 13
  const MaxInputVoltage: int := 14
  const MinInputVoltage: int := 15
  const CwDead: int := 26
  const CcwDead: int := 27
  const OfsL: int := 31
  const OfsH: int := 32
  const Mode: int := 33

  // SRAM, read and write.
  const TorqueEnable: int := 40
  const Acc: int := 41
  const GoalPositionL: int := 42
  const GoalPositionH: int := 43
  const GoalTimeL: int := 44
  const GoalTimeH: int := 45
  const GoalSpeedL: int := 46
  const GoalSpeedH: int := 47
  const Lock: int := 55

  // SRAM, read only.
  const PresentPositionL: int := 56
  const PresentPositionH: int := 57
  const PresentSpeedL: int := 58
  const PresentSpeedH: int := 59
  const PresentLoadL: int := 60
  const PresentLoadH: int := 61
  const PresentVoltage: int := 62
  const PresentTemperature: int := 63
  const Moving: int := 66
  const PresentCurrentL: int := 69
  const PresentCurrentH: int := 70

  /** Width of the position command block that starts at the acceleration register. */
  const PosExLength: int := 7

  /** The 16-bit value the device reads from payload bytes i and i + 1 (low byte first). */
  function WordAt(p: seq<int>, i: nat): int
    requires i + 1 < |p|
  {
    MakeWord(p[i], p[i + 1])
  }

  /** The payload of a position command, written from the acceleration register on. */
  function PosExPayload(position: int, speed: int, acc: int): (p: seq<int>)
    ensures |p| == PosExLength
  {
    [acc, LoByte(position), HiByte(position), 0, 0, LoByte(speed), HiByte(speed)]
  }

  /**
   * The position command lines up with the register map: it covers exactly
   * the registers Acc..GoalSpeedH, every byte after the acceleration is a
   * byte, and the device finds the position (mod 2^16) in the goal-position
   * registers, zero in the goal-time registers and the speed (mod 2^16) in
   * the goal-speed registers.
   */
  lemma PosExLayout(position: int, speed: int, acc: int)
    ensures |PosExPayload(position, speed, acc)| == GoalSpeedH - Acc + 1
    ensures PosExPayload(position, speed, acc)[0] == acc
    ensures forall k :: 1 <= k < PosExLength ==> 0 <= PosExPayload(position, speed, acc)[k] < 256
    ensures WordAt(PosExPayload(position, speed, acc), GoalPositionL - Acc) == position % 65536
    ensures WordAt(PosExPayload(position, speed, acc), GoalTimeL - Acc) == 0
    ensures WordAt(PosExPayload(position, speed, acc), GoalSpeedL - Acc) == speed % 65536
  {
    var p := PosExPayload(position, speed, acc);
    assert p == [acc, LoByte(position), HiByte(position), 0, 0, LoByte(speed), HiByte(speed)];
    WordOfBytes(p, 1, position);
    assert WordAt(p, 3) == MakeWord(0, 0) == 0;
    WordOfBytes(p, 5, speed);
  }

  /** Two payload bytes holding the low and high byte of w read back as w modulo 2^16. */
  lemma WordOfBytes(p: seq<int>, i: nat, w: int)
    requires i + 1 < |p| && p[i] == LoByte(w) && p[i + 1] == HiByte(w)
    ensures WordAt(p, i) == w % 65536
  {
    ByteSplit(w);
  }

  /** The payload of a speed command: goal position zero, the speed in sign-magnitude. */
  function SpecPayload(speed: int, acc: int): (p: seq<int>)
    ensures |p| == PosExLength
  {
    var s := ToScs(speed);
    [acc, 0, 0, 0, 0, LoByte(s), HiByte(s)]
  }

  /**
   * The speed command lines up with the register map: zero in the
   * goal-position and goal-time registers, the sign-magnitude speed (mod 2^16)
   * in the goal-speed registers.
   */
  lemma SpecLayout(speed: int, acc: int)
    ensures |SpecPayload(speed, acc)| == GoalSpeedH - Acc + 1
    ensures SpecPayload(speed, acc)[0] == acc
    ensures WordAt(SpecPayload(speed, acc), GoalPositionL - Acc) == 0
    ensures WordAt(SpecPayload(speed, acc), GoalTimeL - Acc) == 0
    ensures WordAt(SpecPayload(speed, acc), GoalSpeedL - Acc) == ToScs(speed) % 65536
  {
    var p := SpecPayload(speed, acc);
    var s := ToScs(speed);
    assert p == [acc, 0, 0, 0, 0, LoByte(s), HiByte(s)];
    assert WordAt(p, 1) == MakeWord(0, 0) == 0;
    assert WordAt(p, 3) == 0;
    WordOfBytes(p, 5, s);
  }

  /** For any speed in [-32767, 32767] the device decodes exactly that speed from a speed command. */
  lemma SpecSpeedDecodes(speed: int, acc: int)
    requires -32767 <= speed <= 32767
    ensures ToHost(WordAt(SpecPayload(speed, acc), GoalSpeedL - Acc)) == speed
  {
    var s := ToScs(speed);
    SmallWord(s);
    SpecLayout(speed, acc);
  }

  /**
   * The present-position and present-speed registers (56..59) read as one
   * double word, low byte first: the low word is the position pair 56-57 and
   * the high word the speed pair 58-59, so ReadPosSpeed decodes the same
   * values that ReadPos and ReadSpeed decode from their own two-byte reads.
   */
  lemma PresentBlockDecode(b56: int, b57: int, b58: int, b59: int)
    ensures var raw := MakeDWord(MakeWord(b56, b57), MakeWord(b58, b59));
      LoWord(raw) == MakeWord(b56, b57) && HiWord(raw) == MakeWord(b58, b59)
  {
    var lo, hi := MakeWord(b56, b57), MakeWord(b58, b59);
    assert 0 <= lo < 65536 && 0 <= hi < 65536;
    WordSplit(lo, hi);
  }

  /**
   * The reads ReadVoltageLimits issues: the maximum input voltage, then the
   * minimum input voltage only if the first read succeeded.
   */
  function VoltageLimitsTxns(id: int, firstSucceeded: bool): (r: seq<Txn>)
    ensures |r| >= 1 && r[0] == ReadTx(id, MaxInputVoltage, 1)
    ensures ReadTx(id, MinInputVoltage, 1) in r <==> firstSucceeded
  {
    if firstSucceeded then [ReadTx(id, MaxInputVoltage, 1), ReadTx(id, MinInputVoltage, 1)]
    else [ReadTx(id, MaxInputVoltage, 1)]
  }

  /**
   * The group sync write the handler creates for position commands. Its
   * implementation is not part of this model; it is assumed to stage at most
   * one payload per id, refusing an id already staged or a payload longer
   * than its data length, and to send nothing until it is transmitted.
   */
  class GroupSyncWrite {
    const startAddress: int
    const dataLength: int
    var params: map<int, seq<int>>

    constructor (startAddress: int, dataLength: int)
      ensures this.startAddress == startAddress && this.dataLength == dataLength
      ensures params == map[]
    {
      this.startAddress := startAddress;
      this.dataLength := dataLength;
      params := map[];
    }

    method AddParam(id: int, data: seq<int>) returns (ok: bool)
      modifies this
      ensures ok <==> id !in old(params) && |data| <= dataLength
      ensures params == if ok then old(params)[id := data] else old(params)
    {
      ok := id !in params && |data| <= dataLength;
      if ok {
        params := params[id := data];
      }
    }
  }

  /**
   * The SMS/STS packet handler. `log` is every transaction issued so far, in
   * order; `replies` is the oracle that fixes each transaction's outcome.
   */
  class PacketHandler {
    const replies: seq<Reply>
    var log: seq<Txn>
    const groupSyncWrite: GroupSyncWrite

    /** The group sync write stages 7-byte blocks from the acceleration register. */
    predicate Valid()
    {
      groupSyncWrite.startAddress == Acc && groupSyncWrite.dataLength == PosExLength
    }

    constructor (replies: seq<Reply>)
      ensures Valid() && this.replies == replies && log == []
      ensures fresh(groupSyncWrite) && groupSyncWrite.params == map[]
    {
      this.replies := replies;
      log := [];
      groupSyncWrite := new GroupSyncWrite(Acc, PosExLength);
    }

    /** The inherited request/response engine: issue one transaction and take its outcome. */
    method Transact(t: Txn) returns (r: Reply)
      modifies this
      ensures log == old(log) + [t]
      ensures r == ReplyOf(replies, |old(log)|)
    {
      r := ReplyOf(replies, |log|);
      log := log + [t];
    }

    method Ping(id: int) returns (modelNumber: int, comm: int, error: int)
      modifies this
      ensures log == old(log) + [PingTx(id)]
      ensures modelNumber == ReplyOf(replies, |old(log)|).value && comm == ReplyOf(replies, |old(log)|).comm && error == ReplyOf(replies, |old(log)|).error
    {
      var r := Transact(PingTx(id));
      modelNumber, comm, error := r.value, r.comm, r.error;
    }

    method Write1ByteTxRx(id: int, address: int, value: int) returns (comm: int, error: int)
      modifies this
      ensures log == old(log) + [Write1Tx(id, address, value)]
      ensures comm == ReplyOf(replies, |old(log)|).comm && error == ReplyOf(replies, |old(log)|).error
    {
      var r := Transact(Write1Tx(id, address, value));
      comm, error := r.comm, r.error;
    }

    /**
     * Reads `width` bytes from `address`; the value is the raw unsigned
     * register contents, so it fits in `width` bytes.
     */
    method ReadTxRx(id: int, address: int, width: nat) returns (value: nat, comm: int, error: int)
      modifies this
      ensures log == old(log) + [ReadTx(id, address, width)]
      ensures value < Pow256(width)
      ensures value == ReadValue(ReplyOf(replies, |old(log)|), width) && comm == ReplyOf(replies, |old(log)|).comm && error == ReplyOf(replies, |old(log)|).error
    {
      var r := Transact(ReadTx(id, address, width));
      value, comm, error := ReadValue(r, width), r.comm, r.error;
    }

    /** The position command: one write of the 7-byte block at the acceleration register. */
    method WritePosEx(id: int, position: int, speed: int, acc: int) returns (comm: int, error: int)
      modifies this
      ensures log == old(log) + [WriteTx(id, Acc, PosExPayload(position, speed, acc))]
      ensures comm == ReplyOf(replies, |old(log)|).comm && error == ReplyOf(replies, |old(log)|).error
    {
      var r := Transact(WriteTx(id, Acc, PosExPayload(position, speed, acc)));
      comm, error := r.comm, r.error;
    }

    method ReadPos(id: int) returns (position: int, comm: int, error: int)
      modifies this
      ensures log == old(log) + [ReadTx(id, PresentPositionL, 2)]
      ensures position == ToHost(ReadValue(ReplyOf(replies, |old(log)|), 2))
      ensures -32767 <= position <= 32767
      ensures comm == ReplyOf(replies, |old(log)|).comm && error == ReplyOf(replies, |old(log)|).error
    {
      var raw;
      raw, comm, error := ReadTxRx(id, PresentPositionL, 2);
      position := ToHost(raw);
    }

    method ReadSpeed(id: int) returns (speed: int, comm: int, error: int)
      modifies this
      ensures log == old(log) + [ReadTx(id, PresentSpeedL, 2)]
      ensures speed == ToHost(ReadValue(ReplyOf(replies, |old(log)|), 2))
      ensures -32767 <= speed <= 32767
      ensures comm == ReplyOf(replies, |old(log)|).comm && error == ReplyOf(replies, |old(log)|).error
    {
      var raw;
      raw, comm, error := ReadTxRx(id, PresentSpeedL, 2);
      speed := ToHost(raw);
    }

    method ReadVoltage(id: int) returns (voltage: int, comm: int, error: int)
      modifies this
      ensures log == old(log) + [ReadTx(id, PresentVoltage, 1)]
      ensures voltage == ToHost(ReadValue(ReplyOf(replies, |old(log)|), 1))
      ensures 0 <= voltage < 256
      ensures comm == ReplyOf(replies, |old(log)|).comm && error == ReplyOf(replies, |old(log)|).error
    {
      var raw;
      raw, comm, error := ReadTxRx(id, PresentVoltage, 1);
      voltage := ToHost(raw);
    }

    /**
     * Reads the maximum then the minimum input voltage. When the first read
     * fails, the minimum is never read and the failure is returned with zero
     * limits; otherwise the outcome is the second read's.
     */
    method ReadVoltageLimits(id: int) returns (maxVoltage: int, minVoltage: int, comm: int, error: int)
      modifies this
      ensures log == old(log) + VoltageLimitsTxns(id, Succeeded(ReplyOf(replies, |old(log)|)))
      ensures 0 <= maxVoltage < 256 && 0 <= minVoltage < 256
      ensures var first := ReplyOf(replies, |old(log)|);
        !Succeeded(first) ==>
          maxVoltage == 0 && minVoltage == 0 && comm == first.comm && error == first.error
      ensures var first, second := ReplyOf(replies, |old(log)|), ReplyOf(replies, |old(log)| + 1);
        Succeeded(first) ==>
          maxVoltage == ToHost(ReadValue(first, 1)) && minVoltage == ToHost(ReadValue(second, 1)) &&
          comm == second.comm && error == second.error
    {
      var maxRaw, minRaw;
      maxRaw, comm, error := ReadTxRx(id, MaxInputVoltage, 1);
      if comm != CommSuccess {
        return 0, 0, comm, error;
      }
      minRaw, comm, error := ReadTxRx(id, MinInputVoltage, 1);
      maxVoltage, minVoltage := ToHost(maxRaw), ToHost(minRaw);
    }

    /**
     * Writes an EPROM register inside the lock bracket: unlock, write, lock,
     * always all three and in that order, whatever their outcomes. The
     * outcome returned is the middle write's.
     */
    method WriteSetting(id: int, address: int, value: int) returns (comm: int, error: int)
      modifies this
      ensures log == old(log) + [Write1Tx(id, Lock, 0), Write1Tx(id, address, value), Write1Tx(id, Lock, 1)]
      ensures comm == ReplyOf(replies, |old(log)| + 1).comm && error == ReplyOf(replies, |old(log)| + 1).error
    {
      var _, _ := UnlockEprom(id);
      comm, error := Write1ByteTxRx(id, address, value);
      var _, _ := LockEprom(id);
    }

    /**
     * Two lock brackets, maximum voltage then minimum voltage, both in
     * sign-magnitude. The second runs even when the first failed; the outcome
     * returned is the second bracket's middle write.
     */
    method WriteVoltageLimits(id: int, maxVoltage: int, minVoltage: int) returns (comm: int, error: int)
      modifies this
      ensures log == old(log) + [Write1Tx(id, Lock, 0), Write1Tx(id, MaxInputVoltage, ToScs(maxVoltage)), Write1Tx(id, Lock, 1),
                                 Write1Tx(id, Lock, 0), Write1Tx(id, MinInputVoltage, ToScs(minVoltage)), Write1Tx(id, Lock, 1)]
      ensures comm == ReplyOf(replies, |old(log)| + 4).comm && error == ReplyOf(replies, |old(log)| + 4).error
    {
      comm, error := WriteSetting(id, MaxInputVoltage, ToScs(maxVoltage));
      comm, error := WriteSetting(id, MinInputVoltage, ToScs(minVoltage));
    }

    method ReadTemperature(id: int) returns (temperature: int, comm: int, error: int)
      modifies this
      ensures log == old(log) + [ReadTx(id, PresentTemperature, 1)]
      ensures temperature == ToHost(ReadValue(ReplyOf(replies, |old(log)|), 1))
      ensures 0 <= temperature < 256
      ensures comm == ReplyOf(replies, |old(log)|).comm && error == ReplyOf(replies, |old(log)|).error
    {
      var raw;
      raw, comm, error := ReadTxRx(id, PresentTemperature, 1);
      temperature := ToHost(raw);
    }

    method ReadTemperatureLimit(id: int) returns (maxTemperature: int, comm: int, error: int)
      modifies this
      ensures log == old(log) + [ReadTx(id, MaxTempLimit, 1)]
      ensures maxTemperature == ToHost(ReadValue(ReplyOf(replies, |old(log)|), 1))
      ensures 0 <= maxTemperature < 256
      ensures comm == ReplyOf(replies, |old(log)|).comm && error == ReplyOf(replies, |old(log)|).error
    {
      var raw;
      raw, comm, error := ReadTxRx(id, MaxTempLimit, 1);
      maxTemperature := ToHost(raw);
    }

    method WriteTemperatureLimit(id: int, maxTemperature: int) returns (comm: int, error: int)
      modifies this
      ensures log == old(log) + [Write1Tx(id, Lock, 0), Write1Tx(id, MaxTempLimit, ToScs(maxTemperature)), Write1Tx(id, Lock, 1)]
      ensures comm == ReplyOf(replies, |old(log)| + 1).comm && error == ReplyOf(replies, |old(log)| + 1).error
    {
      comm, error := WriteSetting(id, MaxTempLimit, ToScs(maxTemperature));
    }

    /**
     * Reads the minimum then the maximum angle limit, two bytes each. Both
     * reads are always issued; the outcome returned is the second read's.
     */
    method ReadMotorLimits(id: int) returns (minAngle: int, maxAngle: int, comm: int, error: int)
      modifies this
      ensures log == old(log) + [ReadTx(id, MinAngleLimitL, 2), ReadTx(id, MaxAngleLimitL, 2)]
      ensures minAngle == ToHost(ReadValue(ReplyOf(replies, |old(log)|), 2))
      ensures maxAngle == ToHost(ReadValue(ReplyOf(replies, |old(log)| + 1), 2))
      ensures -32767 <= minAngle <= 32767 && -32767 <= maxAngle <= 32767
      ensures comm == ReplyOf(replies, |old(log)| + 1).comm && error == ReplyOf(replies, |old(log)| + 1).error
    {
      var minRaw, maxRaw;
      minRaw, comm, error := ReadTxRx(id, MinAngleLimitL, 2);
      maxRaw, comm, error := ReadTxRx(id, MaxAngleLimitL, 2);
      minAngle, maxAngle := ToHost(minRaw), ToHost(maxRaw);
    }

    /** One four-byte read at the present-position register: position from the low word, speed from the high word. */
    method ReadPosSpeed(id: int) returns (position: int, speed: int, comm: int, error: int)
      modifies this
      ensures log == old(log) + [ReadTx(id, PresentPositionL, 4)]
      ensures position == ToHost(LoWord(ReadValue(ReplyOf(replies, |old(log)|), 4)))
      ensures speed == ToHost(HiWord(ReadValue(ReplyOf(replies, |old(log)|), 4)))
      ensures -32767 <= position <= 32767 && -32767 <= speed <= 32767
      ensures comm == ReplyOf(replies, |old(log)|).comm && error == ReplyOf(replies, |old(log)|).error
    {
      var raw;
      raw, comm, error := ReadTxRx(id, PresentPositionL, 4);
      position, speed := ToHost(LoWord(raw)), ToHost(HiWord(raw));
    }

    /** The moving flag, returned raw. */
    method ReadMoving(id: int) returns (moving: int, comm: int, error: int)
      modifies this
      ensures log == old(log) + [ReadTx(id, Moving, 1)]
      ensures moving == ReadValue(ReplyOf(replies, |old(log)|), 1)
      ensures 0 <= moving < 256
      ensures comm == ReplyOf(replies, |old(log)|).comm && error == ReplyOf(replies, |old(log)|).error
    {
      var raw;
      raw, comm, error := ReadTxRx(id, Moving, 1);
      moving := raw;
    }

    /**
     * Stages a position command for the group sync write, with the same
     * payload as WritePosEx. No bus transaction is issued.
     */
    method SyncWritePosEx(id: int, position: int, speed: int, acc: int) returns (ok: bool)
      requires Valid()
      modifies groupSyncWrite
      ensures log == old(log)
      ensures ok <==> id !in old(groupSyncWrite.params)
      ensures groupSyncWrite.params ==
        if ok then old(groupSyncWrite.params)[id := PosExPayload(position, speed, acc)] else old(groupSyncWrite.params)
    {
      ok := groupSyncWrite.AddParam(id, PosExPayload(position, speed, acc));
    }

    /** The position command as a registered write, to be triggered later by RegAction. */
    method RegWritePosEx(id: int, position: int, speed: int, acc: int) returns (comm: int, error: int)
      modifies this
      ensures log == old(log) + [RegWriteTx(id, Acc, PosExPayload(position, speed, acc))]
      ensures comm == ReplyOf(replies, |old(log)|).comm && error == ReplyOf(replies, |old(log)|).error
    {
      var r := Transact(RegWriteTx(id, Acc, PosExPayload(position, speed, acc)));
      comm, error := r.comm, r.error;
    }

    /** Triggers every registered write: one action transaction to the broadcast address. */
    method RegAction() returns (comm: int)
      modifies this
      ensures log == old(log) + [ActionTx(BroadcastId)]
      ensures comm == ReplyOf(replies, |old(log)|).comm
    {
      var r := Transact(ActionTx(BroadcastId));
      comm := r.comm;
    }

    method WheelMode(id: int) returns (comm: int, error: int)
      modifies this
      ensures log == old(log) + [Write1Tx(id, Mode, 1)]
      ensures comm == ReplyOf(replies, |old(log)|).comm && error == ReplyOf(replies, |old(log)|).error
    {
      comm, error := Write1ByteTxRx(id, Mode, 1);
    }

    /** The speed command: one write of the 7-byte block, goal position zero, speed in sign-magnitude. */
    method WriteSpec(id: int, speed: int, acc: int) returns (comm: int, error: int)
      modifies this
      ensures log == old(log) + [WriteTx(id, Acc, SpecPayload(speed, acc))]
      ensures comm == ReplyOf(replies, |old(log)|).comm && error == ReplyOf(replies, |old(log)|).error
    {
      var r := Transact(WriteTx(id, Acc, SpecPayload(speed, acc)));
      comm, error := r.comm, r.error;
    }

    method LockEprom(id: int) returns (comm: int, error: int)
      modifies this
      ensures log == old(log) + [Write1Tx(id, Lock, 1)]
      ensures comm == ReplyOf(replies, |old(log)|).comm && error == ReplyOf(replies, |old(log)|).error
    {
      comm, error := Write1ByteTxRx(id, Lock, 1);
    }

    method UnlockEprom(id: int) returns (comm: int, error: int)
      modifies this
      ensures log == old(log) + [Write1Tx(id, Lock, 0)]
      ensures comm == ReplyOf(replies, |old(log)|).comm && error == ReplyOf(replies, |old(log)|).error
    {
      comm, error := Write1ByteTxRx(id, Lock, 0);
    }
  }
}
