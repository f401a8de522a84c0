/**
 * The motor facade: a policy-free aggregator over the SMS/STS command layer.
 * It pings, reads a whole motor state, reads positions of several motors and
 * sends positions to several motors, one bus transaction at a time, never
 * retrying and never stopping a loop early on a failure.
 */
module Motors {
  import opened ScsHelpers
  import opened Bus
  import opened SmsSts

  /** Speed and acceleration used when a caller does not give them. */
  const MovingSpeed: int := 800
  const MovingAcc: int := 25

  datatype Option<T> = None | Some(value: T)

  /**
   * A snapshot of one motor. Voltages are kept in the raw tenths of a volt
   * the device reports.
   */
  datatype MotorState = MotorState(
    id: int,
    modelNumber: int,
    minVoltageLimit: int,
    maxVoltageLimit: int,
    maxTemperature: int,
    minAngleLimit: int,
    maxAngleLimit: int,
    currentPosition: int,
    currentTemperature: int,
    currentVoltage: int)

  /**
   * The transactions GetMotorState issues when its ping is the k-th
   * transaction on the bus. A failed ping is the only transaction; otherwise
   * the sub-reads follow in a fixed order, the minimum-voltage read being
   * skipped when the maximum-voltage read (transaction k + 2) failed.
   */
  function StateTxns(id: int, replies: seq<Reply>, k: nat): (r: seq<Txn>)
    ensures |r| >= 1 && r[0] == PingTx(id)
    ensures |r| == 1 <==> !Succeeded(ReplyOf(replies, k))
  {
    if !Succeeded(ReplyOf(replies, k)) then
      [PingTx(id)]
    else
      [PingTx(id), ReadTx(id, PresentVoltage, 1)]
      + VoltageLimitsTxns(id, Succeeded(ReplyOf(replies, k + 2)))
      + StateTailTxns(id)
  }

  /** The reads that close GetMotorState, whatever the voltage-limit read did. */
  function StateTailTxns(id: int): seq<Txn>
  {
    [ReadTx(id, MaxTempLimit, 1), ReadTx(id, PresentTemperature, 1), ReadTx(id, PresentPositionL, 2),
     ReadTx(id, MinAngleLimitL, 2), ReadTx(id, MaxAngleLimitL, 2)]
  }

  /** Reading a state never writes: every transaction is a ping or a read addressed to the motor. */
  lemma StateReadsOnly(id: int, replies: seq<Reply>, k: nat)
    ensures var txns := StateTxns(id, replies, k);
      forall i :: 0 <= i < |txns| ==> txns[i].id == id && (txns[i].PingTx? || txns[i].ReadTx?)
  {
  }

  /**
   * The state GetMotorState returns when its ping is the k-th transaction.
   * It is None exactly when the ping fails; otherwise it carries the motor's
   * id and the model number the ping returned, whatever the later sub-reads
   * did.
   */
  function StateResult(id: int, replies: seq<Reply>, k: nat): (r: Option<MotorState>)
    ensures r.None? <==> !Succeeded(ReplyOf(replies, k))
    ensures r.Some? ==> r.value.id == id && r.value.modelNumber == ReplyOf(replies, k).value
    ensures r.Some? ==>
      0 <= r.value.currentVoltage < 256 && 0 <= r.value.minVoltageLimit < 256 && 0 <= r.value.maxVoltageLimit < 256 &&
      0 <= r.value.maxTemperature < 256 && 0 <= r.value.currentTemperature < 256
    ensures r.Some? ==>
      -32767 <= r.value.currentPosition <= 32767 &&
      -32767 <= r.value.minAngleLimit <= 32767 && -32767 <= r.value.maxAngleLimit <= 32767
  {
    var ping := ReplyOf(replies, k);
    if !Succeeded(ping) then
      None
    else
      var limitsRead := Succeeded(ReplyOf(replies, k + 2));
      var d := if limitsRead then 1 else 0;
      Some(MotorState(
        id := id,
        modelNumber := ping.value,
        minVoltageLimit := if limitsRead then ToHost(ReadValue(ReplyOf(replies, k + 3), 1)) else 0,
        maxVoltageLimit := if limitsRead then ToHost(ReadValue(ReplyOf(replies, k + 2), 1)) else 0,
        maxTemperature := ToHost(ReadValue(ReplyOf(replies, k + 3 + d), 1)),
        minAngleLimit := ToHost(ReadValue(ReplyOf(replies, k + 6 + d), 2)),
        maxAngleLimit := ToHost(ReadValue(ReplyOf(replies, k + 7 + d), 2)),
        currentPosition := ToHost(ReadValue(ReplyOf(replies, k + 5 + d), 2)),
        currentTemperature := ToHost(ReadValue(ReplyOf(replies, k + 4 + d), 1)),
        currentVoltage := ToHost(ReadValue(ReplyOf(replies, k + 1), 1))))
  }

  /**
   * Read t is among txns (the first being the k-th on the bus) and its reply,
   * kept to the read's width, decodes to v.
   */
  ghost predicate DecodedFrom(txns: seq<Txn>, replies: seq<Reply>, k: nat, t: Txn, v: int)
  {
    t.ReadTx? && exists i :: 0 <= i < |txns| && txns[i] == t && v == ToHost(ReadValue(ReplyOf(replies, k + i), t.width))
  }

  /**
   * Each field of a state that GetMotorState returns comes from the reply to
   * the read of its own register. When the maximum-voltage read failed, both
   * voltage limits are zero and the minimum-voltage register was not read.
   */
  lemma StateFieldsFromTheirReads(id: int, replies: seq<Reply>, k: nat)
    requires Succeeded(ReplyOf(replies, k))
    ensures var txns, s := StateTxns(id, replies, k), StateResult(id, replies, k).value;
      DecodedFrom(txns, replies, k, ReadTx(id, PresentVoltage, 1), s.currentVoltage) &&
      DecodedFrom(txns, replies, k, ReadTx(id, MaxTempLimit, 1), s.maxTemperature) &&
      DecodedFrom(txns, replies, k, ReadTx(id, PresentTemperature, 1), s.currentTemperature) &&
      DecodedFrom(txns, replies, k, ReadTx(id, PresentPositionL, 2), s.currentPosition) &&
      DecodedFrom(txns, replies, k, ReadTx(id, MinAngleLimitL, 2), s.minAngleLimit) &&
      DecodedFrom(txns, replies, k, ReadTx(id, MaxAngleLimitL, 2), s.maxAngleLimit)
    ensures var txns, s := StateTxns(id, replies, k), StateResult(id, replies, k).value;
      Succeeded(ReplyOf(replies, k + 2)) ==>
        DecodedFrom(txns, replies, k, ReadTx(id, MaxInputVoltage, 1), s.maxVoltageLimit) &&
        DecodedFrom(txns, replies, k, ReadTx(id, MinInputVoltage, 1), s.minVoltageLimit)
    ensures var txns, s := StateTxns(id, replies, k), StateResult(id, replies, k).value;
      !Succeeded(ReplyOf(replies, k + 2)) ==>
        s.maxVoltageLimit == 0 && s.minVoltageLimit == 0 && ReadTx(id, MinInputVoltage, 1) !in txns
  {
    var txns, s := StateTxns(id, replies, k), StateResult(id, replies, k).value;
    var d := if Succeeded(ReplyOf(replies, k + 2)) then 1 else 0;
    assert txns[1] == ReadTx(id, PresentVoltage, 1);
    assert txns[3 + d] == ReadTx(id, MaxTempLimit, 1);
    assert txns[4 + d] == ReadTx(id, PresentTemperature, 1);
    assert txns[5 + d] == ReadTx(id, PresentPositionL, 2);
    assert txns[6 + d] == ReadTx(id, MinAngleLimitL, 2);
    assert txns[7 + d] == ReadTx(id, MaxAngleLimitL, 2);
    if d == 1 {
      assert txns[2] == ReadTx(id, MaxInputVoltage, 1);
      assert txns[3] == ReadTx(id, MinInputVoltage, 1);
    } else {
      assert |txns| == 8;
      forall i | 0 <= i < |txns| ensures txns[i] != ReadTx(id, MinInputVoltage, 1) {
        assert txns[i].PingTx? || txns[i].address != MinInputVoltage;
      }
    }
  }

  /** One present-position read per id, in list order. */
  function PositionReads(ids: seq<int>): (r: seq<Txn>)
    ensures |r| == |ids|
    ensures forall i :: 0 <= i < |ids| ==> r[i] == ReadTx(ids[i], PresentPositionL, 2)
  {
    if ids == [] then [] else PositionReads(ids[..|ids| - 1]) + [ReadTx(ids[|ids| - 1], PresentPositionL, 2)]
  }

  /**
   * The map GetMotorPositions builds when its first read is the k-th
   * transaction: each successful read stores its decoded position under its
   * id, a later successful read of the same id overwriting an earlier one,
   * and a failed read changes nothing.
   */
  function CollectPositions(ids: seq<int>, replies: seq<Reply>, k: nat): (m: map<int, int>)
    ensures forall id :: id in m ==> id in ids && -32767 <= m[id] <= 32767
  {
    if ids == [] then
      map[]
    else
      var n := |ids| - 1;
      var m := CollectPositions(ids[..n], replies, k);
      var r := ReplyOf(replies, k + n);
      if Succeeded(r) then m[ids[n] := ToHost(ReadValue(r, 2))] else m
  }

  /** The ids in the collected map are exactly those with at least one successful read. */
  lemma {:induction false} CollectedKeys(ids: seq<int>, replies: seq<Reply>, k: nat)
    ensures forall id :: id in CollectPositions(ids, replies, k) <==>
      exists i :: 0 <= i < |ids| && ids[i] == id && Succeeded(ReplyOf(replies, k + i))
  {
    if ids != [] {
      var n := |ids| - 1;
      CollectedKeys(ids[..n], replies, k);
      forall id
        ensures id in CollectPositions(ids, replies, k) <==>
          exists i :: 0 <= i < |ids| && ids[i] == id && Succeeded(ReplyOf(replies, k + i))
      {
        if id in CollectPositions(ids, replies, k) && !(id == ids[n] && Succeeded(ReplyOf(replies, k + n))) {
          assert id in CollectPositions(ids[..n], replies, k);
          var i :| 0 <= i < n && ids[..n][i] == id && Succeeded(ReplyOf(replies, k + i));
          assert ids[i] == id;
        }
        if exists i :: 0 <= i < |ids| && ids[i] == id && Succeeded(ReplyOf(replies, k + i)) {
          var i :| 0 <= i < |ids| && ids[i] == id && Succeeded(ReplyOf(replies, k + i));
          if i < n {
            assert ids[..n][i] == id;
          }
        }
      }
    }
  }

  /**
   * The position stored for an id is the one decoded from its last
   * successful read; in particular, with distinct ids every successful read
   * is kept.
   */
  lemma {:induction false} CollectedValue(ids: seq<int>, replies: seq<Reply>, k: nat, i: nat)
    requires i < |ids| && Succeeded(ReplyOf(replies, k + i))
    requires forall j :: i < j < |ids| && ids[j] == ids[i] ==> !Succeeded(ReplyOf(replies, k + j))
    ensures ids[i] in CollectPositions(ids, replies, k)
    ensures CollectPositions(ids, replies, k)[ids[i]] == ToHost(ReadValue(ReplyOf(replies, k + i), 2))
  {
    var n := |ids| - 1;
    var prefix := ids[..n];
    var m, r := CollectPositions(prefix, replies, k), ReplyOf(replies, k + n);
    if i < n {
      assert forall j :: i < j < n ==> prefix[j] == ids[j];
      CollectedValue(prefix, replies, k, i);
      if Succeeded(r) {
        assert ids[n] != prefix[i];
        assert CollectPositions(ids, replies, k) == m[ids[n] := ToHost(ReadValue(r, 2))];
      } else {
        assert CollectPositions(ids, replies, k) == m;
      }
    } else {
      assert CollectPositions(ids, replies, k) == m[ids[n] := ToHost(ReadValue(r, 2))];
    }
  }

  /** One position command per item, in item order, all with the same speed and acceleration. */
  function PositionWrites(items: seq<(int, int)>, speed: int, acc: int): (r: seq<Txn>)
    ensures |r| == |items|
    ensures forall i :: 0 <= i < |items| ==> r[i] == WriteTx(items[i].0, Acc, PosExPayload(items[i].1, speed, acc))
  {
    if items == [] then
      []
    else
      var n := |items| - 1;
      PositionWrites(items[..n], speed, acc) + [WriteTx(items[n].0, Acc, PosExPayload(items[n].1, speed, acc))]
  }

  /** The facade over one packet handler, which owns the bus. */
  class MotorCommunicator {
    const packetHandler: PacketHandler

    constructor (replies: seq<Reply>)
      ensures fresh(packetHandler) && packetHandler.Valid()
      ensures packetHandler.replies == replies && packetHandler.log == []
    {
      packetHandler := new PacketHandler(replies);
    }

    /** True exactly when the ping succeeds; one ping is the only transaction. */
    method IsOnline(id: int) returns (online: bool)
      modifies packetHandler
      ensures packetHandler.log == old(packetHandler.log) + [PingTx(id)]
      ensures online <==> Succeeded(ReplyOf(packetHandler.replies, |old(packetHandler.log)|))
    {
      var _, comm, _ := packetHandler.Ping(id);
      online := comm == CommSuccess;
    }

    /**
     * The last five sub-reads of GetMotorState, in its order: temperature
     * limit, temperature, position, then both angle limits.
     */
    method ReadTemperaturesAndAngles(id: int) returns (maxTemp: int, temp: int, pos: int, minAngle: int, maxAngle: int)
      modifies packetHandler
      ensures packetHandler.log == old(packetHandler.log) + StateTailTxns(id)
      ensures var replies, j := packetHandler.replies, |old(packetHandler.log)|;
        maxTemp == ToHost(ReadValue(ReplyOf(replies, j), 1)) && temp == ToHost(ReadValue(ReplyOf(replies, j + 1), 1)) &&
        pos == ToHost(ReadValue(ReplyOf(replies, j + 2), 2)) && minAngle == ToHost(ReadValue(ReplyOf(replies, j + 3), 2)) &&
        maxAngle == ToHost(ReadValue(ReplyOf(replies, j + 4), 2))
    {
      var comm, error;
      maxTemp, comm, error := packetHandler.ReadTemperatureLimit(id);
      temp, comm, error := packetHandler.ReadTemperature(id);
      pos, comm, error := packetHandler.ReadPos(id);
      minAngle, maxAngle, comm, error := packetHandler.ReadMotorLimits(id);
    }

    method GetMotorState(id: int) returns (state: Option<MotorState>)
      modifies packetHandler
      ensures packetHandler.log == old(packetHandler.log) + StateTxns(id, packetHandler.replies, |old(packetHandler.log)|)
      ensures state == StateResult(id, packetHandler.replies, |old(packetHandler.log)|)
    {
      ghost var k, replies := |packetHandler.log|, packetHandler.replies;
      var modelNumber, comm, error := packetHandler.Ping(id);
      if comm != CommSuccess {
        return None;
      }
      var voltage, maxVoltage, minVoltage, maxTemp, temp, pos, minAngle, maxAngle;
      voltage, comm, error := packetHandler.ReadVoltage(id);
      maxVoltage, minVoltage, comm, error := packetHandler.ReadVoltageLimits(id);
      maxTemp, temp, pos, minAngle, maxAngle := ReadTemperaturesAndAngles(id);
      state := Some(MotorState(
        id := id,
        modelNumber := modelNumber,
        minVoltageLimit := minVoltage,
        maxVoltageLimit := maxVoltage,
        maxTemperature := maxTemp,
        minAngleLimit := minAngle,
        maxAngleLimit := maxAngle,
        currentPosition := pos,
        currentTemperature := temp,
        currentVoltage := voltage));
    }

    /** Reads each id's position in list order; a failed read is skipped and never stops the loop. */
    method GetMotorPositions(ids: seq<int>) returns (positions: map<int, int>)
      modifies packetHandler
      ensures packetHandler.log == old(packetHandler.log) + PositionReads(ids)
      ensures positions == CollectPositions(ids, packetHandler.replies, |old(packetHandler.log)|)
    {
      ghost var k := |packetHandler.log|;
      positions := map[];
      for i := 0 to |ids|
        invariant packetHandler.log == old(packetHandler.log) + PositionReads(ids[..i])
        invariant positions == CollectPositions(ids[..i], packetHandler.replies, k)
      {
        assert ids[..i + 1][..i] == ids[..i];
        var pos, comm, error := packetHandler.ReadPos(ids[i]);
        if comm != CommSuccess {
          continue;
        }
        positions := positions[ids[i] := pos];
      }
      assert ids[..|ids|] == ids;
    }

    /**
     * Sends one position command per item, in iteration order, all with the
     * same speed and acceleration; a failed write does not stop the rest.
     * The items are the position map's entries in its iteration order.
     */
    method SendMotorPositions(positions: seq<(int, int)>, speed: int := MovingSpeed, acc: int := MovingAcc)
      modifies packetHandler
      ensures packetHandler.log == old(packetHandler.log) + PositionWrites(positions, speed, acc)
    {
      for i := 0 to |positions|
        invariant packetHandler.log == old(packetHandler.log) + PositionWrites(positions[..i], speed, acc)
      {
        assert positions[..i + 1][..i] == positions[..i];
        var comm, error := packetHandler.WritePosEx(positions[i].0, positions[i].1, speed, acc);
      }
      assert positions[..|positions|] == positions;
    }
  }

  /** A caller that gives neither speed nor acceleration sends every command with speed 800 and acceleration 25. */
  method SendWithDefaults(m: MotorCommunicator, positions: seq<(int, int)>)
    modifies m.packetHandler
    ensures m.packetHandler.log == old(m.packetHandler.log) + PositionWrites(positions, 800, 25)
  {
    m.SendMotorPositions(positions);
  }
}
