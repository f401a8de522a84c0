/**
 * The servo bus as the command layer sees it: every call of the protocol
 * handler's request/response engine is one transaction, recorded in a log,
 * and its outcome comes from an oracle fixed in advance (the device replies).
 * Packet framing, the checksum and the serial port are not part of this model.
 */
module Bus {

  /** Outcome codes and the broadcast address of the vendor protocol (assumed; its definitions module is not part of this model). */
  const CommSuccess: int := 0
  const CommRxTimeout: int := -6
  const BroadcastId: int := 254

  /**
   * The outcome of one transaction: the communication result, the device's
   * error byte, and the value read (the model number for a ping, the raw
   * unsigned register contents for a read, unused for a write).
   */
  datatype Reply = Reply(comm: int, error: int, value: nat)

  /** One bus transaction, as issued by the command layer. */
  datatype Txn =
    | PingTx(id: int)
    | ReadTx(id: int, address: int, width: nat)
    | Write1Tx(id: int, address: int, value: int)
    | WriteTx(id: int, address: int, data: seq<int>)
    | RegWriteTx(id: int, address: int, data: seq<int>)
    | ActionTx(id: int)

  predicate Succeeded(r: Reply)
  {
    r.comm == CommSuccess
  }

  /** 256 to the power width: one more than the largest value a read of width bytes can return. */
  function Pow256(width: nat): (p: nat)
    ensures p > 0
  {
    if width == 0 then 1 else 256 * Pow256(width - 1)
  }

  /**
   * The register contents a read of `width` bytes returns: the reply kept to
   * that many bytes, low byte first. A reply that already fits is unchanged.
   */
  function ReadValue(r: Reply, width: nat): (v: nat)
    ensures v < Pow256(width)
    ensures r.value < Pow256(width) ==> v == r.value
  {
    var p := Pow256(width);
    SmallMod(r.value, p);
    r.value % p
  }

  /** A value below the modulus is its own remainder. */
  lemma SmallMod(x: nat, p: nat)
    requires p > 0
    ensures x < p ==> x % p == x
  {
  }

  /**
   * The outcome of the k-th transaction on the bus. Past the end of the
   * oracle the bus stays silent and every transaction times out.
   */
  function ReplyOf(replies: seq<Reply>, k: nat): (r: Reply)
    ensures k >= |replies| ==> !Succeeded(r)
  {
    if k < |replies| then replies[k] else Reply(CommRxTimeout, 0, 0)
  }
}
