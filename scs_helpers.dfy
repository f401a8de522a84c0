/**
 * Byte and sign helpers of the vendor protocol handler that the SMS/STS
 * command layer inherits (scs_lobyte, scs_hibyte, scs_loword, scs_hiword,
 * scs_makeword, scs_makedword, scs_tohost, scs_toscs).
 *
 * ASSUMPTION: the protocol handler's source is not part of this model. The
 * definitions below are what the command layer relies on: the handler is
 * built little-endian (end = 0), and signed register values use
 * sign-magnitude with bit 15 as the sign flag. Python's `& 0xFF` and `>> 8`
 * on unbounded integers agree with Dafny's Euclidean `%` and `/` by a
 * positive constant, also for negative arguments.
 */
module ScsHelpers {

  /** Low byte of a word: w & 0xFF. */
  function LoByte(w: int): (b: int)
    ensures 0 <= b < 256
  {
    w % 256
  }

  /** High byte of a word: (w >> 8) & 0xFF. */
  function HiByte(w: int): (b: int)
    ensures 0 <= b < 256
  {
    (w / 256) % 256
  }

  /** Low 16-bit word of a double word: l & 0xFFFF. */
  function LoWord(l: int): (r: int)
    ensures 0 <= r < 65536
  {
    l % 65536
  }

  /** High 16-bit word of a double word: (h >> 16) & 0xFFFF. */
  function HiWord(h: int): (r: int)
    ensures 0 <= r < 65536
  {
    (h / 65536) % 65536
  }

  /** A word from its low and high byte, as the device stores it at two consecutive registers. */
  function MakeWord(lo: int, hi: int): (w: int)
    ensures 0 <= w < 65536
  {
    lo % 256 + 256 * (hi % 256)
  }

  /** A double word from its low and high 16-bit words. */
  function MakeDWord(lo: int, hi: int): (d: int)
    ensures 0 <= d < 65536 * 65536
  {
    lo % 65536 + 65536 * (hi % 65536)
  }

  /** If 0 <= c < 2^16 then (2^16 * a + c) splits back into a and c. */
  lemma DivModWord(a: int, c: int)
    requires 0 <= c < 65536
    ensures (65536 * a + c) % 65536 == c && (65536 * a + c) / 65536 == a
  {
    var n := 65536 * a + c;
    var q, r := n / 65536, n % 65536;
    assert 65536 * (q - a) == c - r;
  }

  /** A value already in 16 bits is its own low word. */
  lemma SmallWord(x: int)
    requires 0 <= x < 65536
    ensures x % 65536 == x
  {
  }

  /** Splitting a word into bytes and putting them back gives the word modulo 2^16. */
  lemma ByteSplit(w: int)
    ensures MakeWord(LoByte(w), HiByte(w)) == w % 65536
  {
    var q, r := w / 256, w % 256;
    var a, b := q / 256, q % 256;
    assert w == 65536 * a + (256 * b + r);
    DivModWord(a, 256 * b + r);
  }

  /** Joining two bytes and splitting the word again gives both bytes back modulo 2^8. */
  lemma WordJoin(lo: int, hi: int)
    ensures LoByte(MakeWord(lo, hi)) == lo % 256
    ensures HiByte(MakeWord(lo, hi)) == hi % 256
  {
    var a, c := lo % 256, hi % 256;
    var w := a + 256 * c;
    var q, r := w / 256, w % 256;
    assert 256 * (q - c) == a - r;
  }

  /** Splitting a double word into words recovers both words modulo 2^16. */
  lemma WordSplit(lo: int, hi: int)
    ensures LoWord(MakeDWord(lo, hi)) == lo % 65536
    ensures HiWord(MakeDWord(lo, hi)) == hi % 65536
  {
    var n := MakeDWord(lo, hi);
    DivModWord(hi % 65536, lo % 65536);
    assert n / 65536 == hi % 65536;
  }

  /** Bit 15, the sign flag of a sign-magnitude register value. */
  predicate SignBit(x: nat)
  {
    (x / 32768) % 2 == 1
  }

  /**
   * Device to host (scs_tohost with bit 15): a set sign bit is cleared and the
   * magnitude negated. Every raw 16-bit value decodes into [-32767, 32767], and
   * a decoded value is negative only when the sign bit was set.
   */
  function ToHost(raw: nat): (v: int)
    ensures raw < 65536 ==> -32767 <= v <= 32767
    ensures v < 0 ==> SignBit(raw)
    ensures !SignBit(raw) ==> v == raw
  {
    if SignBit(raw) then -(raw - 32768) else raw
  }

  /**
   * Host to device (scs_toscs with bit 15): a negative value becomes its
   * magnitude with bit 15 or-ed in. Over [-32767, 32767] this is the inverse of
   * ToHost, fits in 16 bits, and zero encodes as zero.
   */
  function ToScs(v: int): (raw: nat)
    ensures -32767 <= v <= 32767 ==> raw < 65536 && ToHost(raw) == v
    ensures -32767 <= v <= 32767 ==> (SignBit(raw) <==> v < 0)
    ensures v == 0 ==> raw == 0
  {
    if v < 0 then
      (if SignBit(-v) then -v else -v + 32768)
    else
      v
  }

  /**
   * The other direction of the round trip: every 16-bit raw value except the
   * "negative zero" 0x8000 is re-encoded to itself.
   */
  lemma HostRoundTrip(raw: nat)
    requires raw < 65536 && raw != 32768
    ensures ToScs(ToHost(raw)) == raw
  {
    if SignBit(raw) {
      assert 32768 <= raw;
      var m := raw - 32768;
      assert 0 < m < 32768;
      assert !SignBit(m);
    } else {
      assert raw < 32768;
    }
  }

  /** 0x8000 decodes to 0, so the negative zero does not survive a round trip. */
  lemma NegativeZero()
    ensures ToHost(32768) == 0 && ToScs(0) == 0
  {
  }
}
