/**
 * The SBUS frame as this transmitter builds it and as its monitors read it.
 *
 * A frame is 25 bytes: the header 0x0F, 22 bytes holding the 16 channels as
 * consecutive 11-bit little-endian fields (channel 1 first), a flag byte and a
 * footer, both always 0 here. The encoder is written out byte by byte with
 * shifts and masks; the decoder reads back only the first 12 channels and
 * never looks at the header, flag or footer.
 */
module SbusCodec {
  import opened PyBits
  import opened BitStream

  const FrameLength: nat := 25
  const HeaderByte: int := 0x0F
  const ChannelCount: nat := 16
  /** The decoders reconstruct only channels 1-12. */
  const DecodedCount: nat := 12
  const ChannelBits: nat := 11
  /** Bytes 1-22: 16 channels of 11 bits. */
  const PayloadLength: nat := 22

  /** What a serial read yields: values 0-255. */
  type Byte = x: int | 0 <= x < 256

  datatype Option<T> = None | Some(value: T)

  /**
   * The 25 values `convert_data` stores into the `data` buffer for the
   * channel vector `c`, byte for byte as the source computes them.
   */
  function EncodeFrame(c: seq<int>): (frame: seq<int>)
    requires |c| == ChannelCount
    ensures |frame| == FrameLength
  {
    [ HeaderByte,
      And(c[0], 0xFF),
      Or(And(Shr(c[0], 8), 0x07), Shl(And(c[1], 0x1F), 3)),
      Or(And(Shr(c[1], 5), 0x3F), Shl(And(c[2], 0x03), 6)),
      And(Shr(c[2], 2), 0xFF),
      Or(And(Shr(c[2], 10), 0x01), Shl(And(c[3], 0x7F), 1)),
      Or(And(Shr(c[3], 7), 0x0F), Shl(And(c[4], 0x0F), 4)),
      Or(And(Shr(c[4], 4), 0x7F), Shl(And(c[5], 0x01), 7)),
      And(Shr(c[5], 1), 0xFF),
      Or(And(Shr(c[5], 9), 0x03), Shl(And(c[6], 0x3F), 2)),
      Or(And(Shr(c[6], 6), 0x1F), Shl(And(c[7], 0x07), 5)),
      And(Shr(c[7], 3), 0xFF),
      And(c[8], 0xFF),
      Or(And(Shr(c[8], 8), 0x07), Shl(And(c[9], 0x1F), 3)),
      Or(And(Shr(c[9], 5), 0x3F), Shl(And(c[10], 0x03), 6)),
      And(Shr(c[10], 2), 0xFF),
      Or(And(Shr(c[10], 10), 0x01), Shl(And(c[11], 0x7F), 1)),
      Or(And(Shr(c[11], 7), 0x0F), Shl(And(c[12], 0x0F), 4)),
      Or(And(Shr(c[12], 4), 0x7F), Shl(And(c[13], 0x01), 7)),
      And(Shr(c[13], 1), 0xFF),
      Or(And(Shr(c[13], 9), 0x03), Shl(And(c[14], 0x3F), 2)),
      Or(And(Shr(c[14], 6), 0x1F), Shl(And(c[15], 0x07), 5)),
      And(Shr(c[15], 3), 0xFF),
      0x00,
      0x00 ]
  }

  /**
   * `decode_sbus_data`: `None` for fewer than 25 bytes, otherwise channels
   * 1-12, each reassembled from two or three bytes and masked to 11 bits.
   */
  function DecodeSbusData(data: seq<Byte>): (r: Option<seq<int>>)
    ensures r.None? <==> |data| < FrameLength
    ensures r.Some? ==> |r.value| == DecodedCount
    ensures r.Some? ==> forall i :: 0 <= i < |r.value| ==> 0 <= r.value[i] < 2048
  {
    if |data| < FrameLength then None
    else
      var d := data;
      Some([
        And(Or(d[1], Shl(d[2], 8)), 0x07FF),
        And(Or(Shr(d[2], 3), Shl(d[3], 5)), 0x07FF),
        And(Or(Or(Shr(d[3], 6), Shl(d[4], 2)), Shl(d[5], 10)), 0x07FF),
        And(Or(Shr(d[5], 1), Shl(d[6], 7)), 0x07FF),
        And(Or(Shr(d[6], 4), Shl(d[7], 4)), 0x07FF),
        And(Or(Or(Shr(d[7], 7), Shl(d[8], 1)), Shl(d[9], 9)), 0x07FF),
        And(Or(Shr(d[9], 2), Shl(d[10], 6)), 0x07FF),
        And(Or(Shr(d[10], 5), Shl(d[11], 3)), 0x07FF),
        And(Or(d[12], Shl(d[13], 8)), 0x07FF),
        And(Or(Shr(d[13], 3), Shl(d[14], 5)), 0x07FF),
        And(Or(Or(Shr(d[14], 6), Shl(d[15], 2)), Shl(d[16], 10)), 0x07FF),
        And(Or(Shr(d[16], 1), Shl(d[17], 7)), 0x07FF)
      ])
  }

  // ---------------------------------------------------------------------
  // The generic packing the hand-written formulas implement
  // ---------------------------------------------------------------------

  /** Byte `b` of the payload as a generic bit writer produces it: stream bits 8b .. 8b+7 of the channels. */
  function PackedByte(c: seq<int>, b: nat): (v: nat)
    requires |c| == ChannelCount && b < PayloadLength
  {
    Value(Stream(c, ChannelBits)[8 * b .. 8 * b + 8])
  }

  /** Channel `j` as a generic bit reader finds it: the 11 payload bits from bit 11j on. */
  function ReadField(data: seq<Byte>, j: nat): (v: nat)
    requires |data| >= FrameLength && j < DecodedCount
  {
    Value(Stream(data[1..1 + PayloadLength], 8)[11 * j .. 11 * j + 11])
  }

  lemma {:induction false} ValueBound(bits: seq<bool>)
    ensures Value(bits) < Pow2(|bits|)
  {
    if bits != [] {
      ValueBound(bits[1..]);
    }
  }

  /** Payload byte `b`, lying inside channel `i` from bit `k` of it, is `(c[i] >> k) & 0xFF`. */
  lemma OneChannelByte(c: seq<int>, b: nat, i: nat, k: nat)
    requires i < |c| == ChannelCount && k + 8 <= ChannelBits
    requires b < PayloadLength && 8 * b == 11 * i + k
    ensures And(Shr(c[i], k), 0xFF) == PackedByte(c, b)
  {
    SliceValue(c, ChannelBits, i, k, 8, 8 * b, 8 * b + 8);
  }

  /** Payload byte `b`, the low byte of channel `i`, is `c[i] & 0xFF`. */
  lemma LowChannelByte(c: seq<int>, b: nat, i: nat)
    requires i < |c| == ChannelCount
    requires b < PayloadLength && 8 * b == 11 * i
    ensures And(c[i], 0xFF) == PackedByte(c, b)
  {
    SliceValue(c, ChannelBits, i, 0, 8, 8 * b, 8 * b + 8);
    ShrZero(c[i]);
    Pow2Table();
  }

  /**
   * Payload byte `b`, holding the top `w` bits of channel `i` and the low
   * `8 - w` bits of channel `i + 1`, is `((c[i] >> k) & lo) | ((c[i + 1] & hi) << w)`.
   */
  lemma TwoChannelByte(c: seq<int>, b: nat, i: nat, k: nat, w: nat, lo: nat, hi: nat)
    requires i + 1 < |c| == ChannelCount && 0 < w < 8 && k + w == ChannelBits
    requires IsLowMask(lo) && lo + 1 == Pow2(w) && IsLowMask(hi) && hi + 1 == Pow2(8 - w)
    requires b < PayloadLength && 8 * b == 11 * i + k
    ensures Or(And(Shr(c[i], k), lo), Shl(And(c[i + 1], hi), w)) == PackedByte(c, b)
  {
    var a, mid, e := 8 * b, 8 * b + w, 8 * b + 8;
    SliceValue(c, ChannelBits, i, k, w, a, mid);
    SliceValue(c, ChannelBits, i + 1, 0, 8 - w, mid, e);
    JoinFields(Stream(c, ChannelBits), a, mid, e, w, And(Shr(c[i], k), lo), And(c[i + 1], hi));
  }

  /** Two adjacent stretches of a bit string, the first `w` bits long, or-ed together at their offsets. */
  lemma JoinFields(s: seq<bool>, a: nat, mid: nat, e: nat, w: nat, x: nat, y: nat)
    requires mid == a + w && a <= mid <= e <= |s| && x < Pow2(w)
    requires Value(s[a .. mid]) == x && Value(s[mid .. e]) == y
    ensures Or(x, Shl(y, w)) == Value(s[a .. e])
  {
    SliceValueSplit(s, a, mid, e, w);
    assert Value(s[a .. e]) == x + Pow2(w) * y;
    OrDisjoint(x, y, w);
    assert Or(x, Shl(y, w)) == x + y * Pow2(w);
  }

  /** Byte `1 + b` of the frame is payload byte `b` of the generic packing. */
  lemma EncodedByteIsPacked(c: seq<int>, b: nat)
    requires |c| == ChannelCount && b < PayloadLength
    ensures EncodeFrame(c)[1 + b] == PackedByte(c, b)
  {
    if b == 0 {
      PayloadByte0(c, b);
    } else if b == 1 {
      PayloadByte1(c, b);
    } else if b == 2 {
      PayloadByte2(c, b);
    } else if b == 3 {
      PayloadByte3(c, b);
    } else if b == 4 {
      PayloadByte4(c, b);
    } else if b == 5 {
      PayloadByte5(c, b);
    } else if b == 6 {
      PayloadByte6(c, b);
    } else if b == 7 {
      PayloadByte7(c, b);
    } else if b == 8 {
      PayloadByte8(c, b);
    } else if b == 9 {
      PayloadByte9(c, b);
    } else if b == 10 {
      PayloadByte10(c, b);
    } else if b == 11 {
      PayloadByte11(c, b);
    } else if b == 12 {
      PayloadByte12(c, b);
    } else if b == 13 {
      PayloadByte13(c, b);
    } else if b == 14 {
      PayloadByte14(c, b);
    } else if b == 15 {
      PayloadByte15(c, b);
    } else if b == 16 {
      PayloadByte16(c, b);
    } else if b == 17 {
      PayloadByte17(c, b);
    } else if b == 18 {
      PayloadByte18(c, b);
    } else if b == 19 {
      PayloadByte19(c, b);
    } else if b == 20 {
      PayloadByte20(c, b);
    } else {
      PayloadByte21(c, b);
    }
  }

  lemma PayloadByte0(c: seq<int>, b: nat)
    requires |c| == ChannelCount && b == 0
    ensures EncodeFrame(c)[1 + b] == PackedByte(c, b)
  {
    Pow2Table();
    LowChannelByte(c, b, 0);
  }

  lemma PayloadByte1(c: seq<int>, b: nat)
    requires |c| == ChannelCount && b == 1
    ensures EncodeFrame(c)[1 + b] == PackedByte(c, b)
  {
    Pow2Table();
    TwoChannelByte(c, b, 0, 8, 3, 0x07, 0x1F);
  }

  lemma PayloadByte2(c: seq<int>, b: nat)
    requires |c| == ChannelCount && b == 2
    ensures EncodeFrame(c)[1 + b] == PackedByte(c, b)
  {
    Pow2Table();
    TwoChannelByte(c, b, 1, 5, 6, 0x3F, 0x03);
  }

  lemma PayloadByte3(c: seq<int>, b: nat)
    requires |c| == ChannelCount && b == 3
    ensures EncodeFrame(c)[1 + b] == PackedByte(c, b)
  {
    Pow2Table();
    OneChannelByte(c, b, 2, 2);
  }

  lemma PayloadByte4(c: seq<int>, b: nat)
    requires |c| == ChannelCount && b == 4
    ensures EncodeFrame(c)[1 + b] == PackedByte(c, b)
  {
    Pow2Table();
    TwoChannelByte(c, b, 2, 10, 1, 0x01, 0x7F);
  }

  lemma PayloadByte5(c: seq<int>, b: nat)
    requires |c| == ChannelCount && b == 5
    ensures EncodeFrame(c)[1 + b] == PackedByte(c, b)
  {
    Pow2Table();
    TwoChannelByte(c, b, 3, 7, 4, 0x0F, 0x0F);
  }

  lemma PayloadByte6(c: seq<int>, b: nat)
    requires |c| == ChannelCount && b == 6
    ensures EncodeFrame(c)[1 + b] == PackedByte(c, b)
  {
    Pow2Table();
    TwoChannelByte(c, b, 4, 4, 7, 0x7F, 0x01);
  }

  lemma PayloadByte7(c: seq<int>, b: nat)
    requires |c| == ChannelCount && b == 7
    ensures EncodeFrame(c)[1 + b] == PackedByte(c, b)
  {
    Pow2Table();
    OneChannelByte(c, b, 5, 1);
  }

  lemma PayloadByte8(c: seq<int>, b: nat)
    requires |c| == ChannelCount && b == 8
    ensures EncodeFrame(c)[1 + b] == PackedByte(c, b)
  {
    Pow2Table();
    TwoChannelByte(c, b, 5, 9, 2, 0x03, 0x3F);
  }

  lemma PayloadByte9(c: seq<int>, b: nat)
    requires |c| == ChannelCount && b == 9
    ensures EncodeFrame(c)[1 + b] == PackedByte(c, b)
  {
    Pow2Table();
    TwoChannelByte(c, b, 6, 6, 5, 0x1F, 0x07);
  }

  lemma PayloadByte10(c: seq<int>, b: nat)
    requires |c| == ChannelCount && b == 10
    ensures EncodeFrame(c)[1 + b] == PackedByte(c, b)
  {
    Pow2Table();
    OneChannelByte(c, b, 7, 3);
  }

  lemma PayloadByte11(c: seq<int>, b: nat)
    requires |c| == ChannelCount && b == 11
    ensures EncodeFrame(c)[1 + b] == PackedByte(c, b)
  {
    Pow2Table();
    LowChannelByte(c, b, 8);
  }

  lemma PayloadByte12(c: seq<int>, b: nat)
    requires |c| == ChannelCount && b == 12
    ensures EncodeFrame(c)[1 + b] == PackedByte(c, b)
  {
    Pow2Table();
    TwoChannelByte(c, b, 8, 8, 3, 0x07, 0x1F);
  }

  lemma PayloadByte13(c: seq<int>, b: nat)
    requires |c| == ChannelCount && b == 13
    ensures EncodeFrame(c)[1 + b] == PackedByte(c, b)
  {
    Pow2Table();
    TwoChannelByte(c, b, 9, 5, 6, 0x3F, 0x03);
  }

  lemma PayloadByte14(c: seq<int>, b: nat)
    requires |c| == ChannelCount && b == 14
    ensures EncodeFrame(c)[1 + b] == PackedByte(c, b)
  {
    Pow2Table();
    OneChannelByte(c, b, 10, 2);
  }

  lemma PayloadByte15(c: seq<int>, b: nat)
    requires |c| == ChannelCount && b == 15
    ensures EncodeFrame(c)[1 + b] == PackedByte(c, b)
  {
    Pow2Table();
    TwoChannelByte(c, b, 10, 10, 1, 0x01, 0x7F);
  }

  lemma PayloadByte16(c: seq<int>, b: nat)
    requires |c| == ChannelCount && b == 16
    ensures EncodeFrame(c)[1 + b] == PackedByte(c, b)
  {
    Pow2Table();
    TwoChannelByte(c, b, 11, 7, 4, 0x0F, 0x0F);
  }

  lemma PayloadByte17(c: seq<int>, b: nat)
    requires |c| == ChannelCount && b == 17
    ensures EncodeFrame(c)[1 + b] == PackedByte(c, b)
  {
    Pow2Table();
    TwoChannelByte(c, b, 12, 4, 7, 0x7F, 0x01);
  }

  lemma PayloadByte18(c: seq<int>, b: nat)
    requires |c| == ChannelCount && b == 18
    ensures EncodeFrame(c)[1 + b] == PackedByte(c, b)
  {
    Pow2Table();
    OneChannelByte(c, b, 13, 1);
  }

  lemma PayloadByte19(c: seq<int>, b: nat)
    requires |c| == ChannelCount && b == 19
    ensures EncodeFrame(c)[1 + b] == PackedByte(c, b)
  {
    Pow2Table();
    TwoChannelByte(c, b, 13, 9, 2, 0x03, 0x3F);
  }

  lemma PayloadByte20(c: seq<int>, b: nat)
    requires |c| == ChannelCount && b == 20
    ensures EncodeFrame(c)[1 + b] == PackedByte(c, b)
  {
    Pow2Table();
    TwoChannelByte(c, b, 14, 6, 5, 0x1F, 0x07);
  }

  lemma PayloadByte21(c: seq<int>, b: nat)
    requires |c| == ChannelCount && b == 21
    ensures EncodeFrame(c)[1 + b] == PackedByte(c, b)
  {
    Pow2Table();
    OneChannelByte(c, b, 15, 3);
  }

  // ---------------------------------------------------------------------
  // The decoder reads the same stream back
  // ---------------------------------------------------------------------

  /** Masking `x + w * y` to `w * q` bits keeps `x` and the low part of `y`. */
  lemma MaskShifted(x: int, y: int, w: int, q: int)
    requires 0 <= x < w && q > 0
    ensures w * q > 0
    ensures (x + w * y) % (w * q) == x + w * (y % q)
  {
    var t := y / q;
    MulMonotone(1, q, w);
    MulDistributes(w, q * t, y % q);
    MulAssociates(w, q, t);
    MulMonotone(y % q, q - 1, w);
    MulDistributes(w, q, -1);
    DivModUnique(x + w * y, w * q, t, x + w * (y % q));
  }

  /** The top `8 - k` bits of a byte, shifted down: `b >> k` fits in `8 - k` bits. */
  lemma HighBitsOfByte(b: int, k: nat)
    requires 0 <= b < 256 && k <= 8
    ensures Shr(b, k) < Pow2(8 - k)
    ensures Shr(b, k) == (b / Pow2(k)) % Pow2(8 - k)
  {
    var q, w := b / Pow2(k), Pow2(8 - k);
    Pow2Add(k, 8 - k);
    Pow2Table();
    DivModNested(b, Pow2(k), w);
    DivModUnique(b, 256, 0, b);
    DivModUnique(q, w, 0, q);
  }

  /** A whole byte read from the stream is the byte. */
  lemma WholeByte(p: seq<int>, m: nat, n: nat, a: nat, e: nat)
    requires m < |p| && n <= 8 && 0 <= p[m] < 256 && a == 8 * m && e == a + n
    ensures e <= |Stream(p, 8)|
    ensures Value(Stream(p, 8)[a .. e]) == p[m] % Pow2(n)
  {
    SliceValue(p, 8, m, 0, n, a, e);
    ShrZero(p[m]);
  }

  /** Or-ing `y` in above an `n`-bit `x` and masking to 11 bits keeps the low `11 - n` bits of `y`. */
  lemma OrMask(x: nat, y: nat, n: nat, r: nat)
    requires x < Pow2(n) && n + r == ChannelBits
    ensures And(Or(x, Shl(y, n)), 0x07FF) == x + Pow2(n) * (y % Pow2(r))
  {
    OrDisjoint(x, y, n);
    Pow2Add(n, r);
    Pow2Table();
    MaskShifted(x, y, Pow2(n), Pow2(r));
  }

  /** Or-ing a byte in above an `n`-bit `x` adds it and leaves an `n + 8`-bit value. */
  lemma OrByte(x: nat, y: nat, n: nat)
    requires x < Pow2(n) && y < 256
    ensures Or(x, Shl(y, n)) == x + Pow2(n) * y < Pow2(n + 8)
  {
    OrDisjoint(x, y, n);
    Pow2Add(n, 8);
    Pow2Table();
    MulMonotone(y, 255, Pow2(n));
    MulDistributes(Pow2(n), 255, 1);
  }

  /** The bits of byte `m` from bit `k` on, read from the stream: `p[m] >> k`, which fits in `8 - k` bits. */
  lemma ByteTail(p: seq<int>, m: nat, k: nat, a: nat, e: nat)
    requires m < |p| && k <= 8 && 0 <= p[m] < 256 && a == 8 * m + k && e == 8 * m + 8
    ensures e <= |Stream(p, 8)|
    ensures Value(Stream(p, 8)[a .. e]) == Shr(p[m], k) < Pow2(8 - k)
  {
    HighBitsOfByte(p[m], k);
    SliceValue(p, 8, m, k, 8 - k, a, e);
  }

  /** Byte `m` from bit `k` on, followed by all of byte `m + 1`: `(p[m] >> k) | (p[m + 1] << (8 - k))`. */
  lemma ByteTailAndNext(p: seq<int>, m: nat, k: nat, a: nat, e: nat)
    requires m + 1 < |p| && k <= 8 && 0 <= p[m] < 256 && 0 <= p[m + 1] < 256
    requires a == 8 * m + k && e == 8 * m + 16
    ensures e <= |Stream(p, 8)|
    ensures Value(Stream(p, 8)[a .. e]) == Or(Shr(p[m], k), Shl(p[m + 1], 8 - k)) < Pow2(16 - k)
  {
    var mid := 8 * m + 8;
    ByteTail(p, m, k, a, mid);
    FullByte(p, m + 1, mid, e);
    SliceValueSplit(Stream(p, 8), a, mid, e, 8 - k);
    OrByte(Shr(p[m], k), p[m + 1], 8 - k);
  }

  /** All eight bits of byte `m`, read from the stream, are the byte. */
  lemma FullByte(p: seq<int>, m: nat, a: nat, e: nat)
    requires m < |p| && 0 <= p[m] < 256 && a == 8 * m && e == a + 8
    ensures e <= |Stream(p, 8)|
    ensures Value(Stream(p, 8)[a .. e]) == p[m]
  {
    WholeByte(p, m, 8, a, e);
    Pow2Table();
    DivModUnique(p[m], 256, 0, p[m]);
  }

  /**
   * An 11-bit field that starts at bit `k` of byte `m` and ends in byte
   * `m + 1`: `((p[m] >> k) | (p[m + 1] << (8 - k))) & 0x07FF`.
   */
  lemma TwoByteField(p: seq<int>, m: nat, k: nat, a: nat, e: nat)
    requires m + 1 < |p| && k <= 5
    requires 0 <= p[m] < 256 && 0 <= p[m + 1] < 256
    requires a == 8 * m + k && e == a + 11
    ensures e <= |Stream(p, 8)|
    ensures And(Or(Shr(p[m], k), Shl(p[m + 1], 8 - k)), 0x07FF) == Value(Stream(p, 8)[a .. e])
  {
    var mid, s := 8 * m + 8, Stream(p, 8);
    ByteTail(p, m, k, a, mid);
    WholeByte(p, m + 1, 3 + k, mid, e);
    var lo, hi, w := Shr(p[m], k), p[m + 1] % Pow2(3 + k), Pow2(8 - k);
    assert Value(s[a .. mid]) == lo && Value(s[mid .. e]) == hi;
    SliceValueSplit(s, a, mid, e, 8 - k);
    assert Value(s[a .. e]) == lo + w * hi;
    OrMask(lo, p[m + 1], 8 - k, 3 + k);
  }

  /**
   * An 11-bit field that starts at bit `k` of byte `m` and ends in byte
   * `m + 2`: `((p[m] >> k) | (p[m + 1] << (8 - k)) | (p[m + 2] << (16 - k))) & 0x07FF`.
   */
  lemma ThreeByteField(p: seq<int>, m: nat, k: nat, a: nat, e: nat)
    requires m + 2 < |p| && 5 < k < 8
    requires 0 <= p[m] < 256 && 0 <= p[m + 1] < 256 && 0 <= p[m + 2] < 256
    requires a == 8 * m + k && e == a + 11
    ensures e <= |Stream(p, 8)|
    ensures And(Or(Or(Shr(p[m], k), Shl(p[m + 1], 8 - k)), Shl(p[m + 2], 16 - k)), 0x07FF)
            == Value(Stream(p, 8)[a .. e])
  {
    var mid := 8 * m + 16;
    ByteTailAndNext(p, m, k, a, mid);
    WholeByte(p, m + 2, k - 5, mid, e);
    SliceValueSplit(Stream(p, 8), a, mid, e, 16 - k);
    OrMask(Or(Shr(p[m], k), Shl(p[m + 1], 8 - k)), p[m + 2], 16 - k, k - 5);
  }

  /** Channel `j`, starting at bit `k` of payload byte `m` and ending in the next: the decoder's two-byte formula. */
  lemma DecodedTwoByteChannel(data: seq<Byte>, j: nat, m: nat, k: nat)
    requires |data| >= FrameLength && j < DecodedCount && m + 1 < PayloadLength && k <= 5
    requires 11 * j == 8 * m + k
    ensures And(Or(Shr(data[m + 1], k), Shl(data[m + 2], 8 - k)), 0x07FF) == ReadField(data, j)
  {
    TwoByteField(data[1 .. 1 + PayloadLength], m, k, 11 * j, 11 * j + 11);
  }

  /** Channel `j`, starting at bit 0 of payload byte `m`: the decoder's unshifted two-byte formula. */
  lemma DecodedAlignedChannel(data: seq<Byte>, j: nat, m: nat)
    requires |data| >= FrameLength && j < DecodedCount && m + 1 < PayloadLength
    requires 11 * j == 8 * m
    ensures And(Or(data[m + 1], Shl(data[m + 2], 8)), 0x07FF) == ReadField(data, j)
  {
    DecodedTwoByteChannel(data, j, m, 0);
    ShrZero(data[m + 1]);
  }

  /** Channel `j`, starting at bit `k` of payload byte `m` and ending two bytes on: the decoder's three-byte formula. */
  lemma DecodedThreeByteChannel(data: seq<Byte>, j: nat, m: nat, k: nat)
    requires |data| >= FrameLength && j < DecodedCount && m + 2 < PayloadLength && 5 < k < 8
    requires 11 * j == 8 * m + k
    ensures And(Or(Or(Shr(data[m + 1], k), Shl(data[m + 2], 8 - k)), Shl(data[m + 3], 16 - k)), 0x07FF)
            == ReadField(data, j)
  {
    ThreeByteField(data[1 .. 1 + PayloadLength], m, k, 11 * j, 11 * j + 11);
  }

  // ---------------------------------------------------------------------
  // Decoding reads the fields
  // ---------------------------------------------------------------------

  /** Every channel the decoder returns is the 11-bit field a generic bit reader finds at bit 11j of the payload. */
  lemma DecodeReadsFields(data: seq<Byte>)
    requires |data| >= FrameLength
    ensures forall j :: 0 <= j < DecodedCount ==> DecodeSbusData(data).value[j] == ReadField(data, j)
  {
    forall j | 0 <= j < DecodedCount
      ensures DecodeSbusData(data).value[j] == ReadField(data, j)
    {
      if j == 0 {
        DecodedChannel0(data, j);
      } else if j == 1 {
        DecodedChannel1(data, j);
      } else if j == 2 {
        DecodedChannel2(data, j);
      } else if j == 3 {
        DecodedChannel3(data, j);
      } else if j == 4 {
        DecodedChannel4(data, j);
      } else if j == 5 {
        DecodedChannel5(data, j);
      } else if j == 6 {
        DecodedChannel6(data, j);
      } else if j == 7 {
        DecodedChannel7(data, j);
      } else if j == 8 {
        DecodedChannel8(data, j);
      } else if j == 9 {
        DecodedChannel9(data, j);
      } else if j == 10 {
        DecodedChannel10(data, j);
      } else {
        DecodedChannel11(data, j);
      }
    }
  }

  lemma DecodedChannel0(data: seq<Byte>, j: nat)
    requires |data| >= FrameLength && j == 0
    ensures DecodeSbusData(data).value[j] == ReadField(data, j)
  {
    DecodedAlignedChannel(data, j, 0);
  }

  lemma DecodedChannel1(data: seq<Byte>, j: nat)
    requires |data| >= FrameLength && j == 1
    ensures DecodeSbusData(data).value[j] == ReadField(data, j)
  {
    DecodedTwoByteChannel(data, j, 1, 3);
  }

  lemma DecodedChannel2(data: seq<Byte>, j: nat)
    requires |data| >= FrameLength && j == 2
    ensures DecodeSbusData(data).value[j] == ReadField(data, j)
  {
    DecodedThreeByteChannel(data, j, 2, 6);
  }

  lemma DecodedChannel3(data: seq<Byte>, j: nat)
    requires |data| >= FrameLength && j == 3
    ensures DecodeSbusData(data).value[j] == ReadField(data, j)
  {
    DecodedTwoByteChannel(data, j, 4, 1);
  }

  lemma DecodedChannel4(data: seq<Byte>, j: nat)
    requires |data| >= FrameLength && j == 4
    ensures DecodeSbusData(data).value[j] == ReadField(data, j)
  {
    DecodedTwoByteChannel(data, j, 5, 4);
  }

  lemma DecodedChannel5(data: seq<Byte>, j: nat)
    requires |data| >= FrameLength && j == 5
    ensures DecodeSbusData(data).value[j] == ReadField(data, j)
  {
    DecodedThreeByteChannel(data, j, 6, 7);
  }

  lemma DecodedChannel6(data: seq<Byte>, j: nat)
    requires |data| >= FrameLength && j == 6
    ensures DecodeSbusData(data).value[j] == ReadField(data, j)
  {
    DecodedTwoByteChannel(data, j, 8, 2);
  }

  lemma DecodedChannel7(data: seq<Byte>, j: nat)
    requires |data| >= FrameLength && j == 7
    ensures DecodeSbusData(data).value[j] == ReadField(data, j)
  {
    DecodedTwoByteChannel(data, j, 9, 5);
  }

  lemma DecodedChannel8(data: seq<Byte>, j: nat)
    requires |data| >= FrameLength && j == 8
    ensures DecodeSbusData(data).value[j] == ReadField(data, j)
  {
    DecodedAlignedChannel(data, j, 11);
  }

  lemma DecodedChannel9(data: seq<Byte>, j: nat)
    requires |data| >= FrameLength && j == 9
    ensures DecodeSbusData(data).value[j] == ReadField(data, j)
  {
    DecodedTwoByteChannel(data, j, 12, 3);
  }

  lemma DecodedChannel10(data: seq<Byte>, j: nat)
    requires |data| >= FrameLength && j == 10
    ensures DecodeSbusData(data).value[j] == ReadField(data, j)
  {
    DecodedThreeByteChannel(data, j, 13, 6);
  }

  lemma DecodedChannel11(data: seq<Byte>, j: nat)
    requires |data| >= FrameLength && j == 11
    ensures DecodeSbusData(data).value[j] == ReadField(data, j)
  {
    DecodedTwoByteChannel(data, j, 15, 1);
  }

  // ---------------------------------------------------------------------
  // What the encoder and decoder promise
  // ---------------------------------------------------------------------

  /** A frame whose payload bytes are the generic packing's bytes carries, as a bit stream, the channels' stream. */
  lemma PackedPayloadIsStream(c: seq<int>, frame: seq<int>)
    requires |c| == ChannelCount && |frame| == FrameLength
    requires forall b :: 0 <= b < PayloadLength ==> frame[1 + b] == PackedByte(c, b)
    ensures Stream(frame[1 .. 1 + PayloadLength], 8) == Stream(c, ChannelBits)
  {
    var s := Stream(c, ChannelBits);
    var payload := frame[1 .. 1 + PayloadLength];
    forall pos | 0 <= pos < |s|
      ensures Stream(payload, 8)[pos] == s[pos]
    {
      var b, t := pos / 8, pos % 8;
      StreamAt(payload, 8, pos);
      assert payload[b] == PackedByte(c, b);
      BitOfValue(s[8 * b .. 8 * b + 8], t);
    }
  }

  /** The 22 payload bytes, read as a bit stream, are the 16 channels' 11-bit fields end to end. */
  lemma PayloadIsChannelStream(c: seq<int>)
    requires |c| == ChannelCount
    ensures Stream(EncodeFrame(c)[1 .. 1 + PayloadLength], 8) == Stream(c, ChannelBits)
  {
    var f := EncodeFrame(c);
    forall b | 0 <= b < PayloadLength
      ensures f[1 + b] == PackedByte(c, b)
    {
      EncodedByteIsPacked(c, b);
    }
    PackedPayloadIsStream(c, f);
  }

  /** Bit `j` of the payload is bit `j mod 11` of channel `j div 11`. */
  lemma FrameBitLayout(c: seq<int>, j: nat)
    requires |c| == ChannelCount && j < 8 * PayloadLength
    ensures Bit(EncodeFrame(c)[1 + j / 8], j % 8) == Bit(c[j / 11], j % 11)
  {
    PayloadIsChannelStream(c);
    StreamAt(EncodeFrame(c)[1 .. 1 + PayloadLength], 8, j);
    StreamAt(c, ChannelBits, j);
  }

  /**
   * Whatever the channel values, every entry of the frame is a byte: the
   * header is 0x0F, the payload bytes are masked, and the flag and footer
   * are 0.
   */
  lemma FrameIsBytes(c: seq<int>)
    requires |c| == ChannelCount
    ensures EncodeFrame(c)[0] == HeaderByte && EncodeFrame(c)[23] == 0 && EncodeFrame(c)[24] == 0
    ensures forall i :: 0 <= i < FrameLength ==> 0 <= EncodeFrame(c)[i] < 256
  {
    var f := EncodeFrame(c);
    forall i | 0 <= i < FrameLength
      ensures 0 <= f[i] < 256
    {
      if 1 <= i <= PayloadLength {
        EncodedByteIsPacked(c, i - 1);
        PackedByteIsByte(c, i - 1);
      }
    }
  }

  /** Eight bits of the stream make a byte. */
  lemma PackedByteIsByte(c: seq<int>, b: nat)
    requires |c| == ChannelCount && b < PayloadLength
    ensures PackedByte(c, b) < 256
  {
    ValueBound(Stream(c, ChannelBits)[8 * b .. 8 * b + 8]);
    Pow2Table();
  }

  /** Channel `j` read back from the stream of 11-bit fields is the low 11 bits of `c[j]`. */
  lemma ChannelField(c: seq<int>, j: nat)
    requires j < |c| == ChannelCount
    ensures 11 * j + 11 <= |Stream(c, ChannelBits)|
    ensures Value(Stream(c, ChannelBits)[11 * j .. 11 * j + 11]) == c[j] % 2048
  {
    SliceValue(c, ChannelBits, j, 0, 11, 11 * j, 11 * j + 11);
    ShrZero(c[j]);
    Pow2Table();
  }

  /**
   * Decoding an encoded frame gives back the low 11 bits of channels 1-12;
   * channels 13-16 are not decoded.
   */
  lemma RoundTrip(c: seq<int>)
    requires |c| == ChannelCount
    ensures forall i :: 0 <= i < FrameLength ==> 0 <= EncodeFrame(c)[i] < 256
    ensures DecodeSbusData(EncodeFrame(c))
            == Some(seq(DecodedCount, j requires 0 <= j < DecodedCount => c[j] % 2048))
  {
    FrameIsBytes(c);
    var f: seq<Byte> := EncodeFrame(c);
    var decoded := DecodeSbusData(f).value;
    var expected := seq(DecodedCount, j requires 0 <= j < DecodedCount => c[j] % 2048);
    DecodeReadsFields(f);
    PayloadIsChannelStream(c);
    forall j | 0 <= j < DecodedCount
      ensures decoded[j] == expected[j]
    {
      ChannelField(c, j);
    }
    assert decoded == expected;
  }

  /** Channels within 0-2047 are their own low 11 bits. */
  lemma LowBitsInRange(c: seq<int>)
    requires |c| == ChannelCount
    requires forall i :: 0 <= i < ChannelCount ==> 0 <= c[i] < 2048
    ensures seq(DecodedCount, j requires 0 <= j < DecodedCount => c[j] % 2048) == c[..DecodedCount]
  {
    var expected := seq(DecodedCount, j requires 0 <= j < DecodedCount => c[j] % 2048);
    forall j | 0 <= j < DecodedCount
      ensures expected[j] == c[j]
    {
      DivModUnique(c[j], 2048, 0, c[j]);
    }
  }

  /** Channels 1-12 within 0-2047 come back unchanged. */
  lemma RoundTripInRange(c: seq<int>)
    requires |c| == ChannelCount
    requires forall i :: 0 <= i < ChannelCount ==> 0 <= c[i] < 2048
    ensures forall i :: 0 <= i < FrameLength ==> 0 <= EncodeFrame(c)[i] < 256
    ensures DecodeSbusData(EncodeFrame(c)) == Some(c[..DecodedCount])
  {
    RoundTrip(c);
    LowBitsInRange(c);
  }

  /** Bits below `n` are the same in `x` and in its low `n` bits. */
  lemma BitOfLowBits(x: int, r: nat, n: nat)
    requires r < n
    ensures Bit(x % Pow2(n), r) == Bit(x, r)
  {
    var a, b := Pow2(r), Pow2(n - r);
    var y := x / a;
    Pow2Add(r, n - r);
    DivModNested(x, a, b);
    MulMonotone(0, y % b, a);
    MulMonotone(y % b, b - 1, a);
    MulDistributes(a, b, -1);
    DivModUnique(x % Pow2(n), a, y % b, x % a);
    Pow2Add(1, n - r - 1);
    DivModNested(y, 2, Pow2(n - r - 1));
    DivModUnique(y % b, 2, (y / 2) % Pow2(n - r - 1), y % 2);
  }

  /** Channel vectors that agree in their low 11 bits lay down the same bit stream. */
  lemma StreamOfLowBits(c: seq<int>, d: seq<int>)
    requires |c| == |d| == ChannelCount
    requires forall i :: 0 <= i < ChannelCount ==> c[i] % 2048 == d[i] % 2048
    ensures Stream(c, ChannelBits) == Stream(d, ChannelBits)
  {
    var s, t := Stream(c, ChannelBits), Stream(d, ChannelBits);
    Pow2Table();
    forall pos | 0 <= pos < |s|
      ensures s[pos] == t[pos]
    {
      var i, r := pos / 11, pos % 11;
      StreamAt(c, ChannelBits, pos);
      StreamAt(d, ChannelBits, pos);
      BitOfLowBits(c[i], r, 11);
      BitOfLowBits(d[i], r, 11);
    }
  }

  /**
   * The frame depends on the channels only through their low 11 bits: a
   * value of 2048 or more wraps around silently instead of failing.
   */
  lemma EncodeUsesLow11Bits(c: seq<int>, d: seq<int>)
    requires |c| == |d| == ChannelCount
    requires forall i :: 0 <= i < ChannelCount ==> c[i] % 2048 == d[i] % 2048
    ensures EncodeFrame(c) == EncodeFrame(d)
  {
    var f, g := EncodeFrame(c), EncodeFrame(d);
    StreamOfLowBits(c, d);
    forall i | 0 <= i < FrameLength
      ensures f[i] == g[i]
    {
      if 1 <= i <= PayloadLength {
        EncodedByteIsPacked(c, i - 1);
        EncodedByteIsPacked(d, i - 1);
      }
    }
  }

  /** Changing channel `i` leaves every payload byte that holds none of its bits as it was. */
  lemma EncodeIsolation(c: seq<int>, i: nat, v: int, b: nat)
    requires i < |c| == ChannelCount && b < PayloadLength
    requires 8 * b + 8 <= 11 * i || 11 * i + 11 <= 8 * b
    ensures EncodeFrame(c[i := v])[1 + b] == EncodeFrame(c)[1 + b]
  {
    var c' := c[i := v];
    var s, t := Stream(c, ChannelBits), Stream(c', ChannelBits);
    forall pos | 8 * b <= pos < 8 * b + 8
      ensures s[pos] == t[pos]
    {
      StreamAt(c, ChannelBits, pos);
      StreamAt(c', ChannelBits, pos);
      assert pos / 11 != i;
    }
    assert s[8 * b .. 8 * b + 8] == t[8 * b .. 8 * b + 8];
    EncodedByteIsPacked(c, b);
    EncodedByteIsPacked(c', b);
  }

  /** Only bytes 1-17 reach the decoder's result: the header, flag and footer are not checked. */
  lemma DecodeIgnoresOtherBytes(data: seq<Byte>, other: seq<Byte>)
    requires |data| >= FrameLength && |other| >= FrameLength
    requires data[1..18] == other[1..18]
    ensures DecodeSbusData(data) == DecodeSbusData(other)
  {
    assert forall k :: 1 <= k < 18 ==> data[k] == data[1..18][k - 1];
  }
}
