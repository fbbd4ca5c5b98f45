/**
 * `convert_data`, which main.py and sbus_controller.py both define with the
 * same body: the 25 bytes of an SBUS frame written one by one into a list
 * of 25 entries, from the channel list with the bit operations of the
 * source. The writes are grouped by the half of the channel list they read.
 */
module FrameWriter {
  import opened PyBits
  import opened SbusCodec

  /** Every entry of `data` now holds the frame `EncodeFrame` builds from `channels`. */
  method WriteFrame(data: array<int>, channels: seq<int>)
    requires data.Length == FrameLength && |channels| == ChannelCount
    modifies data
    ensures data[..] == EncodeFrame(channels)
  {
    ghost var frame := EncodeFrame(channels);
    data[0] := 0x0F;
    WriteBytes1To5(data, channels, frame);
    WriteBytes6To11(data, channels, frame);
    WriteBytes12To16(data, channels, frame);
    WriteBytes17To22(data, channels, frame);
    data[23] := 0x00;
    data[24] := 0x00;
    assert forall j :: 0 <= j < FrameLength ==> data[j] == frame[j];
  }

  /** Bytes 1-5 carry CH1-CH3 and the low 7 bits of CH4. */
  method WriteBytes1To5(data: array<int>, channels: seq<int>, ghost frame: seq<int>)
    requires data.Length == FrameLength && |channels| == ChannelCount && frame == EncodeFrame(channels)
    modifies data
    ensures forall j :: 0 <= j < FrameLength ==> data[j] == if 1 <= j <= 5 then frame[j] else old(data[j])
  {
    data[1] := And(channels[0], 0xFF);
    data[2] := Or(And(Shr(channels[0], 8), 0x07), Shl(And(channels[1], 0x1F), 3));
    data[3] := Or(And(Shr(channels[1], 5), 0x3F), Shl(And(channels[2], 0x03), 6));
    data[4] := And(Shr(channels[2], 2), 0xFF);
    data[5] := Or(And(Shr(channels[2], 10), 0x01), Shl(And(channels[3], 0x7F), 1));
  }

  /** Bytes 6-11 carry the rest of CH4 and CH5-CH8. */
  method WriteBytes6To11(data: array<int>, channels: seq<int>, ghost frame: seq<int>)
    requires data.Length == FrameLength && |channels| == ChannelCount && frame == EncodeFrame(channels)
    modifies data
    ensures forall j :: 0 <= j < FrameLength ==> data[j] == if 6 <= j <= 11 then frame[j] else old(data[j])
  {
    data[6] := Or(And(Shr(channels[3], 7), 0x0F), Shl(And(channels[4], 0x0F), 4));
    data[7] := Or(And(Shr(channels[4], 4), 0x7F), Shl(And(channels[5], 0x01), 7));
    data[8] := And(Shr(channels[5], 1), 0xFF);
    data[9] := Or(And(Shr(channels[5], 9), 0x03), Shl(And(channels[6], 0x3F), 2));
    data[10] := Or(And(Shr(channels[6], 6), 0x1F), Shl(And(channels[7], 0x07), 5));
    data[11] := And(Shr(channels[7], 3), 0xFF);
  }

  /** Bytes 12-16 carry CH9-CH11 and the low 7 bits of CH12, as bytes 1-5 do for the first half. */
  method WriteBytes12To16(data: array<int>, channels: seq<int>, ghost frame: seq<int>)
    requires data.Length == FrameLength && |channels| == ChannelCount && frame == EncodeFrame(channels)
    modifies data
    ensures forall j :: 0 <= j < FrameLength ==> data[j] == if 12 <= j <= 16 then frame[j] else old(data[j])
  {
    data[12] := And(channels[8], 0xFF);
    data[13] := Or(And(Shr(channels[8], 8), 0x07), Shl(And(channels[9], 0x1F), 3));
    data[14] := Or(And(Shr(channels[9], 5), 0x3F), Shl(And(channels[10], 0x03), 6));
    data[15] := And(Shr(channels[10], 2), 0xFF);
    data[16] := Or(And(Shr(channels[10], 10), 0x01), Shl(And(channels[11], 0x7F), 1));
  }

  /** Bytes 17-22 carry the rest of CH12 and CH13-CH16. */
  method WriteBytes17To22(data: array<int>, channels: seq<int>, ghost frame: seq<int>)
    requires data.Length == FrameLength && |channels| == ChannelCount && frame == EncodeFrame(channels)
    modifies data
    ensures forall j :: 0 <= j < FrameLength ==> data[j] == if 17 <= j <= 22 then frame[j] else old(data[j])
  {
    data[17] := Or(And(Shr(channels[11], 7), 0x0F), Shl(And(channels[12], 0x0F), 4));
    data[18] := Or(And(Shr(channels[12], 4), 0x7F), Shl(And(channels[13], 0x01), 7));
    data[19] := And(Shr(channels[13], 1), 0xFF);
    data[20] := Or(And(Shr(channels[13], 9), 0x03), Shl(And(channels[14], 0x3F), 2));
    data[21] := Or(And(Shr(channels[14], 6), 0x1F), Shl(And(channels[15], 0x07), 5));
    data[22] := And(Shr(channels[15], 3), 0xFF);
  }
}
