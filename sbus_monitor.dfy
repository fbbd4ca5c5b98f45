/**
 * sbus_monitor.py, the receiving monitor: each read of the serial port is
 * decoded only when it returned exactly 25 bytes, and each decoded channel
 * is shown as a PWM value, offset by 512 and clamped to 500-1500. Its
 * `decode_sbus_data` has the same body as main.py's and is modelled by the
 * same function, `SbusCodec.DecodeSbusData`.
 */
module SbusMonitor {
  import opened SbusCodec
  import Keys = InputMapper

  const PwmOffset: int := 512
  const PwmMin: int := 500
  const PwmMax: int := 1500

  /** `max(500, min(1500, value + 512))`. */
  function PwmValue(value: int): (pwm: int)
    ensures PwmMin <= pwm <= PwmMax
  {
    var shifted := value + PwmOffset;
    var capped := if shifted < PwmMax then shifted else PwmMax;
    if PwmMin > capped then PwmMin else capped
  }

  /** The displayed value always lies in 500-1500, and it is the shifted value whenever that does. */
  lemma PwmInRange(value: int)
    ensures PwmMin <= PwmValue(value) <= PwmMax
    ensures PwmMin <= value + PwmOffset <= PwmMax ==> PwmValue(value) == value + PwmOffset
    ensures value + PwmOffset > PwmMax ==> PwmValue(value) == PwmMax
    ensures value + PwmOffset < PwmMin ==> PwmValue(value) == PwmMin
  {
  }

  /** A larger channel value never shows as a smaller PWM value. */
  lemma PwmMonotone(a: int, b: int)
    requires a <= b
    ensures PwmValue(a) <= PwmValue(b)
  {
  }

  /** The PWM value of each channel, in order. */
  function PwmValues(channels: seq<int>): (pwm: seq<int>)
    ensures |pwm| == |channels|
    ensures forall i :: 0 <= i < |channels| ==> pwm[i] == PwmValue(channels[i])
  {
    if channels == [] then [] else [PwmValue(channels[0])] + PwmValues(channels[1..])
  }

  /**
   * What one pass of `monitor_serial` shows for the bytes a read returned:
   * nothing unless the read returned exactly 25 bytes, otherwise the PWM
   * value of each of the 12 decoded channels.
   */
  function MonitorFrame(read: seq<Byte>): (shown: Option<seq<int>>)
    ensures shown.Some? <==> |read| == FrameLength
    ensures shown.Some? ==> |shown.value| == DecodedCount
  {
    if |read| == FrameLength then
      var channels := DecodeSbusData(read);
      if channels.Some? && |channels.value| > 0 then Some(PwmValues(channels.value))
      else None
    else None
  }

  /**
   * Every value shown is in 512-1500: a decoded channel is an 11-bit value,
   * so the lower clamp never applies.
   */
  lemma ShownRange(read: seq<Byte>)
    requires |read| == FrameLength
    ensures forall i :: 0 <= i < DecodedCount ==>
      MonitorFrame(read).value[i] == PwmValue(DecodeSbusData(read).value[i])
    ensures forall i :: 0 <= i < DecodedCount ==> 512 <= MonitorFrame(read).value[i] <= PwmMax
  {
  }

  /**
   * A frame the transmitter sends with channel values in 0-2047 shows
   * channels 1-12 as their PWM values, min(1500, value + 512).
   */
  lemma ShowsTransmitted(c: seq<int>)
    requires |c| == ChannelCount
    requires forall i :: 0 <= i < ChannelCount ==> 0 <= c[i] < 2048
    ensures forall i :: 0 <= i < FrameLength ==> 0 <= EncodeFrame(c)[i] < 256
    ensures MonitorFrame(EncodeFrame(c)) == Some(PwmValues(c[..DecodedCount]))
  {
    RoundTripInRange(c);
    ShowsDecoded(EncodeFrame(c), c[..DecodedCount]);
  }

  /** A read of 25 bytes shows the PWM values of what it decodes to. */
  lemma ShowsDecoded(read: seq<Byte>, channels: seq<int>)
    requires |read| == FrameLength && DecodeSbusData(read) == Some(channels)
    ensures MonitorFrame(read) == Some(PwmValues(channels))
  {
  }

  /**
   * Any transmitted channel of 988 or more shows as 1500: the rest value
   * 1000 of CH1-CH4 and CH6 reads as full scale, and the switch levels
   * 500, 1000 and 1500 show as 1012, 1500 and 1500.
   */
  lemma HighChannelsSaturate(c: seq<int>, i: nat)
    requires |c| == ChannelCount && i < DecodedCount
    requires forall k :: 0 <= k < ChannelCount ==> 0 <= c[k] < 2048
    requires c[i] >= 988
    ensures forall k :: 0 <= k < FrameLength ==> 0 <= EncodeFrame(c)[k] < 256
    ensures MonitorFrame(EncodeFrame(c)).value[i] == PwmMax
  {
    ShowsTransmitted(c);
  }

  /**
   * Whatever keys were pressed, the frame a transmitter builds from a state
   * that keeps the keyboard invariant is shown on the monitor as the PWM
   * values of its channels 1-12.
   */
  lemma ShowsKeyboardState(st: Keys.KeyboardState)
    requires Keys.Valid(st)
    ensures forall i :: 0 <= i < FrameLength ==> 0 <= EncodeFrame(st.control)[i] < 256
    ensures MonitorFrame(EncodeFrame(st.control)) == Some(PwmValues(st.control[..DecodedCount]))
  {
    Keys.ValidChannelsInRange(st);
    ShowsTransmitted(st.control);
  }
}
