/**
 * sbus_controller.py, the keyboard transmitter script: its module globals
 * `data`, `control`, `switch_states` and `toggle_key_pressed`, the two
 * functions that update them in place, and one pass of its main loop.
 * The three lists are never rebound, so they are `const` fields here; the
 * reset writes the initial values into them.
 */
module SbusController {
  import Codec = SbusCodec
  import FrameWriter
  import Keys = InputMapper

  class SbusControllerScript {
    const data: array<int>
    const control: array<int>
    const switchStates: array<int>
    var toggleKeyPressed: set<char>

    /** Three distinct lists of the sizes the script creates. */
    ghost predicate Valid()
    {
      control.Length == Keys.ChannelCount && data.Length == Codec.FrameLength
      && switchStates.Length == Keys.SwitchCount
      && control != data && control != switchStates && data != switchStates
    }

    /**
     * The keyboard state the two lists and the set hold. main.py keeps the
     * same state, so `ControllerMonitorApp` has the same function.
     */
    ghost function State(): (st: Keys.KeyboardState)
      reads this, control, switchStates
      requires Valid()
      ensures Keys.WellFormed(st)
    {
      Keys.KeyboardState(control[..], switchStates[..], toggleKeyPressed)
    }

    /**
     * The module's top level before the main loop: an all-zero frame, all
     * channels zero and then set one by one, every switch in position 1 and
     * no key recorded.
     */
    constructor ()
      ensures Valid() && fresh(data) && fresh(control) && fresh(switchStates)
      ensures State() == Keys.Initial()
      ensures data[..] == seq(Codec.FrameLength, _ => 0)
    {
      data := new int[Codec.FrameLength](_ => 0);
      var c := InitialChannels();
      control := c;
      switchStates := new int[Keys.SwitchCount](_ => 1);
      toggleKeyPressed := {};
      new;
      assert switchStates[..] == Keys.InitialSwitches();
    }

    /** `control = [0] * 16` followed by the assignments that give CH1-CH16 their starting values. */
    static method InitialChannels() returns (c: array<int>)
      ensures fresh(c) && c[..] == Keys.InitialControl()
    {
      c := new int[Keys.ChannelCount](_ => 0);
      SetFlightChannels(c);
      SetSwitchChannels(c);
      assert c[..] == Keys.InitialControl();
    }

    /** The stick channels CH1-CH4 and CH6 start at 1000, the drop device CH5 at 500. */
    static method SetFlightChannels(c: array<int>)
      requires c.Length == Keys.ChannelCount
      modifies c
      ensures forall j :: 0 <= j < Keys.ChannelCount ==>
        c[j] == if j < 4 || j == 5 then 1000 else if j == 4 then 500 else old(c[j])
    {
      c[0] := 1000;
      c[1] := 1000;
      c[2] := 1000;
      c[3] := 1000;
      c[4] := 500;
      c[5] := 1000;
    }

    /** The switch channels CH7-CH16 start at 500, position 1. */
    static method SetSwitchChannels(c: array<int>)
      requires c.Length == Keys.ChannelCount
      modifies c
      ensures forall j :: 0 <= j < Keys.ChannelCount ==> c[j] == if j >= 6 then 500 else old(c[j])
    {
      c[6] := 500;
      c[7] := 500;
      c[8] := 500;
      c[9] := 500;
      c[10] := 500;
      c[11] := 500;
      c[12] := 500;
      c[13] := 500;
      c[14] := 500;
      c[15] := 500;
    }

    /**
     * `convert_data`: writes into `data`, byte by byte, the frame for the
     * current channels, so the buffer holds bytes, the header 0x0F and a zero
     * flag and footer; nothing else changes.
     */
    method ConvertData()
      requires Valid()
      modifies data
      ensures data[..] == Codec.EncodeFrame(control[..])
      ensures data[0] == Codec.HeaderByte && data[23] == 0 && data[24] == 0
      ensures forall i :: 0 <= i < Codec.FrameLength ==> 0 <= data[i] < 256
    {
      FrameWriter.WriteFrame(data, control[..]);
      Codec.FrameIsBytes(control[..]);
    }

    /**
     * `CheckKeybord` with the keys in `held` pressed: sticks, toggle keys,
     * CH6 and reset, in that order, so the state moves as `ControllerTick`
     * says; the frame buffer is not touched.
     */
    method CheckKeybord(held: set<char>)
      requires Valid()
      modifies this, control, switchStates
      ensures State() == Keys.ControllerTick(old(State()), held)
    {
      ghost var st := State();
      PollStick(0, 'j', 'l', held);
      PollStick(1, 'a', 'd', held);
      PollStick(2, 'w', 's', held);
      PollStick(3, 'i', 'k', held);
      assert control[..] == Keys.AnalogPhase(st.control, held);
      PollToggles(held);

      if 'q' in held {
        control[5] := 360;
      } else if 'e' in held {
        control[5] := 1680;
      }

      if 'R' in held {
        if 'R' !in toggleKeyPressed {
          toggleKeyPressed := toggleKeyPressed + {'R'};
          ResetInPlace();
        }
      } else {
        toggleKeyPressed := toggleKeyPressed - {'R'};
      }
    }

    /**
     * One stick channel: the increase key, else the decrease key, moves it by
     * 10 within 360-1680. main.py repeats these blocks, and so does
     * `ControllerMonitorApp`.
     */
    method PollStick(i: nat, up: char, down: char, held: set<char>)
      requires Valid() && i < 4
      modifies control
      ensures control[..] == old(control[..])[i := Keys.Ramp(old(control[i]), up in held, down in held)]
    {
      if up in held {
        if control[i] < 1680 { control[i] := control[i] + 10; }
      } else if down in held {
        if control[i] > 360 { control[i] := control[i] - 10; }
      }
    }

    /**
     * The loop over `toggle_map`, entry by entry in its order; main.py has the
     * same loop, and so does `ControllerMonitorApp`.
     */
    method PollToggles(held: set<char>)
      requires Valid()
      modifies this, control, switchStates
      ensures State() == Keys.TogglePhase(old(State()), held)
    {
      var t := 0;
      while t < |Keys.ToggleMap|
        invariant 0 <= t <= Keys.SwitchCount
        invariant State() == Keys.ToggleUpTo(old(State()), held, t)
      {
        Keys.ToggleMapIsRegular(t);
        var (key, swIdx, ctrlIdx) := Keys.ToggleMap[t];
        if key in held {
          if key !in toggleKeyPressed {
            toggleKeyPressed := toggleKeyPressed + {key};
            switchStates[swIdx] := switchStates[swIdx] % 3 + 1;
            var val := Keys.Levels[switchStates[swIdx] - 1];
            control[ctrlIdx] := val;
          }
        } else {
          toggleKeyPressed := toggleKeyPressed - {key};
        }
        t := t + 1;
      }
    }

    /** The body of the reset: the initial values written into the same two lists. */
    method ResetInPlace()
      requires Valid()
      modifies control, switchStates
      ensures control[..] == Keys.InitialControl() && switchStates[..] == Keys.InitialSwitches()
    {
      for i := 0 to 4
        invariant forall j :: 0 <= j < i ==> control[j] == 1000
      {
        control[i] := 1000;
      }
      control[4] := 500;
      control[5] := 1000;
      for i := 6 to Keys.ChannelCount
        invariant forall j :: 0 <= j < Keys.ChannelCount && j < i ==>
          control[j] == if j < 4 || j == 5 then 1000 else 500
      {
        control[i] := 500;
      }
      assert control[..] == Keys.InitialControl();
      for i := 0 to Keys.SwitchCount
        invariant control[..] == Keys.InitialControl()
        invariant forall j :: 0 <= j < i ==> switchStates[j] == 1
      {
        switchStates[i] := 1;
      }
      assert switchStates[..] == Keys.InitialSwitches();
    }

    /**
     * One pass of the main loop: poll the keyboard, rebuild the frame and
     * hand it to the serial port. The bytes written are returned; the port
     * itself is not modelled.
     */
    method LoopStep(held: set<char>) returns (written: seq<int>)
      requires Valid()
      modifies this, data, control, switchStates
      ensures State() == Keys.ControllerTick(old(State()), held)
      ensures written == data[..] == Codec.EncodeFrame(State().control)
    {
      CheckKeybord(held);
      ConvertData();
      written := data[..];
    }
  }
}
