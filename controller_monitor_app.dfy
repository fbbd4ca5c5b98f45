/**
 * The transmitter half of main.py's `SBUSControllerMonitorApp`: the
 * `control`, `data` and `switch_states` lists and the `_toggle_key_pressed`
 * set, updated in place by `convert_data` and by one iteration of the
 * `check_keyboard` loop. Python lists become arrays; the reset rebinds
 * `control` and `switch_states` to new lists, so here it allocates new arrays.
 */
module ControllerMonitorApp {
  import opened PyBits
  import Codec = SbusCodec
  import FrameWriter
  import Keys = InputMapper

  class SbusControllerMonitorApp {
    var control: array<int>
    var data: array<int>
    var switchStates: array<int>
    var toggleKeyPressed: set<char>

    /** Three distinct lists of the sizes the application creates. */
    ghost predicate Valid()
      reads this
    {
      control.Length == Keys.ChannelCount && data.Length == Codec.FrameLength
      && switchStates.Length == Keys.SwitchCount
      && control != data && control != switchStates && data != switchStates
    }

    /** The keyboard state the arrays and the set hold. */
    ghost function State(): (st: Keys.KeyboardState)
      reads this, control, switchStates
      requires Valid()
      ensures Keys.WellFormed(st)
    {
      Keys.KeyboardState(control[..], switchStates[..], toggleKeyPressed)
    }

    /** The controller part of `__init__`: the initial channels, an all-zero frame buffer, switches at 1. */
    constructor ()
      ensures Valid() && fresh(control) && fresh(data) && fresh(switchStates)
      ensures State() == Keys.Initial()
      ensures data[..] == seq(Codec.FrameLength, _ => 0)
    {
      var c := NewInitialControl();
      control := c;
      data := new int[Codec.FrameLength](_ => 0);
      switchStates := new int[Keys.SwitchCount](_ => 1);
      toggleKeyPressed := {};
      new;
      assert switchStates[..] == Keys.InitialSwitches();
    }

    /**
     * `convert_data`: writes into `data`, byte by byte, the frame for the
     * current channels, so the buffer holds bytes, the header 0x0F and a zero
     * flag and footer.
     */
    method ConvertData()
      requires Valid()
      modifies data
      ensures Valid()
      ensures data[..] == Codec.EncodeFrame(control[..])
      ensures data[0] == Codec.HeaderByte && data[23] == 0 && data[24] == 0
      ensures forall i :: 0 <= i < Codec.FrameLength ==> 0 <= data[i] < 256
    {
      FrameWriter.WriteFrame(data, control[..]);
      Codec.FrameIsBytes(control[..]);
    }

    /**
     * One iteration of the `check_keyboard` loop with the keys in `held`
     * pressed: the state moves as `Tick` says. The frame buffer is not
     * touched. A reset rebinds `control` and `switch_states` to new lists;
     * otherwise the same lists are updated in place.
     */
    method CheckKeyboard(held: set<char>)
      requires Valid()
      modifies this, control, switchStates
      ensures Valid() && data == old(data)
      ensures State() == Keys.Tick(old(State()), held)
      ensures Keys.ResetEdge(old(State()), held) ==> fresh(control) && fresh(switchStates)
      ensures !Keys.ResetEdge(old(State()), held) ==>
        control == old(control) && switchStates == old(switchStates)
    {
      ghost var st := State();
      PollSticks(held);
      ghost var sticks := State();
      PollToggles(held);
      Keys.ToggleUpToEffect(sticks, held, Keys.SwitchCount);
      PollReset(held);
    }

    /** The stick channels CH1-CH4, then CH6. */
    method PollSticks(held: set<char>)
      requires Valid()
      modifies control
      ensures Valid()
      ensures State() == old(State()).(control := Keys.AileronPhase(Keys.AnalogPhase(old(control[..]), held), held))
    {
      PollStick(0, 'j', 'l', held);
      PollStick(1, 'a', 'd', held);
      PollStick(2, 'w', 's', held);
      PollStick(3, 'i', 'k', held);
      assert control[..] == Keys.AnalogPhase(old(control[..]), held);

      if 'q' in held {
        control[5] := 360;
      } else if 'e' in held {
        control[5] := 1680;
      }
    }

    /** One stick channel: the increase key, else the decrease key, moves it by 10 within 360-1680. */
    method PollStick(i: nat, up: char, down: char, held: set<char>)
      requires Valid() && i < 4
      modifies control
      ensures Valid()
      ensures control[..] == old(control[..])[i := Keys.Ramp(old(control[i]), up in held, down in held)]
    {
      var step := 10;
      if up in held {
        if control[i] < 1680 { control[i] := control[i] + step; }
      } else if down in held {
        if control[i] > 360 { control[i] := control[i] - step; }
      }
    }

    /** The loop over `toggle_map`, entry by entry in its order. */
    method PollToggles(held: set<char>)
      requires Valid()
      modifies this`toggleKeyPressed, control, switchStates
      ensures Valid()
      ensures State() == Keys.TogglePhase(old(State()), held)
    {
      var t := 0;
      while t < |Keys.ToggleMap|
        invariant 0 <= t <= Keys.SwitchCount
        invariant Valid()
        invariant State() == Keys.ToggleUpTo(old(State()), held, t)
      {
        Keys.ToggleMapIsRegular(t);
        var (key, swIdx, ctrlIdx) := Keys.ToggleMap[t];
        if key in held {
          if key !in toggleKeyPressed {
            toggleKeyPressed := toggleKeyPressed + {key};
            switchStates[swIdx] := switchStates[swIdx] % 3 + 1;
            control[ctrlIdx] := Keys.Levels[switchStates[swIdx] - 1];
          }
        } else {
          toggleKeyPressed := toggleKeyPressed - {key};
        }
        t := t + 1;
      }
    }

    /** On a press edge of `R`, new lists with the initial values. */
    method PollReset(held: set<char>)
      requires Valid()
      modifies this
      ensures Valid() && data == old(data)
      ensures State() == Keys.ResetPhase(old(State()), held)
      ensures Keys.ResetEdge(old(State()), held) ==> fresh(control) && fresh(switchStates)
      ensures !Keys.ResetEdge(old(State()), held) ==>
        control == old(control) && switchStates == old(switchStates)
    {
      if 'R' in held {
        if 'R' !in toggleKeyPressed {
          toggleKeyPressed := toggleKeyPressed + {'R'};
          var c := NewInitialControl();
          control := c;
          switchStates := new int[Keys.SwitchCount](_ => 1);
          assert switchStates[..] == Keys.InitialSwitches();
        }
      } else {
        toggleKeyPressed := toggleKeyPressed - {'R'};
      }
    }
  }

  /** `[1000] * 16` with CH5 and CH7-CH16 then set to 500, as a new list. */
  method NewInitialControl() returns (c: array<int>)
    ensures fresh(c) && c[..] == Keys.InitialControl()
  {
    c := new int[Keys.ChannelCount](_ => 1000);
    c[4] := 500;
    for i := 6 to Keys.ChannelCount
      invariant forall j :: 0 <= j < Keys.ChannelCount ==>
        c[j] == if j == 4 || 6 <= j < i then 500 else 1000
    {
      c[i] := 500;
    }
    assert c[..] == Keys.InitialControl();
  }
}
